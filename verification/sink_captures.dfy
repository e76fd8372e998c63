/** Fault captures go out one after another, each whole unless superseded. */
module SinkCaptures {
  import opened Checksum
  import opened SinkModel
  import opened SinkRuns
  import opened SinkHistory
  import opened Sequences
  import Codec

  // ---------------------------------------------------------------- fault captures

  /** What the captures put on the wire: of each, the fragments counted. */
  function Concatenated(cs: seq<Capture>): seq<Frame> {
    if cs == [] then []
    else
      var c := cs[|cs| - 1];
      Concatenated(cs[..|cs| - 1]) + if c.count <= |c.frames| then c.frames[..c.count] else c.frames
  }

  /** Every capture sends its fragments in order from the first; only a superseded one may stop early. */
  ghost predicate Orderly(cs: seq<Capture>) {
    && (forall i :: 0 <= i < |cs| ==> cs[i].count <= |cs[i].frames|)
    && (forall i :: 0 <= i < |cs| - 1 ==> (cs[i].superseded <==> cs[i].count < |cs[i].frames|))
    && (cs != [] ==> !cs[|cs| - 1].superseded)
  }

  ghost predicate Traced(s: State) {
    && Shaped(s)
    && Orderly(s.captures)
    && FramesOf(s.wire, Traces) == Concatenated(s.captures)
    && Queue(s, Traces) == (if s.captures == [] then []
                            else var c := s.captures[|s.captures| - 1]; c.frames[c.count..])
    && s.pending == s.flag
    && (Queue(s, Traces) != [] ==> s.pending)
  }

  /** Between ticks a capture is pending exactly while fragments of it are queued. */
  ghost predicate Settled(s: State) {
    Traced(s) && (s.pending <==> Queue(s, Traces) != [])
  }

  lemma PushTraced(s: State, c: Class, f: Frame)
    requires Traced(s) && c != Traces
    ensures Traced(Push(s, c, f)) && Push(s, c, f).captures == s.captures && Push(s, c, f).pending == s.pending
    ensures Queue(Push(s, c, f), Traces) == Queue(s, Traces)
  {
    PushEffect(s, c, f, Traces);
  }

  lemma {:induction false} PushAllTraced(s: State, c: Class, fs: seq<Frame>)
    requires Traced(s) && c != Traces
    ensures Traced(PushAll(s, c, fs))
    decreases |fs|
  {
    if fs != [] {
      PushAllTraced(s, c, fs[..|fs| - 1]);
      PushTraced(PushAll(s, c, fs[..|fs| - 1]), c, fs[|fs| - 1]);
    }
  }

  lemma AnswerTraced(s: State, env: TickEnv)
    requires Traced(s) && Intercepts(s, Control)
    ensures Traced(AfterAnswer(s, env))
  {
    var e := Queue(s, Control)[0];
    assert Traced(Popped(s, Control));
    if |e| == 13 {
      PushAllTraced(QueryTaken(s), Control, AnswerFrames(s.answers, e[10], env));
    }
  }

  lemma CountedOne(cs: seq<Capture>)
    requires cs != [] && Orderly(cs) && cs[|cs| - 1].count < |cs[|cs| - 1].frames|
    ensures Orderly(Counted(cs))
    ensures Concatenated(Counted(cs)) == Concatenated(cs) + [cs[|cs| - 1].frames[cs[|cs| - 1].count]]
  {
    var n := |cs| - 1;
    var c := cs[n];
    assert Counted(cs)[..n] == cs[..n];
    assert c.frames[..c.count + 1] == c.frames[..c.count] + [c.frames[c.count]];
  }

  lemma TraceSent(s: State, room: nat)
    requires Traced(s) && Queue(s, Traces) != []
    ensures Traced(Sent(s, Traces, room))
  {
    SentEffect(s, Traces, room, Traces);
    CountedOne(s.captures);
  }

  lemma OtherSent(s: State, c: Class, room: nat)
    requires Traced(s) && Queue(s, c) != [] && c != Traces
    ensures Traced(Sent(s, c, room))
  {
    SentEffect(s, c, room, Traces);
  }

  lemma SentTraced(s: State, c: Class, room: nat)
    requires Traced(s) && Queue(s, c) != []
    ensures Traced(Sent(s, c, room))
  {
    if c == Traces { TraceSent(s, room); } else { OtherSent(s, c, room); }
  }

  /** What draining another class leaves alone. */
  ghost predicate SameTraces(s: State, t: State)
    requires Shaped(s)
  {
    Shaped(t) && Queue(t, Traces) == Queue(s, Traces) && t.pending == s.pending
  }

  lemma SentLeavesTraces(s: State, c: Class, room: nat)
    requires Shaped(s) && Queue(s, c) != [] && c != Traces
    ensures SameTraces(s, Sent(s, c, room))
  {
    SentEffect(s, c, room, Traces);
  }

  lemma {:induction false} PushAllLeaves(s: State, c: Class, fs: seq<Frame>)
    requires Shaped(s) && c != Traces
    ensures SameTraces(s, PushAll(s, c, fs))
    decreases |fs|
  {
    if fs != [] {
      PushAllLeaves(s, c, fs[..|fs| - 1]);
      PushEffect(PushAll(s, c, fs[..|fs| - 1]), c, fs[|fs| - 1], Traces);
    }
  }

  lemma AnswerLeavesTraces(s: State, env: TickEnv)
    requires Shaped(s) && Intercepts(s, Control)
    ensures SameTraces(s, AfterAnswer(s, env))
  {
    var e := Queue(s, Control)[0];
    if |e| == 13 {
      PushAllLeaves(QueryTaken(s), Control, AnswerFrames(s.answers, e[10], env));
    }
  }

  lemma ClassTraced(s: State, c: Class, l: Link, env: TickEnv) returns (d: Drained)
    requires Traced(s)
    ensures d == DrainClass(s, c, l, env) && Traced(d.state)
    ensures c != Traces ==> SameTraces(s, d.state)
  {
    forall t: State, room: nat | Shaped(t) && Traced(t) && Queue(t, c) != [] && !Intercepts(t, c)
      ensures Traced(Sent(t, c, room))
    {
      SentTraced(t, c, room);
    }
    forall t: State | Shaped(t) && Traced(t) && Intercepts(t, c) ensures Traced(AfterAnswer(t, env)) {
      AnswerTraced(t, env);
    }
    DrainKeeps(t => Traced(t), s, c, l, env);
    if c != Traces { ClassLeavesTraces(s, c, l, env); }
    d := DrainClass(s, c, l, env);
  }

  lemma ClassLeavesTraces(s: State, c: Class, l: Link, env: TickEnv)
    requires Shaped(s) && c != Traces
    ensures SameTraces(s, Drain(s, c, l, env).state)
  {
    forall t: State, room: nat | Shaped(t) && SameTraces(s, t) && Queue(t, c) != [] && !Intercepts(t, c)
      ensures SameTraces(s, Sent(t, c, room))
    {
      SentLeavesTraces(t, c, room);
    }
    forall t: State | Shaped(t) && SameTraces(s, t) && Intercepts(t, c) ensures SameTraces(s, AfterAnswer(t, env)) {
      AnswerLeavesTraces(t, env);
    }
    DrainKeeps(t => SameTraces(s, t), s, c, l, env);
  }

  lemma AnswersTraced(s: State, env: TickEnv) returns (d: Drained)
    requires Traced(s)
    ensures d == AnswersDrained(s, env) && Traced(d.state)
  {
    var control := ClassTraced(s, Control, Link(LINK_BUDGET, 0, 0), env);
    d := ClassTraced(control.state, Service, control.link, env);
  }

  lemma RecordsTraced(p: Drained, env: TickEnv) returns (d: Drained)
    requires Traced(p.state)
    ensures d == RecordsDrained(p, env) && Traced(d.state)
  {
    var events := ClassTraced(p.state, Events, NextClass(p), env);
    d := ClassTraced(events.state, Logs, NextClass(events), env);
  }

  lemma DeliveredSettled(s: State)
    requires Traced(s)
    ensures Settled(Delivered(s))
  {
  }

  lemma RestSettled(p: Drained, env: TickEnv) returns (d: Drained)
    requires Traced(p.state)
    ensures d == RestDrained(p, env) && Settled(d.state)
  {
    var traces := ClassTraced(p.state, Traces, NextClass(p), env);
    DeliveredSettled(traces.state);
    d := ClassTraced(Delivered(traces.state), Telemetry, NextClass(traces), env);
  }

  lemma FlushedSettled(s: State, env: TickEnv)
    requires Settled(s)
    ensures Settled(Flushed(s, env))
  {
    if s.dropPending.Some? {
      PushTraced(Reporting(s, env), Events, env.dropEvent(s.dropPending.value));
    }
  }

  lemma TickTraced(s: State, env: TickEnv)
    requires Settled(s)
    ensures Settled(Tick(s, env))
  {
    var answers := AnswersTraced(s, env);
    var records := RecordsTraced(answers, env);
    var rest := RestSettled(records, env);
    FlushedSettled(rest.state, env);
  }

  /** Into an empty trace queue a whole capture fits: nothing is evicted and no drop is noted. */
  lemma {:induction false} PushAllFits(s: State, fs: seq<Frame>)
    requires Shaped(s) && Queue(s, Traces) == [] && |fs| <= Capacity(Traces)
    ensures var t := PushAll(s, Traces, fs);
            t == s.(queues := s.queues[Code(Traces) := fs],
                    accepted := s.accepted[Code(Traces) := s.accepted[Code(Traces)] + fs])
    decreases |fs|
  {
    if fs == [] {
      assert s.queues == s.queues[Code(Traces) := fs];
      assert s.accepted[Code(Traces)] + fs == s.accepted[Code(Traces)];
      assert s.accepted == s.accepted[Code(Traces) := s.accepted[Code(Traces)] + fs];
    } else {
      var n := |fs| - 1;
      PushAllFits(s, fs[..n]);
      assert fs[..n] + [fs[n]] == fs;
      assert s.accepted[Code(Traces)] + fs[..n] + [fs[n]] == s.accepted[Code(Traces)] + fs;
    }
  }

  lemma ClosedOrderly(cs: seq<Capture>, superseded: bool, c: Capture)
    requires Orderly(cs) && c.count == 0 && !c.superseded
    requires cs != [] ==> (superseded <==> cs[|cs| - 1].count < |cs[|cs| - 1].frames|)
    ensures Orderly(Closed(cs, superseded) + [c])
    ensures Concatenated(Closed(cs, superseded) + [c]) == Concatenated(cs)
  {
    var d := Closed(cs, superseded);
    assert (d + [c])[..|d|] == d;
    if cs != [] {
      assert d[..|d| - 1] == cs[..|cs| - 1];
    }
  }

  lemma SupersededState(s: State, notice: Frame)
    requires Settled(s)
    ensures var t := Superseded(s, notice);
            && Shaped(t) && Queue(t, Traces) == []
            && t.captures == s.captures && t.wire == s.wire
  {
    PushEffect(s, Events, notice, Traces);
  }

  /** A new capture goes whole into the empty trace queue and closes the one before it. */
  lemma CaptureTraced(s: State, head: seq<Byte>, staging: seq<Byte>, notice: Frame)
    requires Settled(s) && Sized(head, staging)
    ensures Settled(StartCapture(s, head, staging, notice))
    ensures Queue(StartCapture(s, head, staging, notice), Traces) == CaptureFrames(head, staging)
  {
    var fs := CaptureFrames(head, staging);
    SupersededState(s, notice);
    PushAllFits(Superseded(s, notice).(pending := true), fs);
    ClosedOrderly(s.captures, s.pending, Capture(fs, 0, false));
    StartedTraced(StartCapture(s, head, staging, notice), Closed(s.captures, s.pending), fs);
  }

  lemma StartedTraced(s: State, before: seq<Capture>, fs: seq<Frame>)
    requires Shaped(s) && s.captures == before + [Capture(fs, 0, false)] && fs != []
    requires Orderly(s.captures) && FramesOf(s.wire, Traces) == Concatenated(s.captures)
    requires Queue(s, Traces) == fs && s.pending && s.flag
    ensures Settled(s)
  {
    assert fs[0..] == fs;
  }

  /** With captures the only source of trace records, what goes out as traces over any run is one capture
      after another, each an unbroken run of its own fragments from the first on, all of them unless a later
      capture superseded it; the rest of the last one is still queued. */
  lemma {:induction false} CapturesInOrder(acts: Actions)
    requires forall i :: 0 <= i < |acts| ==> CapturesOwnTraces(acts[i])
    ensures Settled(Run(acts))
    decreases |acts|
  {
    if acts == [] {
      assert Traced(EMPTY);
    } else {
      var s := Run(acts[..|acts| - 1]);
      CapturesInOrder(acts[..|acts| - 1]);
      match acts[|acts| - 1]
      case PushAction(c, f) => PushTraced(s, c, f);
      case CaptureAction(head, staging, notice) => CaptureTraced(s, head, staging, notice);
      case TickAction(env) => TickTraced(s, env);
    }
  }

  // ---------------------------------------------------------------- reassembly

  /** What a receiver gets from `k` fragments: their payloads without the two index bytes, joined. */
  function Reassembled(fs: seq<Frame>): seq<Byte> {
    if fs == [] then []
    else
      var r := Codec.Decode(fs[|fs| - 1]);
      Reassembled(fs[..|fs| - 1]) + if r.Decoded? && |r.payload| >= 2 then r.payload[2..] else []
  }

  lemma FragmentDecodes(h: Codec.Header, stream: seq<Byte>, f: nat, count: nat)
    requires f < 256 && count < 256 && h.major == 1 && 1 <= h.family <= 7
    ensures Codec.Decode(Fragment(h, stream, f, count)) == Codec.Decoded(h, [f, count] + Chunk(stream, f))
  {
    Codec.FrameVerdict(Fragment(h, stream, f, count), h, [f, count] + Chunk(stream, f));
  }

  lemma {:induction false} ReassembledPrefix(h: Codec.Header, stream: seq<Byte>, fs: seq<Frame>, k: nat)
    requires |stream| <= 5 * CHUNK && h.major == 1 && 1 <= h.family <= 7 && fs == Fragments(h, stream) && k <= |fs|
    ensures Reassembled(fs[..k]) == stream[..ChunkStart(k, |stream|)]
  {
    if k > 0 {
      ReassembledPrefix(h, stream, fs, k - 1);
      assert fs[..k][..k - 1] == fs[..k - 1];
      FragmentDecodes(h, stream, k - 1, |fs|);
      assert ([k - 1, |fs|] + Chunk(stream, k - 1))[2..] == Chunk(stream, k - 1);
      PrefixGrows(stream, ChunkStart(k - 1, |stream|), ChunkStart(k, |stream|));
    }
  }

  /** The fragments of a stream reassemble to exactly that stream. */
  lemma FragmentsReassemble(h: Codec.Header, stream: seq<Byte>)
    requires |stream| <= 5 * CHUNK && h.major == 1 && 1 <= h.family <= 7
    ensures Reassembled(Fragments(h, stream)) == stream
  {
    var fs := Fragments(h, stream);
    ReassembledPrefix(h, stream, fs, |fs|);
    assert fs[..|fs|] == fs && stream[..|stream|] == stream;
  }

  /** The byte streams of the captures started, in order: header and staging of each. */
  function Streams(acts: Actions): (r: seq<seq<Byte>>)
    ensures forall i :: 0 <= i < |r| ==> |r[i]| <= 5 * CHUNK
  {
    if acts == [] then []
    else
      var a := acts[|acts| - 1];
      Streams(acts[..|acts| - 1]) + if a.CaptureAction? then [a.head + a.staging] else []
  }

  /** The captures on record are those of `streams`, one by one. */
  ghost predicate Genuine(streams: seq<seq<Byte>>, cs: seq<Capture>) {
    |cs| == |streams| && forall i :: 0 <= i < |cs| ==> IsCaptureOf(cs[i], streams[i])
  }

  predicate IsCaptureOf(c: Capture, stream: seq<Byte>) {
    |stream| <= 5 * CHUNK && c.frames == Fragments(TRACE_HEADER, stream)
  }

  lemma {:induction false} PushAllKeepsCaptures(s: State, c: Class, fs: seq<Frame>)
    requires Shaped(s)
    ensures PushAll(s, c, fs).captures == s.captures
    decreases |fs|
  {
    if fs != [] {
      PushAllKeepsCaptures(s, c, fs[..|fs| - 1]);
      PushEffect(PushAll(s, c, fs[..|fs| - 1]), c, fs[|fs| - 1], Control);
    }
  }

  lemma AnswerKeepsCaptures(s: State, env: TickEnv)
    requires Shaped(s) && Intercepts(s, Control)
    ensures AfterAnswer(s, env).captures == s.captures
  {
    var e := Queue(s, Control)[0];
    if |e| == 13 {
      PushAllKeepsCaptures(QueryTaken(s), Control, AnswerFrames(s.answers, e[10], env));
    }
  }

  lemma CountedGenuine(streams: seq<seq<Byte>>, cs: seq<Capture>)
    requires Genuine(streams, cs)
    ensures Genuine(streams, Counted(cs))
  {
    forall i | 0 <= i < |cs| ensures IsCaptureOf(Counted(cs)[i], streams[i]) {
      assert IsCaptureOf(cs[i], streams[i]);
    }
  }

  lemma ClassGenuine(streams: seq<seq<Byte>>, s: State, c: Class, l: Link, env: TickEnv) returns (d: Drained)
    requires Shaped(s) && Genuine(streams, s.captures)
    ensures d == DrainClass(s, c, l, env) && Genuine(streams, d.state.captures)
  {
    forall t: State, room: nat | Shaped(t) && Genuine(streams, t.captures) && Queue(t, c) != [] && !Intercepts(t, c)
      ensures Genuine(streams, Sent(t, c, room).captures)
    {
      CountedGenuine(streams, t.captures);
    }
    forall t: State | Shaped(t) && Genuine(streams, t.captures) && Intercepts(t, c)
      ensures Genuine(streams, AfterAnswer(t, env).captures)
    {
      AnswerKeepsCaptures(t, env);
    }
    DrainKeeps((t: State) => Genuine(streams, t.captures), s, c, l, env);
    d := DrainClass(s, c, l, env);
  }

  lemma AnswersGenuine(streams: seq<seq<Byte>>, s: State, env: TickEnv) returns (d: Drained)
    requires Shaped(s) && Genuine(streams, s.captures)
    ensures d == AnswersDrained(s, env) && Genuine(streams, d.state.captures)
  {
    var control := ClassGenuine(streams, s, Control, Link(LINK_BUDGET, 0, 0), env);
    d := ClassGenuine(streams, control.state, Service, control.link, env);
  }

  lemma RecordsGenuine(streams: seq<seq<Byte>>, p: Drained, env: TickEnv) returns (d: Drained)
    requires Shaped(p.state) && Genuine(streams, p.state.captures)
    ensures d == RecordsDrained(p, env) && Genuine(streams, d.state.captures)
  {
    var events := ClassGenuine(streams, p.state, Events, NextClass(p), env);
    d := ClassGenuine(streams, events.state, Logs, NextClass(events), env);
  }

  lemma RestGenuine(streams: seq<seq<Byte>>, p: Drained, env: TickEnv) returns (d: Drained)
    requires Shaped(p.state) && Genuine(streams, p.state.captures)
    ensures d == RestDrained(p, env) && Genuine(streams, d.state.captures)
  {
    var traces := ClassGenuine(streams, p.state, Traces, NextClass(p), env);
    d := ClassGenuine(streams, Delivered(traces.state), Telemetry, NextClass(traces), env);
  }

  lemma TickGenuine(streams: seq<seq<Byte>>, s: State, env: TickEnv)
    requires Shaped(s) && Genuine(streams, s.captures)
    ensures Genuine(streams, Tick(s, env).captures)
  {
    var answers := AnswersGenuine(streams, s, env);
    var records := RecordsGenuine(streams, answers, env);
    var rest := RestGenuine(streams, records, env);
    FlushKeepsCaptures(rest.state, env);
  }

  lemma FlushKeepsCaptures(s: State, env: TickEnv)
    requires Shaped(s)
    ensures Flushed(s, env).captures == s.captures
  {
    if s.dropPending.Some? {
      PushEffect(Reporting(s, env), Events, env.dropEvent(s.dropPending.value), Control);
    }
  }

  lemma StartGenuine(streams: seq<seq<Byte>>, s: State, head: seq<Byte>, staging: seq<Byte>, notice: Frame)
    requires Shaped(s) && Sized(head, staging) && Genuine(streams, s.captures)
    ensures Genuine(streams + [head + staging], StartCapture(s, head, staging, notice).captures)
  {
    var closed := Closed(s.captures, s.pending);
    var c := Capture(CaptureFrames(head, staging), 0, false);
    forall i | 0 <= i < |closed| ensures IsCaptureOf(closed[i], streams[i]) {
      assert IsCaptureOf(s.captures[i], streams[i]);
    }
    assert IsCaptureOf(c, head + staging);
    assert StartCapture(s, head, staging, notice).captures == closed + [c];
  }

  lemma {:induction false} CapturesGenuine(acts: Actions)
    ensures Genuine(Streams(acts), Run(acts).captures)
    decreases |acts|
  {
    if acts != [] {
      var n := |acts| - 1;
      var s := Run(acts[..n]);
      CapturesGenuine(acts[..n]);
      match acts[n]
      case PushAction(c, f) => PushEffect(s, c, f, Control);
      case CaptureAction(head, staging, notice) => StartGenuine(Streams(acts[..n]), s, head, staging, notice);
      case TickAction(env) => TickGenuine(Streams(acts[..n]), s, env);
    }
  }

  /** Over every run the captures on record are those started, in order, and the i-th, once all its fragments
      went out, reassembles to exactly the header and staging the i-th was started with. */
  lemma CompleteCaptureReassembles(acts: Actions, i: nat)
    requires i < |Run(acts).captures|
    ensures |Run(acts).captures| == |Streams(acts)|
    ensures Run(acts).captures[i].frames == Fragments(TRACE_HEADER, Streams(acts)[i])
    ensures var c := Run(acts).captures[i];
            c.count == |c.frames| ==> Reassembled(c.frames[..c.count]) == Streams(acts)[i]
  {
    CapturesGenuine(acts);
    var c := Run(acts).captures[i];
    assert IsCaptureOf(c, Streams(acts)[i]);
    assert c.frames[..|c.frames|] == c.frames;
    FragmentsReassemble(TRACE_HEADER, Streams(acts)[i]);
  }
}
