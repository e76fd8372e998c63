/** A fault capture arrives: once nothing further is enqueued, every tick on a link with room for one frame brings
    it nearer, whatever was queued ahead of it. */
module SinkDelivery {
  import opened Options
  import opened Checksum
  import opened SinkModel
  import opened SinkHistory
  import opened SinkCaptures

  // ---------------------------------------------------------------- what is ahead of a capture

  /** Frames of the Control queue, a Query counting for the four fragments its answer can have. */
  function Weight(q: seq<Frame>): nat {
    |q| + 3 * Queries(q)
  }

  /** What can go out before the traces: the frames of the classes drained first, and the event record a noted
      drop will become. */
  function Ahead(s: State): nat
    requires Shaped(s)
  {
    Weight(Queue(s, Control)) + |Queue(s, Service)| + |Queue(s, Events)| + |Queue(s, Logs)|
    + if s.dropPending.Some? then 1 else 0
  }

  function Load(s: State): nat
    requires Shaped(s)
  {
    Ahead(s) + |Queue(s, Traces)|
  }

  lemma QueriesSnoc(q: seq<Frame>, f: Frame)
    ensures Queries(q + [f]) == Queries(q) + if IsQuery(f) then 1 else 0
  {
    assert (q + [f])[..|q|] == q;
  }

  /** A push adds at most one: the record itself or the drop it causes. */
  lemma PushAhead(s: State, c: Class, f: Frame)
    requires Shaped(s) && (c == Control ==> !IsQuery(f))
    ensures Ahead(Push(s, c, f)) <= Ahead(s) + 1
  {
    PushEffect(s, c, f, Control);
    PushEffect(s, c, f, Service);
    PushEffect(s, c, f, Events);
    PushEffect(s, c, f, Logs);
    QueriesSnoc(Queue(s, Control), f);
    PushAddsOne(s, c, f);
  }

  lemma PushAddsOne(s: State, c: Class, f: Frame)
    requires Shaped(s)
    ensures var t := Push(s, c, f);
            t.dropPending == s.dropPending || (t.dropPending == Some(c) && |Queue(t, c)| == |Queue(s, c)|)
    ensures Queue(Push(s, c, f), c) == Queue(s, c) || Push(s, c, f).dropPending == s.dropPending
            || c == Telemetry || c == Traces
  {
  }

  lemma {:induction false} PushAllAhead(s: State, fs: seq<Frame>)
    requires Shaped(s) && forall i :: 0 <= i < |fs| ==> !IsQuery(fs[i])
    ensures Ahead(PushAll(s, Control, fs)) <= Ahead(s) + |fs|
    decreases |fs|
  {
    if fs != [] {
      PushAllAhead(s, fs[..|fs| - 1]);
      PushAhead(PushAll(s, Control, fs[..|fs| - 1]), Control, fs[|fs| - 1]);
    }
  }

  // ---------------------------------------------------------------- the moves of a drain

  lemma AnswerIsShort(n: nat, mask: Byte, env: TickEnv)
    ensures |AnswerFrames(n, mask, env)| <= 4
  {
  }

  lemma TakenAhead(s: State, t: State)
    requires Shaped(s) && Shaped(t) && Intercepts(s, Control) && t.dropPending == s.dropPending
    requires t.queues == s.queues[Code(Control) := Queue(s, Control)[1..]]
    ensures Ahead(t) == Ahead(s) - 4
  {
    QueriesHead(Queue(s, Control));
  }

  /** Answering a Query queues no more than the Query counted for. */
  lemma AnswerLoad(s: State, env: TickEnv)
    requires Shaped(s) && Intercepts(s, Control)
    ensures Load(AfterAnswer(s, env)) <= Load(s) && SameTraces(s, AfterAnswer(s, env))
  {
    var e := Queue(s, Control)[0];
    AnswerLeavesTraces(s, env);
    TakenAhead(s, Popped(s, Control));
    if |e| == 13 {
      TakenAhead(s, QueryTaken(s));
      AnswersAreNoQueries(s.answers, e[10], env);
      AnswerIsShort(s.answers, e[10], env);
      PushAllAhead(QueryTaken(s), AnswerFrames(s.answers, e[10], env));
    }
  }

  /** A frame sent is one less, unless it is telemetry. */
  lemma SentLoad(s: State, c: Class, room: nat)
    requires Shaped(s) && Queue(s, c) != [] && !Intercepts(s, c)
    ensures Load(Sent(s, c, room)) == if c == Telemetry || c == Update then Load(s) else Load(s) - 1
  {
    SentEffect(s, c, room, Control);
    SentEffect(s, c, room, Service);
    SentEffect(s, c, room, Events);
    SentEffect(s, c, room, Logs);
    SentEffect(s, c, room, Traces);
    QueriesHead(Queue(s, c));
  }

  ghost predicate Within(s: State, n: nat) {
    Shaped(s) && Load(s) <= n
  }

  lemma DrainWithin(s: State, c: Class, l: Link, env: TickEnv, n: nat)
    requires Within(s, n)
    ensures Within(Drain(s, c, l, env).state, n)
  {
    forall t: State, room: nat | Shaped(t) && Within(t, n) && Queue(t, c) != [] && !Intercepts(t, c)
      ensures Within(Sent(t, c, room), n)
    {
      SentLoad(t, c, room);
    }
    forall t: State | Shaped(t) && Within(t, n) && Intercepts(t, c) ensures Within(AfterAnswer(t, env), n) {
      AnswerLoad(t, env);
    }
    DrainKeeps(t => Within(t, n), s, c, l, env);
  }

  // ---------------------------------------------------------------- progress

  /** The link at the start of a tick. */
  const FRESH := Link(230, 0, 0)

  /** The link has room for a whole frame when it is first asked. */
  predicate Roomy(env: TickEnv) {
    env.rooms(0) >= MTU
  }

  /** Something counted has gone out, or nothing has and the link is as fresh as the traces are waiting. */
  ghost predicate Progress(d: Drained, n: nat) {
    && Within(d.state, n)
    && (Load(d.state) < n || (d.link == FRESH && Queue(d.state, Traces) != []))
  }

  /** On a fresh link the head of a queue always fits. */
  lemma HeadGoes(s: State, c: Class, env: TickEnv)
    requires Shaped(s) && Queue(s, c) != [] && c != Control && c != Telemetry && c != Update && Roomy(env)
    ensures Load(DrainClass(s, c, FRESH, env).state) < Load(s)
  {
    var room := env.rooms(0);
    assert NextMove(s, c, FRESH, env) == Send(room);
    SentLoad(s, c, room);
    DrainWithin(Sent(s, c, room), c, Charged(FRESH, Queue(s, c)[0]), env, Load(s) - 1);
  }

  lemma EmptyClass(s: State, c: Class, l: Link, env: TickEnv)
    requires Shaped(s) && Queue(s, c) == []
    ensures DrainClass(s, c, l, env) == Drained(s, l)
  {
    assert NextMove(s, c, l, env) == Stop(l.asked);
  }

  /** Control either sends something or runs empty, all its Queries malformed, without using the link. */
  lemma {:induction false} ControlProgress(s: State, env: TickEnv, n: nat)
    requires Within(s, n) && Queue(s, Traces) != [] && Roomy(env)
    ensures Progress(Drain(s, Control, FRESH, env), n)
    decreases Queries(Queue(s, Control))
  {
    match NextMove(s, Control, FRESH, env)
    case Stop(_) =>
    case Answer =>
      AnsweringRemovesQuery(s, env);
      AnswerLoad(s, env);
      ControlProgress(AfterAnswer(s, env), env, n);
    case Send(room) =>
      SentLoad(s, Control, room);
      DrainWithin(Sent(s, Control, room), Control, Charged(FRESH, Queue(s, Control)[0]), env, n - 1);
  }

  lemma ClassProgress(d: Drained, c: Class, l: Link, env: TickEnv, n: nat) returns (e: Drained)
    requires Progress(d, n) && Roomy(env) && c != Control && c != Telemetry && c != Update && c != Traces
    requires d.link == FRESH ==> l == FRESH
    ensures e == DrainClass(d.state, c, l, env) && Progress(e, n)
  {
    e := DrainClass(d.state, c, l, env);
    DrainWithin(d.state, c, l, env, Load(d.state));
    if Load(d.state) == n {
      if Queue(d.state, c) == [] { EmptyClass(d.state, c, l, env); } else { HeadGoes(d.state, c, env); }
    }
  }

  lemma TracesProgress(d: Drained, env: TickEnv, n: nat) returns (e: Drained)
    requires Progress(d, n) && Roomy(env)
    ensures e == DrainClass(d.state, Traces, NextClass(d), env) && Shaped(e.state) && Load(e.state) < n
  {
    e := DrainClass(d.state, Traces, NextClass(d), env);
    DrainWithin(d.state, Traces, NextClass(d), env, Load(d.state));
    if Load(d.state) == n { HeadGoes(d.state, Traces, env); }
  }

  /** A noted drop becomes an event record: the load stays. */
  lemma FlushLoad(s: State, env: TickEnv)
    requires Shaped(s)
    ensures Load(Flushed(s, env)) == Load(s)
  {
    if s.dropPending.Some? && |Queue(s, Events)| < Capacity(Events) {
      var t := Reporting(s, env);
      var f := env.dropEvent(s.dropPending.value);
      PushEffect(t, Events, f, Control);
      PushEffect(t, Events, f, Service);
      PushEffect(t, Events, f, Logs);
      PushEffect(t, Events, f, Traces);
      assert Queue(Push(t, Events, f), Events) == Queue(t, Events) + [f];
    }
  }

  /** While a fragment is queued, every tick lowers the load. */
  lemma TickProgress(s: State, env: TickEnv)
    requires Shaped(s) && Queue(s, Traces) != [] && Roomy(env)
    ensures Load(Tick(s, env)) < Load(s)
  {
    var n := Load(s);
    ControlProgress(s, env, n);
    var control := DrainClass(s, Control, FRESH, env);
    var answers := ClassProgress(control, Service, control.link, env, n);
    var events := ClassProgress(answers, Events, NextClass(answers), env, n);
    var records := ClassProgress(events, Logs, NextClass(events), env, n);
    var traces := TracesProgress(records, env, n);
    var t := Delivered(traces.state);
    assert Within(t, n - 1);
    DrainWithin(t, Telemetry, NextClass(traces), env, n - 1);
    FlushLoad(DrainClass(t, Telemetry, NextClass(traces), env).state, env);
  }

  // ---------------------------------------------------------------- many ticks

  function Ticks(s: State, envs: seq<TickEnv>): (t: State)
    requires Shaped(s)
    ensures Shaped(t)
  {
    if envs == [] then s else Tick(Ticks(s, envs[..|envs| - 1]), envs[|envs| - 1])
  }

  lemma OtherStaysEmpty(s: State, c: Class, l: Link, env: TickEnv)
    requires Shaped(s) && Queue(s, Traces) == []
    ensures Queue(DrainClass(s, c, l, env).state, Traces) == []
  {
    if c == Traces { EmptyClass(s, c, l, env); } else { ClassLeavesTraces(s, c, l, env); }
  }

  lemma StaysEmpty(s: State, env: TickEnv)
    requires Shaped(s) && Queue(s, Traces) == []
    ensures Queue(Tick(s, env), Traces) == []
  {
    var control := DrainClass(s, Control, FRESH, env);
    OtherStaysEmpty(s, Control, FRESH, env);
    var answers := DrainClass(control.state, Service, control.link, env);
    OtherStaysEmpty(control.state, Service, control.link, env);
    var events := DrainClass(answers.state, Events, NextClass(answers), env);
    OtherStaysEmpty(answers.state, Events, NextClass(answers), env);
    var records := DrainClass(events.state, Logs, NextClass(events), env);
    OtherStaysEmpty(events.state, Logs, NextClass(events), env);
    var traces := DrainClass(records.state, Traces, NextClass(records), env);
    OtherStaysEmpty(records.state, Traces, NextClass(records), env);
    OtherStaysEmpty(Delivered(traces.state), Telemetry, NextClass(traces), env);
    FlushLeavesTraces(DrainClass(Delivered(traces.state), Telemetry, NextClass(traces), env).state, env);
  }

  lemma FlushLeavesTraces(s: State, env: TickEnv)
    requires Shaped(s)
    ensures Queue(Flushed(s, env), Traces) == Queue(s, Traces)
  {
    if s.dropPending.Some? {
      PushEffect(Reporting(s, env), Events, env.dropEvent(s.dropPending.value), Traces);
    }
  }

  lemma {:induction false} TicksLoad(s: State, envs: seq<TickEnv>)
    requires Shaped(s) && forall i :: 0 <= i < |envs| ==> Roomy(envs[i])
    ensures var t := Ticks(s, envs); Queue(t, Traces) == [] || Load(t) + |envs| <= Load(s)
    decreases |envs|
  {
    if envs != [] {
      var k := |envs| - 1;
      TicksLoad(s, envs[..k]);
      var t := Ticks(s, envs[..k]);
      if Queue(t, Traces) == [] { StaysEmpty(t, envs[k]); } else { TickProgress(t, envs[k]); }
    }
  }

  lemma {:induction false} TicksSettled(s: State, envs: seq<TickEnv>)
    requires Settled(s)
    ensures Settled(Ticks(s, envs))
    decreases |envs|
  {
    if envs != [] {
      TicksSettled(s, envs[..|envs| - 1]);
      TickTraced(Ticks(s, envs[..|envs| - 1]), envs[|envs| - 1]);
    }
  }

  // ---------------------------------------------------------------- which capture goes out

  /** The newest capture has the fragments `fs`, those before it are `before`. */
  ghost predicate NewestHas(cs: seq<Capture>, before: seq<Capture>, fs: seq<Frame>) {
    |cs| == |before| + 1 && cs[..|before|] == before && cs[|before|].frames == fs
  }

  lemma CountedNewest(cs: seq<Capture>, before: seq<Capture>, fs: seq<Frame>)
    requires NewestHas(cs, before, fs)
    ensures NewestHas(Counted(cs), before, fs)
  {
    assert Counted(cs)[..|before|] == cs[..|before|];
  }

  lemma ClassNewest(s: State, c: Class, l: Link, env: TickEnv, before: seq<Capture>, fs: seq<Frame>)
    returns (d: Drained)
    requires Shaped(s) && NewestHas(s.captures, before, fs)
    ensures d == DrainClass(s, c, l, env) && NewestHas(d.state.captures, before, fs)
  {
    forall t: State, room: nat
      | Shaped(t) && NewestHas(t.captures, before, fs) && Queue(t, c) != [] && !Intercepts(t, c)
      ensures NewestHas(Sent(t, c, room).captures, before, fs)
    {
      CountedNewest(t.captures, before, fs);
    }
    forall t: State | Shaped(t) && NewestHas(t.captures, before, fs) && Intercepts(t, c)
      ensures NewestHas(AfterAnswer(t, env).captures, before, fs)
    {
      AnswerKeepsCaptures(t, env);
    }
    DrainKeeps((t: State) => NewestHas(t.captures, before, fs), s, c, l, env);
    d := DrainClass(s, c, l, env);
  }

  lemma TickNewest(s: State, env: TickEnv, before: seq<Capture>, fs: seq<Frame>)
    requires Shaped(s) && NewestHas(s.captures, before, fs)
    ensures NewestHas(Tick(s, env).captures, before, fs)
  {
    var control := ClassNewest(s, Control, FRESH, env, before, fs);
    var answers := ClassNewest(control.state, Service, control.link, env, before, fs);
    var events := ClassNewest(answers.state, Events, NextClass(answers), env, before, fs);
    var records := ClassNewest(events.state, Logs, NextClass(events), env, before, fs);
    var traces := ClassNewest(records.state, Traces, NextClass(records), env, before, fs);
    var rest := ClassNewest(Delivered(traces.state), Telemetry, NextClass(traces), env, before, fs);
    FlushKeepsCaptures(rest.state, env);
  }

  lemma {:induction false} TicksNewest(s: State, envs: seq<TickEnv>, before: seq<Capture>, fs: seq<Frame>)
    requires Shaped(s) && NewestHas(s.captures, before, fs)
    ensures NewestHas(Ticks(s, envs).captures, before, fs)
    decreases |envs|
  {
    if envs != [] {
      TicksNewest(s, envs[..|envs| - 1], before, fs);
      TickNewest(Ticks(s, envs[..|envs| - 1]), envs[|envs| - 1], before, fs);
    }
  }

  // ---------------------------------------------------------------- delivery

  lemma SameAhead(s: State, t: State, fs: seq<Frame>)
    requires Shaped(s) && Shaped(t) && t.queues == s.queues[Code(Traces) := fs] && t.dropPending == s.dropPending
    ensures Ahead(t) == Ahead(s)
  {
    CodesDiffer(Control, Traces);
  }

  lemma SupersededAhead(s: State, notice: Frame)
    requires Shaped(s)
    ensures Ahead(Superseded(s, notice)) <= Ahead(s) + if s.pending then 1 else 0
  {
    if s.pending {
      PushAhead(s, Events, notice);
      SameAhead(Push(s, Events, notice), Superseded(s, notice), []);
    }
  }

  lemma StartLoad(s: State, head: seq<Byte>, staging: seq<Byte>, notice: Frame)
    requires Settled(s) && Sized(head, staging)
    ensures Load(StartCapture(s, head, staging, notice))
              <= |CaptureFrames(head, staging)| + Ahead(s) + if s.pending then 1 else 0
  {
    var fs := CaptureFrames(head, staging);
    var t := Superseded(s, notice);
    SupersededAhead(s, notice);
    SupersededState(s, notice);
    PushAllFits(t.(pending := true), fs);
    SameAhead(t, StartCapture(s, head, staging, notice), fs);
  }

  lemma ClosedConcatenated(cs: seq<Capture>, superseded: bool)
    ensures Concatenated(Closed(cs, superseded)) == Concatenated(cs)
  {
    if cs != [] {
      assert Closed(cs, superseded)[..|cs| - 1] == cs[..|cs| - 1];
    }
  }

  /** The newest capture has sent all its fragments. */
  lemma LastConcatenated(cs: seq<Capture>, before: seq<Capture>, fs: seq<Frame>)
    requires NewestHas(cs, before, fs) && cs[|before|].count == |fs|
    ensures Concatenated(cs) == Concatenated(before) + fs
  {
    assert cs[..|cs| - 1] == before && fs[..|fs|] == fs;
  }

  /** An empty trace queue between ticks: all fragments of the newest capture are on the wire, behind what was
      there before it. */
  lemma AllOut(s: State, t: State, fs: seq<Frame>)
    requires Traced(s) && Settled(t) && NewestHas(t.captures, Closed(s.captures, s.pending), fs)
    requires Queue(t, Traces) == []
    ensures FramesOf(t.wire, Traces) == FramesOf(s.wire, Traces) + fs && !t.pending
  {
    var before := Closed(s.captures, s.pending);
    var c := t.captures[|before|];
    assert |c.frames[c.count..]| == 0;
    ClosedConcatenated(s.captures, s.pending);
    LastConcatenated(t.captures, before, fs);
  }

  /** Every capture is delivered: started in any settled state, whatever is queued and superseded, it has gone
      out whole, next after the traces sent before it, and is no longer pending, once the ticks are as many as
      its fragments, the frames ahead of it and, if it superseded one, the notice of that, with nothing
      further enqueued and room for a frame at the start of each tick. */
  lemma CaptureDelivered(s: State, head: seq<Byte>, staging: seq<Byte>, notice: Frame, envs: seq<TickEnv>)
    requires Settled(s) && Sized(head, staging) && forall i :: 0 <= i < |envs| ==> Roomy(envs[i])
    requires |envs| >= |CaptureFrames(head, staging)| + Ahead(s) + if s.pending then 1 else 0
    ensures var t := Ticks(StartCapture(s, head, staging, notice), envs);
            && FramesOf(t.wire, Traces) == FramesOf(s.wire, Traces) + CaptureFrames(head, staging)
            && Queue(t, Traces) == [] && !t.pending
  {
    var u := StartCapture(s, head, staging, notice);
    CaptureTraced(s, head, staging, notice);
    StartLoad(s, head, staging, notice);
    TicksLoad(u, envs);
    TicksSettled(u, envs);
    StartNewest(s, head, staging, notice);
    TicksNewest(u, envs, Closed(s.captures, s.pending), CaptureFrames(head, staging));
    AllOut(s, Ticks(u, envs), CaptureFrames(head, staging));
  }

  lemma StartNewest(s: State, head: seq<Byte>, staging: seq<Byte>, notice: Frame)
    requires Shaped(s) && Sized(head, staging)
    ensures NewestHas(StartCapture(s, head, staging, notice).captures, Closed(s.captures, s.pending),
                   CaptureFrames(head, staging))
  {
    var before := Closed(s.captures, s.pending);
    assert (before + [Capture(CaptureFrames(head, staging), 0, false)])[..|before|] == before;
  }

  /** As captures are started: right after the event record `e` that triggers them. That record costs one tick
      more, whether it was queued or, the event queue being full, dropped and its drop reported. */
  lemma TriggeredCaptureDelivered(s: State, e: Frame, head: seq<Byte>, staging: seq<Byte>, notice: Frame,
                                  envs: seq<TickEnv>)
    requires Settled(s) && Sized(head, staging) && forall i :: 0 <= i < |envs| ==> Roomy(envs[i])
    requires |envs| >= |CaptureFrames(head, staging)| + Ahead(s) + if s.pending then 2 else 1
    ensures var t := Ticks(StartCapture(Push(s, Events, e), head, staging, notice), envs);
            && FramesOf(t.wire, Traces) == FramesOf(s.wire, Traces) + CaptureFrames(head, staging)
            && Queue(t, Traces) == [] && !t.pending
  {
    PushTraced(s, Events, e);
    PushAhead(s, Events, e);
    PushEffect(s, Events, e, Traces);
    CaptureDelivered(Push(s, Events, e), head, staging, notice, envs);
  }

  // ---------------------------------------------------------------- when more keeps coming

  lemma OneFrameGoes(s: State, c: Class, l: Link, env: TickEnv, f: Frame)
    requires Shaped(s) && Queue(s, c) == [f] && !Intercepts(s, c) && l.budget > 0 && Affordable(f, l)
    requires |f| <= env.rooms(l.asked)
    ensures DrainClass(s, c, l, env) == Drained(Sent(s, c, env.rooms(l.asked)), Charged(l, f))
  {
    var t := Sent(s, c, env.rooms(l.asked));
    assert NextMove(s, c, l, env) == Send(env.rooms(l.asked));
    EmptyClass(t, c, Charged(l, f), env);
  }

  lemma NoBudget(s: State, c: Class, l: Link, env: TickEnv)
    requires Shaped(s) && l.budget == 0
    ensures DrainClass(s, c, l, env) == Drained(s, l)
  {
  }

  /** A capture is waiting, and nothing but logs and telemetry beside it. */
  predicate Quiet(s: State) {
    && Shaped(s) && Queue(s, Control) == [] && Queue(s, Service) == [] && Queue(s, Events) == []
    && Queue(s, Traces) != [] && s.dropPending == None
  }

  /** A Control frame of 128 bytes and an event of 102 come in before every tick. */
  function BusyRound(s: State, a: Frame, e: Frame, env: TickEnv): (t: State)
    requires Shaped(s)
    ensures Shaped(t)
  {
    Tick(Push(Push(s, Control, a), Events, e), env)
  }

  function BusyRounds(s: State, a: Frame, e: Frame, envs: seq<TickEnv>): (t: State)
    requires Shaped(s)
    ensures Shaped(t)
  {
    if envs == [] then s else BusyRound(BusyRounds(s, a, e, envs[..|envs| - 1]), a, e, envs[|envs| - 1])
  }

  lemma BusyPushed(s: State, a: Frame, e: Frame) returns (t: State)
    requires Quiet(s)
    ensures t == Push(Push(s, Control, a), Events, e) && Shaped(t)
    ensures Queue(t, Control) == [a] && Queue(t, Service) == [] && Queue(t, Events) == [e]
    ensures Queue(t, Traces) == Queue(s, Traces) && t.dropPending == None
  {
    t := Push(Push(s, Control, a), Events, e);
  }

  lemma BusyAnswers(s: State, a: Frame, env: TickEnv) returns (d: Drained)
    requires Shaped(s) && Queue(s, Control) == [a] && |a| == MTU && !IsQuery(a) && Queue(s, Service) == []
    requires forall n: nat :: env.rooms(n) >= MTU
    ensures d == AnswersDrained(s, env) == Drained(Sent(s, Control, env.rooms(0)), Link(102, 128, 1))
  {
    OneFrameGoes(s, Control, FRESH, env, a);
    var control := DrainClass(s, Control, FRESH, env);
    EmptyClass(control.state, Service, control.link, env);
    d := AnswersDrained(s, env);
  }

  lemma BusyRecords(p: Drained, e: Frame, env: TickEnv) returns (d: Drained)
    requires Shaped(p.state) && p.link.budget == 102 && Queue(p.state, Events) == [e] && |e| == 102
    requires forall n: nat :: env.rooms(n) >= MTU
    ensures d == RecordsDrained(p, env) && d.state == Sent(p.state, Events, env.rooms(p.link.asked))
    ensures d.link.budget == 0
  {
    OneFrameGoes(p.state, Events, NextClass(p), env, e);
    var events := DrainClass(p.state, Events, NextClass(p), env);
    NoBudget(events.state, Logs, NextClass(events), env);
    d := RecordsDrained(p, env);
  }

  lemma BusyRest(p: Drained, env: TickEnv)
    requires Shaped(p.state) && p.link.budget == 0 && Queue(p.state, Traces) != []
    ensures RestDrained(p, env).state == p.state
  {
    NoBudget(p.state, Traces, NextClass(p), env);
    NoBudget(p.state, Telemetry, NextClass(Drained(p.state, NextClass(p))), env);
  }

  lemma BusyTick(s: State, a: Frame, e: Frame, env: TickEnv)
    requires Quiet(s) && |a| == MTU && !IsQuery(a) && |e| == 102 && forall n: nat :: env.rooms(n) >= MTU
    ensures Quiet(BusyRound(s, a, e, env)) && Queue(BusyRound(s, a, e, env), Traces) == Queue(s, Traces)
  {
    var t := BusyPushed(s, a, e);
    var answers := BusyAnswers(t, a, env);
    SentLeaves(t, Control, env.rooms(0));
    var records := BusyRecords(answers, e, env);
    SentLeaves(answers.state, Events, env.rooms(1));
    BusyRest(records, env);
  }

  lemma SentLeaves(s: State, c: Class, room: nat)
    requires Shaped(s) && Queue(s, c) != []
    ensures Sent(s, c, room).dropPending == s.dropPending
    ensures forall k: Class :: Queue(Sent(s, c, room), k) == if k == c then Queue(s, c)[1..] else Queue(s, k)
  {
    forall k: Class ensures Queue(Sent(s, c, room), k) == if k == c then Queue(s, c)[1..] else Queue(s, k) {
      SentEffect(s, c, room, k);
    }
  }

  /** That nothing further comes in is needed: with one such Control frame and one such event before every tick,
      on a link that always has room, no fragment of a waiting capture is ever sent. */
  lemma {:induction false} CaptureStarves(s: State, a: Frame, e: Frame, envs: seq<TickEnv>)
    requires Quiet(s) && |a| == MTU && !IsQuery(a) && |e| == 102
    requires forall i, n: nat :: 0 <= i < |envs| ==> envs[i].rooms(n) >= MTU
    ensures Quiet(BusyRounds(s, a, e, envs)) && Queue(BusyRounds(s, a, e, envs), Traces) == Queue(s, Traces)
    decreases |envs|
  {
    if envs != [] {
      var k := |envs| - 1;
      CaptureStarves(s, a, e, envs[..k]);
      BusyTick(BusyRounds(s, a, e, envs[..k]), a, e, envs[k]);
    }
  }
}
