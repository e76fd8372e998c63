/** What the sink takes in and what it leaves waiting: every record with room is queued, the policies of full queues,
    the answers to Queries, and what can keep a record from going out. */
module SinkIntake {
  import opened Options
  import opened Checksum
  import opened SinkModel
  import opened SinkRuns
  import opened SinkHistory
  import opened SinkCaptures
  import opened SinkDelivery
  import opened Sequences
  import Codec

  // ---------------------------------------------------------------- one record

  /** Nothing but the queue and the books of class `c` differs. */
  ghost predicate OnlyClass(s: State, t: State, c: Class)
    requires Shaped(s) && Shaped(t)
  {
    && (forall k: Class :: k != c ==> Queue(t, k) == Queue(s, k) && t.accepted[Code(k)] == s.accepted[Code(k)])
    && t.pending == s.pending && t.flag == s.flag && t.answers == s.answers && t.wire == s.wire
    && t.captures == s.captures && t.reports == s.reports
  }

  /** How many records the queue of a class holds. */
  function Places(c: Class): nat {
    match c
    case Control => 16
    case Service => 8
    case Update => 0
    case Telemetry => 8
    case Events => 32
    case Logs => 32
    case Traces => 16
  }

  /** A record finds room: it is queued last and accepted, and no drop is noted. */
  lemma RecordWithRoom(s: State, c: Class, f: Frame)
    requires Shaped(s) && c != Update && |Queue(s, c)| < Places(c)
    ensures var t := SinkRuns.Step(s, PushAction(c, f));
            && Queue(t, c) == Queue(s, c) + [f] && t.accepted[Code(c)] == s.accepted[Code(c)] + [f]
            && t.dropPending == s.dropPending && t.drops == s.drops && OnlyClass(s, t, c)
  {
    forall k: Class ensures k != c ==> Code(k) != Code(c) { CodesDiffer(k, c); }
  }

  /** A full queue refuses the record, or for telemetry and traces gives up its oldest for it; either way one drop
      is noted. */
  lemma RecordWithoutRoom(s: State, c: Class, f: Frame)
    requires Shaped(s) && c != Update && |Queue(s, c)| >= Places(c)
    ensures var t := SinkRuns.Step(s, PushAction(c, f)); var q, a := Queue(s, c), s.accepted[Code(c)];
            && (if c == Telemetry || c == Traces
                then q != [] && Queue(t, c) == q[1..] + [f] && t.accepted[Code(c)] == a + [f]
                else Queue(t, c) == q && t.accepted[Code(c)] == a)
            && t.dropPending == Some(c) && t.drops == s.drops + [c] && OnlyClass(s, t, c)
  {
    forall k: Class ensures k != c ==> Code(k) != Code(c) { CodesDiffer(k, c); }
  }

  /** There is no queue for Update records. */
  lemma NoUpdateQueue(s: State, f: Frame)
    requires Shaped(s)
    ensures SinkRuns.Step(s, PushAction(Update, f)) == s
  {
  }

  // ---------------------------------------------------------------- over runs

  /** Classes fed by their producers alone, or by the sink's own events beside them. */
  predicate Fed(c: Class) {
    c == Service || c == Events || c == Logs || c == Telemetry
  }

  /** What one action brings into class `c`: the record offered if it finds room, any telemetry, the notice of a
      superseded capture, the report of a drop. */
  function TakenBy(s: State, a: Action, c: Class): seq<Frame>
    requires Shaped(s) && Feasible(a)
  {
    match a
    case PushAction(k, f) => if k == c && (c == Telemetry || |Queue(s, c)| < Places(c)) then [f] else []
    case CaptureAction(_, _, notice) =>
      if c == Events && s.pending && |Queue(s, Events)| < Places(Events) then [notice] else []
    case TickAction(env) =>
      var rs := Tick(s, env).reports;
      if c == Events && |rs| > |s.reports| then [rs[|rs| - 1].frame] else []
  }

  function Taken(acts: Actions, c: Class): seq<Frame> {
    if acts == [] then []
    else
      var n := |acts| - 1;
      Taken(acts[..n], c) + TakenBy(Run(acts[..n]), acts[n], c)
  }

  lemma {:induction false} PushAllElsewhere(s: State, c: Class, fs: seq<Frame>, k: Class)
    requires Shaped(s) && c != k
    ensures Queue(PushAll(s, c, fs), k) == Queue(s, k)
    ensures PushAll(s, c, fs).accepted[Code(k)] == s.accepted[Code(k)] && PushAll(s, c, fs).reports == s.reports
    decreases |fs|
  {
    if fs != [] {
      PushAllElsewhere(s, c, fs[..|fs| - 1], k);
      PushElsewhere(PushAll(s, c, fs[..|fs| - 1]), c, fs[|fs| - 1], k);
    }
  }

  lemma AnswerElsewhere(s: State, env: TickEnv, k: Class)
    requires Shaped(s) && Intercepts(s, Control) && k != Control
    ensures var t := AfterAnswer(s, env);
            Queue(t, k) == Queue(s, k) && t.accepted[Code(k)] == s.accepted[Code(k)] && t.reports == s.reports
  {
    var e := Queue(s, Control)[0];
    QueryTakenKept(s, k);
    CodesDiffer(Control, k);
    if |e| == 13 { PushAllElsewhere(QueryTaken(s), Control, AnswerFrames(s.answers, e[10], env), k); }
  }

  /** `t` still has what `s` had accepted for `k`, and its reports. */
  ghost predicate SameIntake(s: State, t: State, k: Class)
    requires Shaped(s)
  {
    Shaped(t) && t.accepted[Code(k)] == s.accepted[Code(k)] && t.reports == s.reports
  }

  lemma ClassTakesNothing(s: State, u: State, c: Class, l: Link, env: TickEnv, k: Class) returns (d: Drained)
    requires Shaped(s) && SameIntake(s, u, k) && k != Control
    ensures d == DrainClass(u, c, l, env) && SameIntake(s, d.state, k)
  {
    forall t: State | Shaped(t) && SameIntake(s, t, k) && Intercepts(t, c)
      ensures SameIntake(s, AfterAnswer(t, env), k)
    {
      AnswerElsewhere(t, env, k);
    }
    DrainKeeps(t => SameIntake(s, t, k), u, c, l, env);
    d := DrainClass(u, c, l, env);
  }

  lemma FlushTakes(s: State, u: State, env: TickEnv, k: Class)
    requires Shaped(s) && SameIntake(s, u, k) && Fed(k)
    ensures var t := Flushed(u, env);
            t.accepted[Code(k)] == s.accepted[Code(k)] + if k == Events && |t.reports| > |s.reports|
                                                         then [t.reports[|t.reports| - 1].frame] else []
  {
    if u.dropPending.Some? && |Queue(u, Events)| < Places(Events) {
      RecordWithRoom(Reporting(u, env), Events, env.dropEvent(u.dropPending.value));
    }
  }

  lemma TickTakes(s: State, env: TickEnv, k: Class)
    requires Shaped(s) && Fed(k)
    ensures var t := Tick(s, env);
            t.accepted[Code(k)] == s.accepted[Code(k)] + if k == Events && |t.reports| > |s.reports|
                                                         then [t.reports[|t.reports| - 1].frame] else []
  {
    var control := ClassTakesNothing(s, s, Control, FRESH, env, k);
    var answers := ClassTakesNothing(s, control.state, Service, control.link, env, k);
    var events := ClassTakesNothing(s, answers.state, Events, NextClass(answers), env, k);
    var records := ClassTakesNothing(s, events.state, Logs, NextClass(events), env, k);
    var traces := ClassTakesNothing(s, records.state, Traces, NextClass(records), env, k);
    var rest := ClassTakesNothing(s, Delivered(traces.state), Telemetry, NextClass(traces), env, k);
    FlushTakes(s, rest.state, env, k);
  }

  lemma CaptureTakes(s: State, head: seq<Byte>, staging: seq<Byte>, notice: Frame, k: Class)
    requires Shaped(s) && Sized(head, staging) && Fed(k)
    ensures StartCapture(s, head, staging, notice).accepted[Code(k)]
            == s.accepted[Code(k)] + if k == Events && s.pending && |Queue(s, Events)| < Places(Events)
                                     then [notice] else []
  {
    var t := Superseded(s, notice).(pending := true);
    if s.pending {
      if |Queue(s, Events)| < Places(Events) { RecordWithRoom(s, Events, notice); }
      else { RecordWithoutRoom(s, Events, notice); }
    }
    PushAllElsewhere(t, Traces, CaptureFrames(head, staging), k);
  }

  lemma PushTakes(s: State, c: Class, f: Frame, k: Class)
    requires Shaped(s) && Fed(k)
    ensures Push(s, c, f).accepted[Code(k)] == s.accepted[Code(k)] + TakenBy(s, PushAction(c, f), k)
  {
    if c == Update {
      NoUpdateQueue(s, f);
    } else if |Queue(s, c)| < Places(c) {
      RecordWithRoom(s, c, f);
    } else {
      RecordWithoutRoom(s, c, f);
    }
  }

  lemma ReportTaken(s: State, env: TickEnv, k: Class)
    requires Shaped(s) && Fed(k)
    ensures Tick(s, env).accepted[Code(k)] == s.accepted[Code(k)] + TakenBy(s, TickAction(env), k)
  {
    TickTakes(s, env, k);
  }

  lemma StepTakes(s: State, a: Action, c: Class)
    requires Shaped(s) && Feasible(a) && Fed(c)
    ensures SinkRuns.Step(s, a).accepted[Code(c)] == s.accepted[Code(c)] + TakenBy(s, a, c)
  {
    match a
    case PushAction(k, f) => PushTakes(s, k, f, c);
    case CaptureAction(head, staging, notice) => CaptureTakes(s, head, staging, notice, c);
    case TickAction(env) => ReportTaken(s, env, c);
  }

  /** Over every run, what a class has accepted is exactly what was offered to it and found room, in order: for
      telemetry everything offered, for events also the notices and reports the sink made itself. */
  lemma {:induction false} AcceptedIsTaken(acts: Actions, c: Class)
    requires Fed(c)
    ensures Run(acts).accepted[Code(c)] == Taken(acts, c)
    decreases |acts|
  {
    if acts != [] {
      AcceptedIsTaken(acts[..|acts| - 1], c);
      StepTakes(Run(acts[..|acts| - 1]), acts[|acts| - 1], c);
    }
  }

  // ---------------------------------------------------------------- queries

  /** Among frames, a Query is told by family and message type alone; nothing without the two sync bytes is one. */
  lemma QueryIff(h: Codec.Header, payload: seq<Byte>, other: Frame)
    requires |payload| <= Codec.MAX_PAYLOAD
    ensures IsQuery(Codec.FrameOf(h, payload)) <==> h.family == 2 && h.msgType == 4
    ensures IsQuery(other) ==> |other| >= 12 && other[..2] == [0xE3, 0x10]
  {
  }

  /** The frame of fragment `i`: its index, how many there are, and its part of the stream, 114 bytes in each but the
      last. Even an empty stream has one. */
  lemma FragmentIs(h: Codec.Header, stream: seq<Byte>, i: nat)
    requires |stream| <= 570 && i < |Fragments(h, stream)|
    ensures var n := |Fragments(h, stream)|;
            && 1 <= n <= 5 && 114 * (n - 1) <= |stream| <= 114 * n && (n > 1 ==> 114 * (n - 1) < |stream|)
            && Fragments(h, stream)[i]
               == Codec.FrameOf(h, [i, n] + stream[114 * i..if i + 1 < n then 114 * (i + 1) else |stream|])
    ensures SNAPSHOT_HEADER == Codec.Header(1, 6, 4, 0, 0, 0) && TRACE_HEADER == Codec.Header(1, 6, 3, 6, 1, 0)
  {
  }

  /** The first records of `fs` that find room behind `q`. */
  function Fitting(q: seq<Frame>, fs: seq<Frame>, cap: nat): (r: seq<Frame>)
    ensures |r| <= |fs|
  {
    if |q| + |fs| <= cap then fs else if |q| >= cap then [] else fs[..cap - |q|]
  }

  lemma FittingNext(q: seq<Frame>, fs: seq<Frame>, cap: nat)
    requires |q| <= cap && fs != []
    ensures var k := Fitting(q, fs[..|fs| - 1], cap);
            Fitting(q, fs, cap) == if |q + k| < cap then k + [fs[|fs| - 1]] else k
    ensures |q + Fitting(q, fs, cap)| <= cap
    ensures |Fitting(q, fs[..|fs| - 1], cap)| < |fs| - 1 ==> |q + Fitting(q, fs[..|fs| - 1], cap)| >= cap
  {
    var n := |fs| - 1;
    if |q| + |fs| <= cap {
      assert fs[..n] + [fs[n]] == fs;
    } else if |q| < cap {
      assert fs[..n][..cap - |q|] == fs[..cap - |q|];
    }
  }

  /** Of several Control records those that fit are queued, in order, and a drop is noted if any did not. */
  lemma {:induction false} PushAllFillsUp(s: State, fs: seq<Frame>)
    requires Shaped(s) && |Queue(s, Control)| <= Places(Control)
    ensures var t := PushAll(s, Control, fs); var k := Fitting(Queue(s, Control), fs, Places(Control));
            && Queue(t, Control) == Queue(s, Control) + k
            && t.accepted[Code(Control)] == s.accepted[Code(Control)] + k
            && t.dropPending == (if |k| < |fs| then Some(Control) else s.dropPending) && t.answers == s.answers
    decreases |fs|
  {
    var q, a := Queue(s, Control), s.accepted[Code(Control)];
    if fs == [] {
      assert q + [] == q && a + [] == a;
    } else {
      var n := |fs| - 1;
      var k := Fitting(q, fs[..n], Places(Control));
      PushAllFillsUp(s, fs[..n]);
      FittingNext(q, fs, Places(Control));
      var t := PushAll(s, Control, fs[..n]);
      Regroup(q, k, [fs[n]]);
      Regroup(a, k, [fs[n]]);
      if |Queue(t, Control)| < Places(Control) { RecordWithRoom(t, Control, fs[n]); }
      else { RecordWithoutRoom(t, Control, fs[n]); }
    }
  }

  /** A Query of one payload byte is answered: in its place the fragments of the next snapshot document for the
      sections it asks for are queued, as many as fit, and joined they are that document. Any other Query is
      dropped without an answer. */
  lemma AnswerIsQueued(s: State, env: TickEnv)
    requires Shaped(s) && Intercepts(s, Control) && |Queue(s, Control)| <= Places(Control)
    ensures var q := Queue(s, Control); var t := AfterAnswer(s, env);
            if |q[0]| != 13 then t == Popped(s, Control)
            else
              var doc := env.snapshot(s.answers, q[0][10]);
              var fs := Fragments(SNAPSHOT_HEADER, doc);
              var k := Fitting(q[1..], fs, Places(Control));
              && Reassembled(fs) == doc && t.answers == s.answers + 1
              && Queue(t, Control) == q[1..] + k
              && t.accepted[Code(Control)] == s.accepted[Code(Control)] + k
              && t.dropPending == if |k| < |fs| then Some(Control) else s.dropPending
  {
    var e := Queue(s, Control)[0];
    if |e| == 13 {
      FragmentsReassemble(SNAPSHOT_HEADER, env.snapshot(s.answers, e[10]));
      PushAllFillsUp(QueryTaken(s), AnswerFrames(s.answers, e[10], env));
    }
  }

  // ---------------------------------------------------------------- what a tick leaves waiting

  lemma ClassLeaves(s: State, c: Class, l: Link, env: TickEnv, k: Class)
    requires Shaped(s) && c != k
    ensures Queue(DrainClass(s, c, l, env).state, k) == Queue(s, k)
  {
    forall t: State, room: nat | Shaped(t) && Queue(t, k) == Queue(s, k) && Queue(t, c) != [] && !Intercepts(t, c)
      ensures Queue(Sent(t, c, room), k) == Queue(s, k)
    {
      SentEffect(t, c, room, k);
    }
    forall t: State | Shaped(t) && Queue(t, k) == Queue(s, k) && Intercepts(t, c)
      ensures Queue(AfterAnswer(t, env), k) == Queue(s, k)
    {
      AnswerElsewhere(t, env, k);
    }
    DrainKeeps((t: State) => Shaped(t) && Queue(t, k) == Queue(s, k), s, c, l, env);
  }

  /** The classes in the order of a tick, 0 to 5. */
  function InOrder(i: nat): (c: Class)
    requires i < 6
  {
    if i == 0 then Control else if i == 1 then Service else if i == 2 then Events
    else if i == 3 then Logs else if i == 4 then Traces else Telemetry
  }

  /** In `s` the classes before the `n`-th have had their turn, ending with the links `m`. */
  ghost predicate Served(s: State, m: seq<Link>, n: nat, env: TickEnv)
    requires n <= 6
  {
    Shaped(s) && |m| == n && forall i :: 0 <= i < n ==> HeadWaits(s, InOrder(i), m[i], env)
  }

  lemma ServeNext(s: State, m: seq<Link>, n: nat, l: Link, env: TickEnv) returns (d: Drained)
    requires n < 6 && Served(s, m, n, env)
    ensures d == DrainClass(s, InOrder(n), l, env) && Served(d.state, m + [d.link], n + 1, env)
  {
    d := DrainClass(s, InOrder(n), l, env);
    DrainStopsOnlyWhenForced(s, InOrder(n), l, env);
    forall i | 0 <= i < n + 1 ensures HeadWaits(d.state, InOrder(i), (m + [d.link])[i], env) {
      if i < n {
        ClassLeaves(s, InOrder(n), l, env, InOrder(i));
        assert HeadWaits(s, InOrder(i), m[i], env);
      }
    }
  }

  lemma DeliveredServed(s: State, m: seq<Link>, env: TickEnv)
    requires Served(s, m, 5, env)
    ensures Served(Delivered(s), m, 5, env)
  {
    forall i | 0 <= i < 5 ensures HeadWaits(Delivered(s), InOrder(i), m[i], env) {
      assert HeadWaits(s, InOrder(i), m[i], env);
    }
  }

  lemma AnswersServed(s: State, env: TickEnv) returns (d: Drained, m: seq<Link>)
    requires Shaped(s)
    ensures d == AnswersDrained(s, env) && Served(d.state, m, 2, env)
  {
    var control := ServeNext(s, [], 0, FRESH, env);
    d := ServeNext(control.state, [control.link], 1, control.link, env);
    m := [control.link] + [d.link];
  }

  lemma RecordsServed(answers: Drained, k: seq<Link>, env: TickEnv) returns (d: Drained, m: seq<Link>)
    requires Served(answers.state, k, 2, env)
    ensures d == RecordsDrained(answers, env) && Served(d.state, m, 4, env)
  {
    var events := ServeNext(answers.state, k, 2, NextClass(answers), env);
    d := ServeNext(events.state, k + [events.link], 3, NextClass(events), env);
    m := k + [events.link] + [d.link];
  }

  lemma RestServed(records: Drained, k: seq<Link>, env: TickEnv) returns (d: Drained, m: seq<Link>)
    requires Served(records.state, k, 4, env)
    ensures d == RestDrained(records, env) && Served(d.state, m, 6, env)
  {
    var traces := ServeNext(records.state, k, 4, NextClass(records), env);
    DeliveredServed(traces.state, k + [traces.link], env);
    d := ServeNext(Delivered(traces.state), k + [traces.link], 5, NextClass(traces), env);
    m := k + [traces.link] + [d.link];
  }

  /** No class is left out of a tick: each of the six queues, telemetry too, is drained until it is empty or its
      head does not fit the budget, the class cap or the room the link reported last. Only then is a noted drop
      reported. */
  lemma TickServesAll(s: State, env: TickEnv) returns (t: State, m: seq<Link>)
    requires Shaped(s)
    ensures Served(t, m, 6, env) && Tick(s, env) == Flushed(t, env)
  {
    var answers, k := AnswersServed(s, env);
    var records, l := RecordsServed(answers, k, env);
    var rest, n := RestServed(records, l, env);
    t, m := rest.state, n;
  }

  /** With nothing else queued and room for it, the oldest telemetry record goes out in the next tick. */
  lemma TelemetryGoesOut(s: State, env: TickEnv)
    requires Shaped(s) && Queue(s, Telemetry) != [] && s.dropPending == None && env.rooms(0) >= MTU
    requires forall c: Class :: c != Telemetry && c != Update ==> Queue(s, c) == []
    ensures var t := Tick(s, env);
            && |t.wire| > |s.wire| && t.wire[|s.wire|] == Packet(Telemetry, Queue(s, Telemetry)[0], env.rooms(0))
            && |Queue(t, Telemetry)| < |Queue(s, Telemetry)|
  {
    var u := Delivered(s);
    EmptyClass(s, Control, FRESH, env);
    EmptyClass(s, Service, FRESH, env);
    EmptyClass(s, Events, FRESH, env);
    EmptyClass(s, Logs, FRESH, env);
    EmptyClass(s, Traces, FRESH, env);
    HeadTurn(u, Telemetry, env);
  }

  lemma HeadTurn(s: State, c: Class, env: TickEnv)
    requires Shaped(s) && Queue(s, c) != [] && c != Control && env.rooms(0) >= MTU
    ensures var t := DrainClass(s, c, FRESH, env).state;
            && |t.wire| > |s.wire| && t.wire[|s.wire|] == Packet(c, Queue(s, c)[0], env.rooms(0))
            && |Queue(t, c)| < |Queue(s, c)| && t.dropPending == s.dropPending
  {
    var u := Sent(s, c, env.rooms(0));
    var l := Charged(FRESH, Queue(s, c)[0]);
    assert NextMove(s, c, FRESH, env) == Send(env.rooms(0));
    SentEffect(s, c, env.rooms(0), c);
    var d := DrainSpends(u, c, l, env);
    ShrinksOnly(u, c, l, env);
    assert (u.wire + d)[|s.wire|] == u.wire[|s.wire|];
  }

  lemma ShrinksOnly(s: State, c: Class, l: Link, env: TickEnv)
    requires Shaped(s) && c != Control
    ensures Smaller(s, Drain(s, c, l, env).state, c)
  {
    forall t: State, room: nat | Shaped(t) && Smaller(s, t, c) && Queue(t, c) != [] && !Intercepts(t, c)
      ensures Smaller(s, Sent(t, c, room), c)
    {
      SentEffect(t, c, room, c);
    }
    DrainKeeps(t => Smaller(s, t, c), s, c, l, env);
  }

  ghost predicate Smaller(s: State, t: State, c: Class)
    requires Shaped(s)
  {
    Shaped(t) && |Queue(t, c)| <= |Queue(s, c)| && t.dropPending == s.dropPending
  }
}
