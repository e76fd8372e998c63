/** Nothing accepted is lost or reordered on its way out, and every dropped record is reported. */
module SinkHistory {
  import opened Options
  import opened Checksum
  import opened SinkModel
  import opened SinkRuns
  import opened Sequences

  /** The frames of one class among the packets handed to the link, in order. */
  function FramesOf(ps: seq<Packet>, c: Class): seq<Frame> {
    if ps == [] then []
    else FramesOf(ps[..|ps| - 1], c) + if ps[|ps| - 1].cls == c then [ps[|ps| - 1].frame] else []
  }

  lemma FramesOfSnoc(ps: seq<Packet>, p: Packet, c: Class)
    ensures FramesOf(ps + [p], c) == FramesOf(ps, c) + if p.cls == c then [p.frame] else []
  {
    assert (ps + [p])[..|ps|] == ps;
  }

  function NonQueries(fs: seq<Frame>): seq<Frame> {
    if fs == [] then []
    else NonQueries(fs[..|fs| - 1]) + if IsQuery(fs[|fs| - 1]) then [] else [fs[|fs| - 1]]
  }

  lemma NonQueriesSnoc(fs: seq<Frame>, f: Frame)
    ensures NonQueries(fs + [f]) == NonQueries(fs) + if IsQuery(f) then [] else [f]
  {
    assert (fs + [f])[..|fs|] == fs;
  }

  lemma {:induction false} NonQueriesHead(fs: seq<Frame>)
    requires fs != []
    ensures NonQueries(fs) == (if IsQuery(fs[0]) then [] else [fs[0]]) + NonQueries(fs[1..])
    decreases |fs|
  {
    var n := |fs| - 1;
    if n == 0 {
      assert fs[..0] == [] && fs[1..] == [];
    } else {
      NonQueriesHead(fs[..n]);
      assert fs[..n][1..] == fs[1..][..n - 1];
      Regroup(if IsQuery(fs[0]) then [] else [fs[0]], NonQueries(fs[1..][..n - 1]),
              if IsQuery(fs[n]) then [] else [fs[n]]);
    }
  }

  // ---------------------------------------------------------------- what the drain loop keeps

  /** Both things the drain loop does keep `p`. */
  ghost predicate KeptByMoves(p: State -> bool, c: Class, env: TickEnv) {
    && (forall t: State, room: nat :: Shaped(t) && p(t) && Queue(t, c) != [] && !Intercepts(t, c) ==>
          p(Sent(t, c, room)))
    && (forall t: State :: Shaped(t) && p(t) && Intercepts(t, c) ==> p(AfterAnswer(t, env)))
  }

  lemma {:induction false} DrainKeeps(p: State -> bool, s: State, c: Class, l: Link, env: TickEnv)
    requires Shaped(s) && p(s) && KeptByMoves(p, c, env)
    ensures p(Drain(s, c, l, env).state)
    decreases Queries(Queue(s, c)), |Queue(s, c)|
  {
    match NextMove(s, c, l, env)
    case Stop(_) =>
    case Answer =>
      AnsweringRemovesQuery(s, env);
      DrainKeeps(p, AfterAnswer(s, env), c, l, env);
    case Send(room) =>
      QueriesHead(Queue(s, c));
      DrainKeeps(p, Sent(s, c, room), c, Charged(l, Queue(s, c)[0]), env);
  }

  // ---------------------------------------------------------------- what was accepted is sent or queued

  /** Sent, then still queued: exactly what was accepted, in order. */
  ghost predicate Kept(s: State, c: Class)
    requires Shaped(s)
  {
    FramesOf(s.wire, c) + Queue(s, c) == s.accepted[Code(c)]
  }

  /** For Control the Queries are left out: they are answered, not sent. */
  ghost predicate ControlKept(s: State)
    requires Shaped(s)
  {
    FramesOf(s.wire, Control) + NonQueries(Queue(s, Control)) == NonQueries(s.accepted[Code(Control)])
  }

  /** The queue holds the newest records accepted. */
  ghost predicate HoldsNewest(s: State, c: Class)
    requires Shaped(s)
  {
    |Queue(s, c)| <= |s.accepted[Code(c)]| &&
    s.accepted[Code(c)][|s.accepted[Code(c)]| - |Queue(s, c)|..] == Queue(s, c)
  }

  ghost predicate Booked(s: State) {
    && Shaped(s)
    && Kept(s, Service) && Kept(s, Events) && Kept(s, Logs)
    && ControlKept(s)
    && HoldsNewest(s, Telemetry)
  }

  lemma PushHere(s: State, c: Class, f: Frame)
    requires Shaped(s)
    ensures var t := Push(s, c, f); var a, q := s.accepted[Code(c)], Queue(s, c);
            || (Queue(t, c) == q && t.accepted[Code(c)] == a)
            || (t.accepted[Code(c)] == a + [f]
                && (Queue(t, c) == q + [f] ||
                    (q != [] && Queue(t, c) == q[1..] + [f] && (c == Telemetry || c == Traces))))
  {
  }

  lemma PushElsewhere(s: State, c: Class, f: Frame, k: Class)
    requires Shaped(s) && k != c
    ensures Queue(Push(s, c, f), k) == Queue(s, k) && Push(s, c, f).accepted[Code(k)] == s.accepted[Code(k)]
  {
    CodesDiffer(c, k);
  }

  /** A push touches one queue: it appends, appends after dropping the oldest, or leaves it alone. */
  lemma PushEffect(s: State, c: Class, f: Frame, k: Class)
    requires Shaped(s)
    ensures var t := Push(s, c, f); var a, q := s.accepted[Code(k)], Queue(s, k);
            && t.wire == s.wire && t.captures == s.captures && t.pending == s.pending && t.flag == s.flag
            && ((Queue(t, k) == q && t.accepted[Code(k)] == a)
                || (k == c && t.accepted[Code(k)] == a + [f]
                    && (Queue(t, k) == q + [f] ||
                        (q != [] && Queue(t, k) == q[1..] + [f] && (k == Telemetry || k == Traces)))))
            && (k != c ==> Queue(t, k) == q)
  {
    if k == c { PushHere(s, c, f); } else { PushElsewhere(s, c, f, k); }
  }

  lemma CodesDiffer(c: Class, k: Class)
    ensures c != k ==> Code(c) != Code(k)
  {
  }

  lemma PushKept(s: State, c: Class, f: Frame, k: Class)
    requires Shaped(s) && Kept(s, k) && k != Telemetry && k != Traces
    ensures Kept(Push(s, c, f), k)
  {
    PushEffect(s, c, f, k);
    assert FramesOf(s.wire, k) + (Queue(s, k) + [f]) == FramesOf(s.wire, k) + Queue(s, k) + [f];
  }

  lemma PushControlKept(s: State, c: Class, f: Frame)
    requires Shaped(s) && ControlKept(s)
    ensures ControlKept(Push(s, c, f))
  {
    PushEffect(s, c, f, Control);
    NonQueriesSnoc(Queue(s, Control), f);
    NonQueriesSnoc(s.accepted[Code(Control)], f);
    var n := NonQueries(Queue(s, Control));
    assert FramesOf(s.wire, Control) + (n + [f]) == FramesOf(s.wire, Control) + n + [f];
  }

  lemma PushNewest(s: State, c: Class, f: Frame)
    requires Shaped(s) && HoldsNewest(s, Telemetry)
    ensures HoldsNewest(Push(s, c, f), Telemetry)
  {
    PushEffect(s, c, f, Telemetry);
    var a, q := s.accepted[Code(Telemetry)], Queue(s, Telemetry);
    SuffixSnoc(a, q, f);
  }

  lemma SuffixSnoc<T>(a: seq<T>, q: seq<T>, x: T)
    requires |q| <= |a| && a[|a| - |q|..] == q
    ensures (a + [x])[|a| - |q|..] == q + [x]
    ensures q != [] ==> (a + [x])[|a| - |q| + 1..] == q[1..] + [x]
  {
  }

  lemma PushBooked(s: State, c: Class, f: Frame)
    requires Booked(s)
    ensures Booked(Push(s, c, f))
  {
    PushKept(s, c, f, Service);
    PushKept(s, c, f, Events);
    PushKept(s, c, f, Logs);
    PushControlKept(s, c, f);
    PushNewest(s, c, f);
    AllBooked(Push(s, c, f));
  }

  lemma AllBooked(s: State)
    requires Shaped(s) && Kept(s, Service) && Kept(s, Events) && Kept(s, Logs)
             && ControlKept(s) && HoldsNewest(s, Telemetry)
    ensures Booked(s)
  {
  }

  lemma {:induction false} PushAllBooked(s: State, c: Class, fs: seq<Frame>)
    requires Booked(s)
    ensures Booked(PushAll(s, c, fs))
    decreases |fs|
  {
    if fs != [] {
      PushAllBooked(s, c, fs[..|fs| - 1]);
      PushBooked(PushAll(s, c, fs[..|fs| - 1]), c, fs[|fs| - 1]);
    }
  }

  lemma QueryTakenKept(s: State, k: Class)
    requires Shaped(s) && Intercepts(s, Control) && k != Control
    ensures Queue(QueryTaken(s), k) == Queue(s, k) && QueryTaken(s).accepted == s.accepted
            && QueryTaken(s).wire == s.wire
  {
    CodesDiffer(Control, k);
  }

  lemma QueryTakenBooked(s: State)
    requires Booked(s) && Intercepts(s, Control)
    ensures Booked(QueryTaken(s))
  {
    QueryTakenKept(s, Service);
    QueryTakenKept(s, Events);
    QueryTakenKept(s, Logs);
    QueryTakenKept(s, Telemetry);
    ControlTaken(s);
    AllBooked(QueryTaken(s));
  }

  lemma ControlTaken(s: State)
    requires Shaped(s) && Intercepts(s, Control) && ControlKept(s)
    ensures ControlKept(QueryTaken(s))
  {
    NonQueriesHead(Queue(s, Control));
    assert Queue(QueryTaken(s), Control) == Queue(s, Control)[1..];
  }

  /** Latches, counts and the other histories do not matter here. */
  lemma OnlyQueuesMatter(s: State, t: State)
    requires Booked(s) && t.queues == s.queues && t.wire == s.wire && t.accepted == s.accepted
    ensures Booked(t)
  {
  }

  lemma AnswerBooked(s: State, env: TickEnv)
    requires Booked(s) && Intercepts(s, Control)
    ensures Booked(AfterAnswer(s, env))
  {
    var e := Queue(s, Control)[0];
    QueryTakenBooked(s);
    if |e| == 13 {
      PushAllBooked(QueryTaken(s), Control, AnswerFrames(s.answers, e[10], env));
    } else {
      OnlyQueuesMatter(QueryTaken(s), Popped(s, Control));
    }
  }

  lemma SentEffect(s: State, c: Class, room: nat, k: Class)
    requires Shaped(s) && Queue(s, c) != []
    ensures var t := Sent(s, c, room);
            && t.accepted == s.accepted && t.pending == s.pending && t.flag == s.flag
            && Queue(t, k) == (if k == c then Queue(s, c)[1..] else Queue(s, k))
            && FramesOf(t.wire, k) == FramesOf(s.wire, k) + if k == c then [Queue(s, c)[0]] else []
  {
    CodesDiffer(c, k);
    FramesOfSnoc(s.wire, Packet(c, Queue(s, c)[0], room), k);
  }

  lemma SentKept(s: State, c: Class, room: nat, k: Class)
    requires Shaped(s) && Queue(s, c) != [] && Kept(s, k)
    ensures Kept(Sent(s, c, room), k)
  {
    SentEffect(s, c, room, k);
    var q := Queue(s, c);
    assert k == c ==> FramesOf(s.wire, k) + [q[0]] + q[1..] == FramesOf(s.wire, k) + q;
  }

  lemma SentControlKept(s: State, c: Class, room: nat)
    requires Shaped(s) && Queue(s, c) != [] && ControlKept(s) && !Intercepts(s, c)
    ensures ControlKept(Sent(s, c, room))
  {
    SentEffect(s, c, room, Control);
    if c == Control {
      var q := Queue(s, c);
      NonQueriesHead(q);
      assert FramesOf(s.wire, c) + [q[0]] + NonQueries(q[1..]) == FramesOf(s.wire, c) + ([q[0]] + NonQueries(q[1..]));
    }
  }

  lemma SentNewest(s: State, c: Class, room: nat)
    requires Shaped(s) && Queue(s, c) != [] && HoldsNewest(s, Telemetry)
    ensures HoldsNewest(Sent(s, c, room), Telemetry)
  {
    SentEffect(s, c, room, Telemetry);
  }

  lemma SentBooked(s: State, c: Class, room: nat)
    requires Booked(s) && Queue(s, c) != [] && !Intercepts(s, c)
    ensures Booked(Sent(s, c, room))
  {
    SentKept(s, c, room, Service);
    SentKept(s, c, room, Events);
    SentKept(s, c, room, Logs);
    SentControlKept(s, c, room);
    SentNewest(s, c, room);
  }

  lemma ClassBooked(s: State, c: Class, l: Link, env: TickEnv) returns (d: Drained)
    requires Booked(s)
    ensures d == DrainClass(s, c, l, env) && Booked(d.state)
  {
    forall t: State, room: nat | Shaped(t) && Booked(t) && Queue(t, c) != [] && !Intercepts(t, c)
      ensures Booked(Sent(t, c, room))
    {
      SentBooked(t, c, room);
    }
    forall t: State | Shaped(t) && Booked(t) && Intercepts(t, c) ensures Booked(AfterAnswer(t, env)) {
      AnswerBooked(t, env);
    }
    DrainKeeps(t => Booked(t), s, c, l, env);
    d := DrainClass(s, c, l, env);
  }

  lemma AnswersBooked(s: State, env: TickEnv) returns (d: Drained)
    requires Booked(s)
    ensures d == AnswersDrained(s, env) && Booked(d.state)
  {
    var control := ClassBooked(s, Control, Link(LINK_BUDGET, 0, 0), env);
    d := ClassBooked(control.state, Service, control.link, env);
  }

  lemma RecordsBooked(p: Drained, env: TickEnv) returns (d: Drained)
    requires Booked(p.state)
    ensures d == RecordsDrained(p, env) && Booked(d.state)
  {
    var events := ClassBooked(p.state, Events, NextClass(p), env);
    d := ClassBooked(events.state, Logs, NextClass(events), env);
  }

  lemma RestBooked(p: Drained, env: TickEnv) returns (d: Drained)
    requires Booked(p.state)
    ensures d == RestDrained(p, env) && Booked(d.state)
  {
    var traces := ClassBooked(p.state, Traces, NextClass(p), env);
    assert Booked(Delivered(traces.state));
    d := ClassBooked(Delivered(traces.state), Telemetry, NextClass(traces), env);
  }

  lemma TickBooked(s: State, env: TickEnv)
    requires Booked(s)
    ensures Booked(Tick(s, env))
  {
    var answers := AnswersBooked(s, env);
    var records := RecordsBooked(answers, env);
    var rest := RestBooked(records, env);
    FlushedBooked(rest.state, env);
  }

  lemma FlushedBooked(s: State, env: TickEnv)
    requires Booked(s)
    ensures Booked(Flushed(s, env))
  {
    if s.dropPending.Some? {
      OnlyQueuesMatter(s, Reporting(s, env));
      PushBooked(Reporting(s, env), Events, env.dropEvent(s.dropPending.value));
    }
  }

  lemma SupersededBooked(s: State, notice: Frame)
    requires Booked(s)
    ensures Booked(Superseded(s, notice))
  {
    if s.pending {
      PushBooked(s, Events, notice);
      TracesCleared(Push(s, Events, notice));
    }
  }

  lemma TracesCleared(s: State)
    requires Booked(s)
    ensures Booked(s.(queues := s.queues[Code(Traces) := []]))
  {
  }

  lemma CaptureBooked(s: State, head: seq<Byte>, staging: seq<Byte>, notice: Frame)
    requires Booked(s) && Sized(head, staging)
    ensures Booked(StartCapture(s, head, staging, notice))
  {
    SupersededBooked(s, notice);
    var t := Superseded(s, notice).(pending := true);
    var u := PushAll(t, Traces, CaptureFrames(head, staging));
    OnlyQueuesMatter(Superseded(s, notice), t);
    PushAllBooked(t, Traces, CaptureFrames(head, staging));
    OnlyQueuesMatter(u, StartCapture(s, head, staging, notice));
  }

  /** Over every run: what was sent for Service, Events and Logs, followed by what is still queued, is exactly
      what was accepted; for Control likewise but for the Queries, none of which is ever sent; and the
      telemetry queue holds the newest records. */
  lemma {:induction false} NothingLost(acts: Actions)
    ensures Booked(Run(acts))
    decreases |acts|
  {
    if acts != [] {
      var s := Run(acts[..|acts| - 1]);
      NothingLost(acts[..|acts| - 1]);
      match acts[|acts| - 1]
      case PushAction(c, f) => PushBooked(s, c, f);
      case CaptureAction(head, staging, notice) => CaptureBooked(s, head, staging, notice);
      case TickAction(env) => TickBooked(s, env);
    }
  }

  lemma {:induction false} NoQueryAmong(fs: seq<Frame>)
    ensures forall i :: 0 <= i < |NonQueries(fs)| ==> !IsQuery(NonQueries(fs)[i])
    decreases |fs|
  {
    if fs != [] { NoQueryAmong(fs[..|fs| - 1]); }
  }

  lemma {:induction false} FrameIsListed(ps: seq<Packet>, i: nat)
    requires i < |ps|
    ensures ps[i].frame in FramesOf(ps, ps[i].cls)
    decreases |ps|
  {
    if i < |ps| - 1 { FrameIsListed(ps[..|ps| - 1], i); }
  }

  /** A Query that reaches the Control queue is intercepted, whatever else happens: none goes out. */
  lemma QueriesNeverSent(acts: Actions, i: nat)
    requires i < |Run(acts).wire| && Run(acts).wire[i].cls == Control
    ensures !IsQuery(Run(acts).wire[i].frame)
  {
    var s := Run(acts);
    NothingLost(acts);
    NoQueryAmong(s.accepted[Code(Control)]);
    FrameIsListed(s.wire, i);
    var k :| 0 <= k < |FramesOf(s.wire, Control)| && FramesOf(s.wire, Control)[k] == s.wire[i].frame;
    assert NonQueries(s.accepted[Code(Control)])[k] == s.wire[i].frame;
  }

  // ---------------------------------------------------------------- drops over whole runs

  /** How many drops the reports so far account for. */
  function Covered(rs: seq<Report>): nat {
    if rs == [] then 0 else rs[|rs| - 1].upTo
  }

  /** `r` names the class dropped last when it was made, and is an event record. */
  ghost predicate Placed(r: Report, drops: seq<Class>, events: seq<Frame>) {
    && 0 < r.upTo <= |drops| && r.cls == drops[r.upTo - 1]
    && r.position < |events| && events[r.position] == r.frame
  }

  /** Every report stands for the drops since the report before it and names the last of them; the latch holds
      the last drop exactly while some are not reported. */
  ghost predicate Reported(s: State) {
    && Shaped(s)
    && (forall i :: 0 <= i < |s.reports| ==> Placed(s.reports[i], s.drops, s.accepted[Code(Events)]))
    && (forall i :: 0 < i < |s.reports| ==>
          s.reports[i - 1].upTo < s.reports[i].upTo && s.reports[i - 1].position < s.reports[i].position)
    && Covered(s.reports) <= |s.drops|
    && s.dropPending == if Covered(s.reports) < |s.drops| then Some(s.drops[|s.drops| - 1]) else None
  }

  /** From `s` to `t` nothing was reported; drops and event records may have come in. */
  ghost predicate Unreported(s: State, t: State)
    requires Shaped(s)
  {
    && Shaped(t) && t.reports == s.reports && s.accepted[Code(Events)] <= t.accepted[Code(Events)]
    && s.drops <= t.drops
    && t.dropPending == if t.drops == s.drops then s.dropPending else Some(t.drops[|t.drops| - 1])
  }

  lemma UnreportedTrans(s: State, t: State, u: State)
    requires Shaped(s) && Unreported(s, t) && Unreported(t, u)
    ensures Unreported(s, u)
  {
    PrefixTrans(s.accepted[Code(Events)], t.accepted[Code(Events)], u.accepted[Code(Events)]);
    PrefixTrans(s.drops, t.drops, u.drops);
  }

  lemma UnreportedKeeps(s: State, t: State)
    requires Reported(s) && Unreported(s, t)
    ensures Reported(t)
  {
    forall i | 0 <= i < |t.reports| ensures Placed(t.reports[i], t.drops, t.accepted[Code(Events)]) {
      assert Placed(s.reports[i], s.drops, s.accepted[Code(Events)]);
    }
  }

  lemma PushUnreported(s: State, c: Class, f: Frame)
    requires Shaped(s)
    ensures Unreported(s, Push(s, c, f))
  {
    PushEffect(s, c, f, Events);
  }

  lemma {:induction false} PushAllUnreported(s: State, c: Class, fs: seq<Frame>)
    requires Shaped(s)
    ensures Unreported(s, PushAll(s, c, fs))
    decreases |fs|
  {
    if fs != [] {
      var t := PushAll(s, c, fs[..|fs| - 1]);
      PushAllUnreported(s, c, fs[..|fs| - 1]);
      PushUnreported(t, c, fs[|fs| - 1]);
      UnreportedTrans(s, t, PushAll(s, c, fs));
    }
  }

  lemma AnswerUnreported(s: State, env: TickEnv)
    requires Shaped(s) && Intercepts(s, Control)
    ensures Unreported(s, AfterAnswer(s, env))
  {
    var e := Queue(s, Control)[0];
    if |e| == 13 {
      PushAllUnreported(QueryTaken(s), Control, AnswerFrames(s.answers, e[10], env));
    }
  }

  lemma SentUnreported(s: State, t: State, c: Class, room: nat)
    requires Shaped(s) && Unreported(s, t) && Queue(t, c) != []
    ensures Unreported(s, Sent(t, c, room))
  {
  }

  lemma ClassUnreported(s: State, c: Class, l: Link, env: TickEnv) returns (d: Drained)
    requires Shaped(s)
    ensures d == DrainClass(s, c, l, env) && Unreported(s, d.state)
  {
    forall t: State, room: nat | Shaped(t) && Unreported(s, t) && Queue(t, c) != [] && !Intercepts(t, c)
      ensures Unreported(s, Sent(t, c, room))
    {
      SentUnreported(s, t, c, room);
    }
    forall t: State | Shaped(t) && Unreported(s, t) && Intercepts(t, c) ensures Unreported(s, AfterAnswer(t, env)) {
      AnswerUnreported(t, env);
      UnreportedTrans(s, t, AfterAnswer(t, env));
    }
    DrainKeeps((t: State) => Unreported(s, t), s, c, l, env);
    d := DrainClass(s, c, l, env);
  }

  lemma AnswersUnreported(s: State, env: TickEnv)
    requires Shaped(s)
    ensures Unreported(s, AnswersDrained(s, env).state)
  {
    var control := ClassUnreported(s, Control, Link(LINK_BUDGET, 0, 0), env);
    var service := ClassUnreported(control.state, Service, control.link, env);
    UnreportedTrans(s, control.state, service.state);
  }

  lemma RecordsUnreported(p: Drained, env: TickEnv)
    requires Shaped(p.state)
    ensures Unreported(p.state, RecordsDrained(p, env).state)
  {
    var events := ClassUnreported(p.state, Events, NextClass(p), env);
    var logs := ClassUnreported(events.state, Logs, NextClass(events), env);
    UnreportedTrans(p.state, events.state, logs.state);
  }

  lemma RestUnreported(p: Drained, env: TickEnv)
    requires Shaped(p.state)
    ensures Unreported(p.state, RestDrained(p, env).state)
  {
    var traces := ClassUnreported(p.state, Traces, NextClass(p), env);
    var telemetry := ClassUnreported(Delivered(traces.state), Telemetry, NextClass(traces), env);
    UnreportedTrans(p.state, traces.state, Delivered(traces.state));
    UnreportedTrans(p.state, Delivered(traces.state), telemetry.state);
  }

  /** The state a tick flushes the drop latch in. */
  lemma TickUnreported(s: State, env: TickEnv) returns (t: State)
    requires Shaped(s)
    ensures Unreported(s, t) && Tick(s, env) == Flushed(t, env)
  {
    var answers := AnswersDrained(s, env);
    var records := RecordsDrained(answers, env);
    t := RestDrained(records, env).state;
    AnswersUnreported(s, env);
    RecordsUnreported(answers, env);
    RestUnreported(records, env);
    UnreportedTrans(s, answers.state, records.state);
    UnreportedTrans(s, records.state, t);
  }

  /** A noted drop is not forgotten: it is reported as the newest event, or the event queue is full and it is
      still noted. */
  lemma DropIsReported(s: State, env: TickEnv)
    requires Shaped(s) && s.dropPending.Some?
    ensures var t := Flushed(s, env);
            if |Queue(s, Events)| >= Capacity(Events) then t == s
            else t.dropPending == None && t.drops == s.drops
                 && Queue(t, Events) == Queue(s, Events) + [env.dropEvent(s.dropPending.value)]
  {
  }

  /** A flush with room makes the newest event record a report of the last drop. */
  lemma FlushReports(s: State, env: TickEnv)
    requires Reported(s) && s.dropPending.Some? && |Queue(s, Events)| < Capacity(Events)
    ensures var t, c := Flushed(s, env), s.dropPending.value;
            && Reported(t) && t.dropPending == None && t.drops == s.drops
            && Queue(t, Events) == Queue(s, Events) + [env.dropEvent(c)]
            && t.reports == s.reports + [Report(c, |s.drops|, |s.accepted[Code(Events)]|, env.dropEvent(c))]
  {
    DropIsReported(s, env);
    var t := Flushed(s, env);
    var e := s.accepted[Code(Events)];
    var f := env.dropEvent(s.dropPending.value);
    assert t.accepted[Code(Events)] == e + [f];
    forall i | 0 <= i < |t.reports| ensures Placed(t.reports[i], t.drops, e + [f]) {
      if i < |s.reports| { assert Placed(s.reports[i], s.drops, e); }
    }
    if s.reports != [] { assert Placed(s.reports[|s.reports| - 1], s.drops, e); }
  }

  lemma CaptureUnreported(s: State, head: seq<Byte>, staging: seq<Byte>, notice: Frame)
    requires Shaped(s) && Sized(head, staging)
    ensures Unreported(s, StartCapture(s, head, staging, notice))
  {
    PushUnreported(s, Events, notice);
    var t := Superseded(s, notice).(pending := true);
    assert Unreported(s, t);
    var u := PushAll(t, Traces, CaptureFrames(head, staging));
    PushAllUnreported(t, Traces, CaptureFrames(head, staging));
    UnreportedTrans(s, t, u);
  }

  /** Some tick of the run made the record of `r` for the class it names. */
  ghost predicate MadeByTick(acts: Actions, r: Report) {
    exists k :: 0 <= k < |acts| && acts[k].TickAction? && r.frame == acts[k].env.dropEvent(r.cls)
  }

  lemma MadeEarlier(acts: Actions, a: Action, r: Report)
    requires Feasible(a) && MadeByTick(acts, r)
    ensures MadeByTick(acts + [a], r)
  {
    var k :| 0 <= k < |acts| && acts[k].TickAction? && r.frame == acts[k].env.dropEvent(r.cls);
    assert (acts + [a])[k] == acts[k];
  }

  function ThenTick(acts: Actions, env: TickEnv): Actions {
    acts + [TickAction(env)]
  }

  lemma TickReported(acts: Actions, s: State, env: TickEnv) returns (t: State)
    requires Reported(s) && forall i :: 0 <= i < |s.reports| ==> MadeByTick(acts, s.reports[i])
    ensures t == Tick(s, env) && Reported(t) && (t.dropPending.Some? ==> |Queue(t, Events)| >= Capacity(Events))
    ensures forall i :: 0 <= i < |t.reports| ==> MadeByTick(ThenTick(acts, env), t.reports[i])
  {
    var u := TickUnreported(s, env);
    FlushedReported(acts, s, u, env);
    t := Flushed(u, env);
  }

  lemma FlushedReported(acts: Actions, s: State, t: State, env: TickEnv)
    requires Reported(s) && Unreported(s, t) && forall i :: 0 <= i < |s.reports| ==> MadeByTick(acts, s.reports[i])
    ensures var u := Flushed(t, env);
            && Reported(u) && (u.dropPending.Some? ==> |Queue(u, Events)| >= Capacity(Events))
            && forall i :: 0 <= i < |u.reports| ==> MadeByTick(ThenTick(acts, env), u.reports[i])
  {
    UnreportedKeeps(s, t);
    if t.dropPending.Some? {
      DropIsReported(t, env);
      if |Queue(t, Events)| < Capacity(Events) { FlushReports(t, env); }
    }
    var a := TickAction(env);
    var u := Flushed(t, env);
    forall i | 0 <= i < |u.reports| ensures MadeByTick(acts + [a], u.reports[i]) {
      if i < |s.reports| {
        MadeEarlier(acts, a, s.reports[i]);
      } else {
        assert (acts + [a])[|acts|] == a;
      }
    }
  }

  lemma OthersMade(acts: Actions, a: Action, s: State, t: State)
    requires Feasible(a) && Reported(s) && Unreported(s, t)
    requires forall i :: 0 <= i < |s.reports| ==> MadeByTick(acts, s.reports[i])
    ensures Reported(t) && forall i :: 0 <= i < |t.reports| ==> MadeByTick(acts + [a], t.reports[i])
  {
    UnreportedKeeps(s, t);
    forall i | 0 <= i < |t.reports| ensures MadeByTick(acts + [a], t.reports[i]) {
      MadeEarlier(acts, a, s.reports[i]);
    }
  }

  /** Over every run: the drops up to a report and after the one before it are reported by one event record,
      made by some tick for the class dropped last; and after a tick every drop is reported, or the event queue
      is full and the last drop still noted. */
  lemma {:induction false} DropsAreReported(acts: Actions)
    ensures Reported(Run(acts))
    ensures forall i :: 0 <= i < |Run(acts).reports| ==> MadeByTick(acts, Run(acts).reports[i])
    ensures acts != [] && acts[|acts| - 1].TickAction? && |Queue(Run(acts), Events)| < Capacity(Events) ==>
              Covered(Run(acts).reports) == |Run(acts).drops|
    decreases |acts|
  {
    if acts != [] {
      var before := acts[..|acts| - 1];
      DropsAreReported(before);
      assert before + [acts[|acts| - 1]] == acts;
      var t := StepReported(before, Run(before), acts[|acts| - 1]);
    }
  }

  lemma StepReported(acts: Actions, s: State, a: Action) returns (t: State)
    requires Feasible(a) && Reported(s) && forall i :: 0 <= i < |s.reports| ==> MadeByTick(acts, s.reports[i])
    ensures t == SinkRuns.Step(s, a) && Reported(t)
    ensures forall i :: 0 <= i < |t.reports| ==> MadeByTick(acts + [a], t.reports[i])
    ensures a.TickAction? && |Queue(t, Events)| < Capacity(Events) ==> Covered(t.reports) == |t.drops|
  {
    t := SinkRuns.Step(s, a);
    match a
    case PushAction(c, f) =>
      PushUnreported(s, c, f);
      OthersMade(acts, a, s, t);
    case CaptureAction(head, staging, notice) =>
      CaptureUnreported(s, head, staging, notice);
      OthersMade(acts, a, s, t);
    case TickAction(env) =>
      t := TickReported(acts, s, env);
  }
}
