/** What holds of the outbound side over every run: any records, captures, queries and link speeds. */
module SinkRuns {
  import opened Checksum
  import opened SinkModel

  datatype Action =
    | PushAction(c: Class, f: Frame)
    | CaptureAction(head: seq<Byte>, staging: seq<Byte>, notice: Frame)
    | TickAction(env: TickEnv)

  predicate Feasible(a: Action) {
    a.CaptureAction? ==> Sized(a.head, a.staging)
  }

  /** Fault captures are the only source of trace records. */
  predicate CapturesOwnTraces(a: Action) {
    a.PushAction? ==> a.c != Traces
  }

  type Actions = acts: seq<Action> | forall i :: 0 <= i < |acts| ==> Feasible(acts[i])

  function Step(s: State, a: Action): (t: State)
    requires Shaped(s) && Feasible(a)
    ensures Shaped(t)
  {
    match a
    case PushAction(c, f) => Push(s, c, f)
    case CaptureAction(head, staging, notice) => StartCapture(s, head, staging, notice)
    case TickAction(env) => Tick(s, env)
  }

  function Run(acts: Actions): (t: State)
    ensures Shaped(t)
  {
    if acts == [] then EMPTY else Step(Run(acts[..|acts| - 1]), acts[|acts| - 1])
  }

  // ---------------------------------------------------------------- byte limits

  function Bytes(ps: seq<Packet>): nat {
    if ps == [] then 0 else Bytes(ps[..|ps| - 1]) + |ps[|ps| - 1].frame|
  }

  /** The packets of one class. */
  function Of(ps: seq<Packet>, c: Class): seq<Packet> {
    if ps == [] then []
    else Of(ps[..|ps| - 1], c) + if ps[|ps| - 1].cls == c then [ps[|ps| - 1]] else []
  }

  lemma {:induction false} BytesAppend(a: seq<Packet>, b: seq<Packet>)
    ensures Bytes(a + b) == Bytes(a) + Bytes(b)
    decreases |b|
  {
    if b == [] {
      assert a + b == a;
    } else {
      assert (a + b)[..|a| + |b| - 1] == a + b[..|b| - 1];
      BytesAppend(a, b[..|b| - 1]);
    }
  }

  lemma {:induction false} OfAppend(a: seq<Packet>, b: seq<Packet>, c: Class)
    ensures Of(a + b, c) == Of(a, c) + Of(b, c)
    decreases |b|
  {
    if b == [] {
      assert a + b == a;
    } else {
      assert (a + b)[..|a| + |b| - 1] == a + b[..|b| - 1];
      OfAppend(a, b[..|b| - 1], c);
    }
  }

  /** `d` is what a drain of class `c` handed to the link, going from `l` to `m`. */
  ghost predicate Spent(d: seq<Packet>, c: Class, l: Link, m: Link) {
    && (forall i :: 0 <= i < |d| ==> d[i].cls == c && |d[i].frame| <= d[i].room)
    && m.budget <= l.budget && Bytes(d) == l.budget - m.budget == m.spent - l.spent
    && (l.spent <= 128 ==> m.spent <= 128)
  }

  lemma SpentFirst(p: Packet, d: seq<Packet>, c: Class, l: Link, k: Link, m: Link)
    requires p.cls == c && |p.frame| <= p.room && Affordable(p.frame, l)
    requires k.budget == l.budget - |p.frame| && k.spent == l.spent + |p.frame| && Spent(d, c, k, m)
    ensures Spent([p] + d, c, l, m)
  {
    BytesAppend([p], d);
    assert [p][..0] == [];
  }

  lemma {:induction false} PushAllWire(s: State, c: Class, fs: seq<Frame>)
    requires Shaped(s)
    ensures PushAll(s, c, fs).wire == s.wire
    decreases |fs|
  {
    if fs != [] { PushAllWire(s, c, fs[..|fs| - 1]); }
  }

  lemma AnsweredWire(s: State, env: TickEnv)
    requires Shaped(s) && Intercepts(s, Control)
    ensures AfterAnswer(s, env).wire == s.wire
  {
    var e := Queue(s, Control)[0];
    if |e| == 13 {
      PushAllWire(QueryTaken(s), Control, AnswerFrames(s.answers, e[10], env));
    }
  }

  /** One frame sent, then `rest` by the remainder of the drain. */
  lemma SentSpends(s: State, c: Class, l: Link, room: nat, rest: seq<Packet>, out: Drained)
    requires Shaped(s) && Queue(s, c) != [] && Affordable(Queue(s, c)[0], l) && |Queue(s, c)[0]| <= room
    requires out.state.wire == Sent(s, c, room).wire + rest
    requires Spent(rest, c, Charged(l, Queue(s, c)[0]), out.link)
    ensures var d := [Packet(c, Queue(s, c)[0], room)] + rest;
            out.state.wire == s.wire + d && Spent(d, c, l, out.link)
  {
    var p := Packet(c, Queue(s, c)[0], room);
    SpentFirst(p, rest, c, l, Charged(l, p.frame), out.link);
    assert s.wire + [p] + rest == s.wire + ([p] + rest);
  }

  lemma {:induction false} DrainSpends(s: State, c: Class, l: Link, env: TickEnv) returns (d: seq<Packet>)
    requires Shaped(s)
    ensures Drain(s, c, l, env).state.wire == s.wire + d && Spent(d, c, l, Drain(s, c, l, env).link)
    decreases Queries(Queue(s, c)), |Queue(s, c)|
  {
    match NextMove(s, c, l, env)
    case Stop(_) =>
      d := [];
    case Answer =>
      AnsweringRemovesQuery(s, env);
      AnsweredWire(s, env);
      d := DrainSpends(AfterAnswer(s, env), c, l, env);
    case Send(room) =>
      QueriesHead(Queue(s, c));
      var k := Charged(l, Queue(s, c)[0]);
      d := DrainSpends(Sent(s, c, room), c, k, env);
      SentSpends(s, c, l, room, d, Drain(Sent(s, c, room), c, k, env));
      d := [Packet(c, Queue(s, c)[0], room)] + d;
  }

  /** The head, if there is one, cannot be sent now. */
  predicate HeadWaits(s: State, c: Class, l: Link, env: TickEnv)
    requires Shaped(s)
  {
    var q := Queue(s, c);
    || l.budget == 0 || q == [] || l.spent + |q[0]| > 128 || |q[0]| > l.budget
    || (l.asked > 0 && |q[0]| > env.rooms(l.asked - 1))
  }

  /** A drain stops only when it has to: the queue is empty, the budget spent, the head too long for what is
      left of budget or class cap, or for the room the link reported last. */
  lemma {:induction false} DrainStopsOnlyWhenForced(s: State, c: Class, l: Link, env: TickEnv)
    requires Shaped(s)
    ensures var d := Drain(s, c, l, env); Shaped(d.state) && HeadWaits(d.state, c, d.link, env)
    decreases Queries(Queue(s, c)), |Queue(s, c)|
  {
    match NextMove(s, c, l, env)
    case Stop(_) =>
    case Answer =>
      AnsweringRemovesQuery(s, env);
      DrainStopsOnlyWhenForced(AfterAnswer(s, env), c, l, env);
    case Send(room) =>
      QueriesHead(Queue(s, c));
      DrainStopsOnlyWhenForced(Sent(s, c, room), c, Charged(l, Queue(s, c)[0]), env);
  }

  /** The same for one class of a tick, as a value. */
  lemma ClassSpends(s: State, c: Class, l: Link, env: TickEnv) returns (d: seq<Packet>, out: Drained)
    requires Shaped(s)
    ensures out == DrainClass(s, c, l, env) && Shaped(out.state)
    ensures out.state.wire == s.wire + d && Spent(d, c, l, out.link)
  {
    d := DrainSpends(s, c, l, env);
    out := DrainClass(s, c, l, env);
  }

  lemma {:induction false} OnlyOne(d: seq<Packet>, c: Class, k: Class)
    requires forall i :: 0 <= i < |d| ==> d[i].cls == c
    ensures Of(d, k) == if k == c then d else []
    decreases |d|
  {
    if d != [] { OnlyOne(d[..|d| - 1], c, k); }
  }

  /** What one tick hands to the link, drain by drain. */
  datatype Wired = Wired(
    control: seq<Packet>, service: seq<Packet>, events: seq<Packet>, logs: seq<Packet>, traces: seq<Packet>,
    telemetry: seq<Packet>)

  function All(w: Wired): seq<Packet> {
    w.control + w.service + w.events + w.logs + w.traces + w.telemetry
  }

  ghost predicate WithinLimits(d: seq<Packet>) {
    && Bytes(d) <= 230
    && (forall i :: 0 <= i < |d| ==> |d[i].frame| <= d[i].room)
    && (forall c: Class :: Bytes(Of(d, c)) <= 128)
    && Bytes(Of(d, Control)) + Bytes(Of(d, Service)) <= 128
  }

  lemma AnswersSend(s: State, env: TickEnv) returns (a: seq<Packet>, b: seq<Packet>, m: Link, d: Drained)
    requires Shaped(s)
    ensures d == AnswersDrained(s, env) && d.state.wire == s.wire + a + b
    ensures Spent(a, Control, Link(230, 0, 0), m) && Spent(b, Service, m, d.link)
  {
    var control;
    a, control := ClassSpends(s, Control, Link(230, 0, 0), env);
    m := control.link;
    b, d := ClassSpends(control.state, Service, m, env);
  }

  lemma RecordsSend(p: Drained, env: TickEnv) returns (a: seq<Packet>, b: seq<Packet>, m: Link, d: Drained)
    requires Shaped(p.state)
    ensures d == RecordsDrained(p, env) && d.state.wire == p.state.wire + a + b
    ensures Spent(a, Events, NextClass(p), m) && Spent(b, Logs, m.(spent := 0), d.link)
  {
    var events;
    a, events := ClassSpends(p.state, Events, NextClass(p), env);
    m := events.link;
    b, d := ClassSpends(events.state, Logs, NextClass(events), env);
  }

  lemma RestSends(p: Drained, env: TickEnv) returns (a: seq<Packet>, b: seq<Packet>, m: Link, d: Drained)
    requires Shaped(p.state)
    ensures d == RestDrained(p, env) && d.state.wire == p.state.wire + a + b
    ensures Spent(a, Traces, NextClass(p), m) && Spent(b, Telemetry, m.(spent := 0), d.link)
  {
    var traces;
    a, traces := ClassSpends(p.state, Traces, NextClass(p), env);
    m := traces.link;
    b, d := ClassSpends(Delivered(traces.state), Telemetry, NextClass(traces), env);
  }

  lemma Regrouped(v: seq<Packet>, w: Wired)
    ensures v + w.control + w.service + w.events + w.logs + w.traces + w.telemetry == v + All(w)
  {
  }

  /** What a tick sends, in order of priority. */
  lemma TickSends(s: State, env: TickEnv) returns (w: Wired, m: seq<Link>)
    requires Shaped(s)
    ensures Tick(s, env).wire == s.wire + All(w) && Limited(w, m)
  {
    var a, b, l0, answers := AnswersSend(s, env);
    var c, d, l1, records := RecordsSend(answers, env);
    var e, f, l2, rest := RestSends(records, env);
    w := Wired(a, b, c, d, e, f);
    m := [l0, answers.link, l1, records.link, l2, rest.link];
    Regrouped(s.wire, w);
  }

  /** Each drain goes on from the link the one before left, with a new class cap except for Service. */
  ghost predicate Limited(w: Wired, m: seq<Link>) {
    && |m| == 6
    && Spent(w.control, Control, Link(230, 0, 0), m[0]) && Spent(w.service, Service, m[0], m[1])
    && Spent(w.events, Events, m[1].(spent := 0), m[2]) && Spent(w.logs, Logs, m[2].(spent := 0), m[3])
    && Spent(w.traces, Traces, m[3].(spent := 0), m[4]) && Spent(w.telemetry, Telemetry, m[4].(spent := 0), m[5])
  }

  lemma AllOf(w: Wired, c: Class)
    ensures Of(All(w), c) == Of(w.control, c) + Of(w.service, c) + Of(w.events, c) + Of(w.logs, c) + Of(w.traces, c)
                             + Of(w.telemetry, c)
  {
    OfAppend(w.control, w.service, c);
    OfAppend(w.control + w.service, w.events, c);
    OfAppend(w.control + w.service + w.events, w.logs, c);
    OfAppend(w.control + w.service + w.events + w.logs, w.traces, c);
    OfAppend(w.control + w.service + w.events + w.logs + w.traces, w.telemetry, c);
  }

  lemma AllBytes(w: Wired)
    ensures Bytes(All(w)) == Bytes(w.control) + Bytes(w.service) + Bytes(w.events) + Bytes(w.logs) + Bytes(w.traces)
                             + Bytes(w.telemetry)
  {
    BytesAppend(w.control, w.service);
    BytesAppend(w.control + w.service, w.events);
    BytesAppend(w.control + w.service + w.events, w.logs);
    BytesAppend(w.control + w.service + w.events + w.logs, w.traces);
    BytesAppend(w.control + w.service + w.events + w.logs + w.traces, w.telemetry);
  }

  /** Which part of a tick's packets belongs to class `c`. */
  function Part(w: Wired, c: Class): seq<Packet> {
    match c
    case Control => w.control
    case Service => w.service
    case Update => []
    case Telemetry => w.telemetry
    case Events => w.events
    case Logs => w.logs
    case Traces => w.traces
  }

  ghost predicate Sorted(w: Wired) {
    && (forall i :: 0 <= i < |w.control| ==> w.control[i].cls == Control)
    && (forall i :: 0 <= i < |w.service| ==> w.service[i].cls == Service)
    && (forall i :: 0 <= i < |w.events| ==> w.events[i].cls == Events)
    && (forall i :: 0 <= i < |w.logs| ==> w.logs[i].cls == Logs)
    && (forall i :: 0 <= i < |w.traces| ==> w.traces[i].cls == Traces)
    && (forall i :: 0 <= i < |w.telemetry| ==> w.telemetry[i].cls == Telemetry)
  }

  lemma PiecesOf(w: Wired, c: Class)
    requires Sorted(w)
    ensures Of(w.control, c) == if c == Control then w.control else []
    ensures Of(w.service, c) == if c == Service then w.service else []
    ensures Of(w.events, c) == if c == Events then w.events else []
    ensures Of(w.logs, c) == if c == Logs then w.logs else []
    ensures Of(w.traces, c) == if c == Traces then w.traces else []
    ensures Of(w.telemetry, c) == if c == Telemetry then w.telemetry else []
  {
    OnlyOne(w.control, Control, c);
    OnlyOne(w.service, Service, c);
    OnlyOne(w.events, Events, c);
    OnlyOne(w.logs, Logs, c);
    OnlyOne(w.traces, Traces, c);
    OnlyOne(w.telemetry, Telemetry, c);
  }

  lemma PartOf(w: Wired, c: Class)
    requires Sorted(w)
    ensures Of(All(w), c) == Part(w, c)
  {
    AllOf(w, c);
    PiecesOf(w, c);
    PiecesJoin(w, c, Of(w.control, c), Of(w.service, c), Of(w.events, c), Of(w.logs, c), Of(w.traces, c),
               Of(w.telemetry, c));
  }

  lemma PiecesJoin(w: Wired, k: Class, a: seq<Packet>, b: seq<Packet>, c: seq<Packet>, d: seq<Packet>,
                   e: seq<Packet>, f: seq<Packet>)
    requires a == (if k == Control then w.control else []) && b == (if k == Service then w.service else [])
    requires c == (if k == Events then w.events else []) && d == (if k == Logs then w.logs else [])
    requires e == (if k == Traces then w.traces else []) && f == (if k == Telemetry then w.telemetry else [])
    ensures a + b + c + d + e + f == Part(w, k)
  {
    OnlyPiece(Place(k), a, b, c, d, e, f, Part(w, k));
  }

  /** The place of a class in the order of a tick. */
  function Place(c: Class): nat {
    match c
    case Control => 0
    case Service => 1
    case Events => 2
    case Logs => 3
    case Traces => 4
    case _ => 5
  }

  lemma OnlyPiece(k: nat, a: seq<Packet>, b: seq<Packet>, c: seq<Packet>, d: seq<Packet>, e: seq<Packet>,
                  f: seq<Packet>, x: seq<Packet>)
    requires a == (if k == 0 then x else []) && b == (if k == 1 then x else []) && c == (if k == 2 then x else [])
    requires d == (if k == 3 then x else []) && e == (if k == 4 then x else []) && f == (if k >= 5 then x else [])
    ensures a + b + c + d + e + f == x
  {
    OneOfTwo(a, b, if k < 2 then x else []);
    OneOfTwo(a + b, c, if k < 3 then x else []);
    OneOfTwo(a + b + c, d, if k < 4 then x else []);
    OneOfTwo(a + b + c + d, e, if k < 5 then x else []);
    OneOfTwo(a + b + c + d + e, f, x);
  }

  lemma OneOfTwo<T>(a: seq<T>, b: seq<T>, x: seq<T>)
    requires (a == x && b == []) || (a == [] && b == x)
    ensures a + b == x
  {
  }

  /** Three limits at once: a tick sends at most 230 bytes in all and 128 per class, Control and Service
      sharing one share, and never a frame larger than the room the link reported just before it. */
  lemma TickWithinLimits(s: State, env: TickEnv) returns (d: seq<Packet>)
    requires Shaped(s)
    ensures Tick(s, env).wire == s.wire + d && WithinLimits(d)
  {
    var w, m := TickSends(s, env);
    d := All(w);
    LimitsMet(w, m);
  }

  lemma LimitedIsSorted(w: Wired, m: seq<Link>)
    requires Limited(w, m)
    ensures Sorted(w) && forall c: Class, i :: 0 <= i < |Part(w, c)| ==> |Part(w, c)[i].frame| <= Part(w, c)[i].room
  {
  }

  lemma LimitedBytes(w: Wired, m: seq<Link>)
    requires Limited(w, m)
    ensures Bytes(w.control) + Bytes(w.service) + Bytes(w.events) + Bytes(w.logs) + Bytes(w.traces) + Bytes(w.telemetry)
              <= LINK_BUDGET
    ensures Bytes(w.control) + Bytes(w.service) <= CLASS_CAP
    ensures Bytes(w.events) <= CLASS_CAP && Bytes(w.logs) <= CLASS_CAP
    ensures Bytes(w.traces) <= CLASS_CAP && Bytes(w.telemetry) <= CLASS_CAP
  {
  }

  lemma LimitsMet(w: Wired, m: seq<Link>)
    requires Limited(w, m)
    ensures WithinLimits(All(w))
  {
    AllBytes(w);
    LimitedIsSorted(w, m);
    LimitedBytes(w, m);
    forall c: Class ensures Of(All(w), c) == Part(w, c) {
      PartOf(w, c);
    }
    AllRoomy(w);
  }

  lemma AllRoomy(w: Wired)
    requires forall c: Class, i :: 0 <= i < |Part(w, c)| ==> |Part(w, c)[i].frame| <= Part(w, c)[i].room
    ensures forall i :: 0 <= i < |All(w)| ==> |All(w)[i].frame| <= All(w)[i].room
  {
    assert Part(w, Control) == w.control && Part(w, Service) == w.service && Part(w, Events) == w.events;
    assert Part(w, Logs) == w.logs && Part(w, Traces) == w.traces && Part(w, Telemetry) == w.telemetry;
  }
}
