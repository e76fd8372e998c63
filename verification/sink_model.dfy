/** The outbound side of observability: six class queues drained to the serial link under byte limits, Query
    frames answered instead of sent, and fault captures delivered as trace fragments. */
module SinkModel {
  import opened Options
  import opened Checksum
  import Codec

  const MTU := 128
  const CHUNK := 114
  const LINK_BUDGET := 230
  const CLASS_CAP := 128
  const MAX_DOCUMENT := 456

  type Frame = f: seq<Byte> | |f| <= MTU witness []

  /** A snapshot document. */
  type Document = d: seq<Byte> | |d| <= MAX_DOCUMENT witness []

  datatype Class = Control | Service | Update | Telemetry | Events | Logs | Traces

  function Code(c: Class): (i: nat)
    ensures i < 7
  {
    match c
    case Control => 0
    case Service => 1
    case Update => 2
    case Telemetry => 3
    case Events => 4
    case Logs => 5
    case Traces => 6
  }

  function Capacity(c: Class): nat {
    match c
    case Control => 16
    case Service => 8
    case Update => 0
    case Telemetry => 8
    case Events => 32
    case Logs => 32
    case Traces => 16
  }

  /** One frame handed to the link, and the room the link reported just before. */
  datatype Packet = Packet(cls: Class, frame: Frame, room: nat)

  /** A drop event: the class it names, how many drops had been noted by then, and its place among the event
      records. */
  datatype Report = Report(cls: Class, upTo: nat, position: nat, frame: Frame)

  /** A fault capture: its fragments, how many of them were sent, and whether a later capture cut it short. */
  datatype Capture = Capture(frames: seq<Frame>, count: nat, superseded: bool)

  /** `queues` and `accepted` are indexed by class code; `accepted` is everything ever taken into a queue.
      `dropPending` and `pending` are the producer's drop and capture latches, `flag` the sink's, `answers`
      counts the snapshot documents assembled. `drops` and `reports` are the history of dropped records. */
  datatype State = State(
    queues: seq<seq<Frame>>, dropPending: Option<Class>, pending: bool, flag: bool, answers: nat,
    wire: seq<Packet>, accepted: seq<seq<Frame>>, captures: seq<Capture>, drops: seq<Class>, reports: seq<Report>)

  predicate Shaped(s: State) {
    |s.queues| == 7 && |s.accepted| == 7
  }

  function Queue(s: State, c: Class): seq<Frame>
    requires Shaped(s)
  {
    s.queues[Code(c)]
  }

  const EMPTY :=
    State([[], [], [], [], [], [], []], None, false, false, 0, [], [[], [], [], [], [], [], []], [], [], [])

  // ---------------------------------------------------------------- enqueue

  function Append(s: State, c: Class, q: seq<Frame>, f: Frame): (t: State)
    requires Shaped(s)
    ensures Shaped(t)
  {
    s.(queues := s.queues[Code(c) := q + [f]], accepted := s.accepted[Code(c) := s.accepted[Code(c)] + [f]])
  }

  /** The latch holds the class dropped last. */
  function Dropped(s: State, c: Class): State {
    s.(dropPending := Some(c), drops := s.drops + [c])
  }

  /** Telemetry and traces make room by dropping their oldest record; the other classes refuse the new one. */
  function Push(s: State, c: Class, f: Frame): (t: State)
    requires Shaped(s)
    ensures Shaped(t)
  {
    var q := Queue(s, c);
    if c == Update then s
    else if |q| < Capacity(c) then Append(s, c, q, f)
    else if c == Telemetry || c == Traces then Dropped(Append(s, c, q[1..], f), c)
    else Dropped(s, c)
  }

  function PushAll(s: State, c: Class, fs: seq<Frame>): (t: State)
    requires Shaped(s)
    ensures Shaped(t)
  {
    if fs == [] then s else Push(PushAll(s, c, fs[..|fs| - 1]), c, fs[|fs| - 1])
  }

  // ---------------------------------------------------------------- fragments

  function FragmentCount(n: nat): nat {
    if n == 0 then 1 else (n + CHUNK - 1) / CHUNK
  }

  function ChunkStart(f: nat, n: nat): (r: nat)
    ensures r <= n
  {
    if f * CHUNK < n then f * CHUNK else n
  }

  function Chunk(stream: seq<Byte>, f: nat): (r: seq<Byte>)
    ensures |r| <= CHUNK
  {
    stream[ChunkStart(f, |stream|)..ChunkStart(f + 1, |stream|)]
  }

  function Fragment(h: Codec.Header, stream: seq<Byte>, f: nat, count: nat): Frame
    requires f < 256 && count < 256
  {
    Codec.FrameOf(h, [f, count] + Chunk(stream, f))
  }

  function Fragments(h: Codec.Header, stream: seq<Byte>): (r: seq<Frame>)
    requires |stream| <= 5 * CHUNK
    ensures |r| == FragmentCount(|stream|) && 1 <= |r| <= 5
  {
    seq(FragmentCount(|stream|), f requires 0 <= f < FragmentCount(|stream|) =>
      Fragment(h, stream, f, FragmentCount(|stream|)))
  }

  const SNAPSHOT_HEADER := Codec.Header(1, 6, 4, 0, 0, 0)
  const TRACE_HEADER := Codec.Header(1, 6, 3, 6, 1, 0)

  // ---------------------------------------------------------------- draining

  predicate IsQuery(f: Frame) {
    |f| >= 12 && f[0] == 0xE3 && f[1] == 0x10 && f[3] == 2 && f[4] == 4
  }

  function Queries(q: seq<Frame>): nat {
    if q == [] then 0 else Queries(q[..|q| - 1]) + if IsQuery(q[|q| - 1]) then 1 else 0
  }

  /** What one tick meets: the room the link reports each time it is asked, the snapshot document for each
      document number and section mask, and the event record that reports a dropped class. */
  datatype TickEnv = TickEnv(rooms: nat -> nat, snapshot: (nat, Byte) -> Document, dropEvent: Class -> Frame)

  /** Remaining link budget, bytes spent on the current class cap, and how often the link was asked for room. */
  datatype Link = Link(budget: nat, spent: nat, asked: nat)

  function Popped(s: State, c: Class): (t: State)
    requires Shaped(s) && Queue(s, c) != []
    ensures Shaped(t)
  {
    s.(queues := s.queues[Code(c) := Queue(s, c)[1..]])
  }

  /** The fragments of snapshot document number `n`. */
  function AnswerFrames(n: nat, mask: Byte, env: TickEnv): (r: seq<Frame>)
    ensures 1 <= |r| <= 5
  {
    Fragments(SNAPSHOT_HEADER, env.snapshot(n, mask))
  }

  function Counted(cs: seq<Capture>): seq<Capture> {
    if cs == [] then cs else cs[|cs| - 1 := cs[|cs| - 1].(count := cs[|cs| - 1].count + 1)]
  }

  function Logged(s: State, p: Packet): State {
    s.(wire := s.wire + [p], captures := if p.cls == Traces then Counted(s.captures) else s.captures)
  }

  function Sent(s: State, c: Class, room: nat): (t: State)
    requires Shaped(s) && Queue(s, c) != []
    ensures Shaped(t)
  {
    Logged(Popped(s, c), Packet(c, Queue(s, c)[0], room))
  }

  predicate Affordable(f: Frame, l: Link) {
    l.spent + |f| <= CLASS_CAP && |f| <= l.budget
  }

  datatype Drained = Drained(state: State, link: Link)

  predicate Intercepts(s: State, c: Class)
    requires Shaped(s)
  {
    c == Control && Queue(s, c) != [] && IsQuery(Queue(s, c)[0])
  }

  lemma {:induction false} QueriesHead(q: seq<Frame>)
    requires q != []
    ensures Queries(q) == Queries(q[1..]) + if IsQuery(q[0]) then 1 else 0
    decreases |q|
  {
    if |q| > 1 {
      QueriesHead(q[..|q| - 1]);
      assert q[..|q| - 1][1..] == q[1..][..|q| - 2];
    } else {
      assert q[1..] == [] && q[..0] == [];
    }
  }

  /** No fragment looks like a Query, so answering adds none. */
  lemma {:induction false} PushAllAddsNoQuery(s: State, fs: seq<Frame>)
    requires Shaped(s) && forall i :: 0 <= i < |fs| ==> !IsQuery(fs[i])
    ensures Queries(Queue(PushAll(s, Control, fs), Control)) == Queries(Queue(s, Control))
    decreases |fs|
  {
    if fs != [] {
      PushAllAddsNoQuery(s, fs[..|fs| - 1]);
      var q := Queue(PushAll(s, Control, fs[..|fs| - 1]), Control);
      assert (q + [fs[|fs| - 1]])[..|q|] == q;
    }
  }

  lemma FragmentIsNoQuery(h: Codec.Header, stream: seq<Byte>, f: nat, count: nat)
    requires f < 256 && count < 256 && h.family != 2
    ensures !IsQuery(Fragment(h, stream, f, count))
  {
    assert Fragment(h, stream, f, count)[3] == h.family;
  }

  /** The next snapshot document takes the next number. */
  function Numbered(s: State): State {
    s.(answers := s.answers + 1)
  }

  /** The state an intercepted Query is answered in. */
  function QueryTaken(s: State): (t: State)
    requires Shaped(s) && Intercepts(s, Control)
    ensures Shaped(t)
  {
    Numbered(Popped(s, Control))
  }

  lemma AnsweredWith(s: State, fs: seq<Frame>)
    requires Shaped(s) && Intercepts(s, Control) && forall i :: 0 <= i < |fs| ==> !IsQuery(fs[i])
    ensures Queries(Queue(PushAll(QueryTaken(s), Control, fs), Control)) == Queries(Queue(s, Control)) - 1
  {
    QueriesHead(Queue(s, Control));
    assert Queue(QueryTaken(s), Control) == Queue(s, Control)[1..];
    PushAllAddsNoQuery(QueryTaken(s), fs);
  }

  lemma AnsweringRemovesQuery(s: State, env: TickEnv)
    requires Shaped(s) && Intercepts(s, Control)
    ensures Queries(Queue(AfterAnswer(s, env), Control)) == Queries(Queue(s, Control)) - 1
  {
    var e := Queue(s, Control)[0];
    if |e| == 13 {
      AnswersAreNoQueries(s.answers, e[10], env);
      AnsweredWith(s, AnswerFrames(s.answers, e[10], env));
    } else {
      QueriesHead(Queue(s, Control));
    }
  }

  lemma AnswersAreNoQueries(n: nat, mask: Byte, env: TickEnv)
    ensures var fs := AnswerFrames(n, mask, env); forall i :: 0 <= i < |fs| ==> !IsQuery(fs[i])
  {
    var doc := env.snapshot(n, mask);
    var fs := AnswerFrames(n, mask, env);
    forall i | 0 <= i < |fs| ensures !IsQuery(fs[i]) {
      FragmentIsNoQuery(SNAPSHOT_HEADER, doc, i, |fs|);
    }
  }

  /** What the drain loop does next: leave, having asked the link `asked` times; answer the Query at the
      head; or send the head, the link having reported `room`. */
  datatype Move = Stop(asked: nat) | Answer | Send(room: nat)

  function NextMove(s: State, c: Class, l: Link, env: TickEnv): (m: Move)
    requires Shaped(s)
    ensures m.Answer? ==> Intercepts(s, c)
    ensures m.Send? ==> var q := Queue(s, c); q != [] && Affordable(q[0], l) && |q[0]| <= m.room && !Intercepts(s, c)
  {
    var q := Queue(s, c);
    if l.budget == 0 || q == [] then Stop(l.asked)
    else if Intercepts(s, c) then Answer
    else if !Affordable(q[0], l) then Stop(l.asked)
    else if |q[0]| > env.rooms(l.asked) then Stop(l.asked + 1)
    else Send(env.rooms(l.asked))
  }

  /** A well-formed Query is answered with the fragments of a new snapshot document, any other dropped. */
  function AfterAnswer(s: State, env: TickEnv): (t: State)
    requires Shaped(s) && Intercepts(s, Control)
    ensures Shaped(t)
  {
    var e := Queue(s, Control)[0];
    if |e| == 13 then PushAll(QueryTaken(s), Control, AnswerFrames(s.answers, e[10], env)) else Popped(s, Control)
  }

  function Charged(l: Link, f: Frame): Link
    requires Affordable(f, l)
  {
    Link(l.budget - |f|, l.spent + |f|, l.asked + 1)
  }

  /** Empties the queue of `c` as far as the limits allow; a frame that does not fit stays at the head. Every
      answered Query removes one Query frame and every frame sent shortens the queue. */
  function Drain(s: State, c: Class, l: Link, env: TickEnv): Drained
    requires Shaped(s)
    decreases Queries(Queue(s, c)), |Queue(s, c)|
  {
    match NextMove(s, c, l, env)
    case Stop(asked) => Drained(s, l.(asked := asked))
    case Answer =>
      AnsweringRemovesQuery(s, env);
      Drain(AfterAnswer(s, env), c, l, env)
    case Send(room) =>
      QueriesHead(Queue(s, c));
      Drain(Sent(s, c, room), c, Charged(l, Queue(s, c)[0]), env)
  }

  // ---------------------------------------------------------------- one tick

  /** A capture is delivered once the trace queue has run empty. */
  function Delivered(s: State): State
    requires Shaped(s)
  {
    if s.flag && Queue(s, Traces) == [] then s.(flag := false, pending := false) else s
  }

  /** The latch is cleared for the report that follows. */
  function Reporting(s: State, env: TickEnv): State
    requires Shaped(s) && s.dropPending.Some?
  {
    var c := s.dropPending.value;
    s.(dropPending := None,
       reports := s.reports + [Report(c, |s.drops|, |s.accepted[Code(Events)]|, env.dropEvent(c))])
  }

  /** Reports the last dropped class once the event queue has room. */
  function Flushed(s: State, env: TickEnv): State
    requires Shaped(s)
  {
    if s.dropPending.Some? && |Queue(s, Events)| < Capacity(Events)
    then Push(Reporting(s, env), Events, env.dropEvent(s.dropPending.value)) else s
  }

  function NextClass(d: Drained): Link {
    d.link.(spent := 0)
  }

  lemma {:induction false} DrainShaped(s: State, c: Class, l: Link, env: TickEnv)
    requires Shaped(s)
    ensures Shaped(Drain(s, c, l, env).state)
    decreases Queries(Queue(s, c)), |Queue(s, c)|
  {
    match NextMove(s, c, l, env)
    case Stop(_) =>
    case Answer =>
      AnsweringRemovesQuery(s, env);
      DrainShaped(AfterAnswer(s, env), c, l, env);
    case Send(room) =>
      QueriesHead(Queue(s, c));
      DrainShaped(Sent(s, c, room), c, Charged(l, Queue(s, c)[0]), env);
  }

  function DrainClass(s: State, c: Class, l: Link, env: TickEnv): (d: Drained)
    requires Shaped(s)
    ensures Shaped(d.state)
  {
    DrainShaped(s, c, l, env);
    Drain(s, c, l, env)
  }

  /** Control and Service answers, which share one class cap. */
  function AnswersDrained(s: State, env: TickEnv): (d: Drained)
    requires Shaped(s)
    ensures Shaped(d.state)
  {
    var control := DrainClass(s, Control, Link(LINK_BUDGET, 0, 0), env);
    DrainClass(control.state, Service, control.link, env)
  }

  function RecordsDrained(answers: Drained, env: TickEnv): (d: Drained)
    requires Shaped(answers.state)
    ensures Shaped(d.state)
  {
    var events := DrainClass(answers.state, Events, NextClass(answers), env);
    DrainClass(events.state, Logs, NextClass(events), env)
  }

  function RestDrained(records: Drained, env: TickEnv): (d: Drained)
    requires Shaped(records.state)
    ensures Shaped(d.state)
  {
    var traces := DrainClass(records.state, Traces, NextClass(records), env);
    DrainClass(Delivered(traces.state), Telemetry, NextClass(traces), env)
  }

  function Tick(s: State, env: TickEnv): State
    requires Shaped(s)
  {
    Flushed(RestDrained(RecordsDrained(AnswersDrained(s, env), env), env).state, env)
  }

  // ---------------------------------------------------------------- captures

  const HEAD := 25
  const MAX_STAGING := 489

  function Closed(cs: seq<Capture>, superseded: bool): seq<Capture> {
    if cs == [] then cs else cs[|cs| - 1 := cs[|cs| - 1].(superseded := superseded)]
  }

  /** A new capture drops what is left of one still on its way, after saying so with `notice`. */
  function Superseded(s: State, notice: Frame): State
    requires Shaped(s)
  {
    if !s.pending then s
    else
      var t := Push(s, Events, notice);
      t.(queues := t.queues[Code(Traces) := []])
  }

  predicate Sized(head: seq<Byte>, staging: seq<Byte>) {
    |head| == HEAD && |staging| <= MAX_STAGING
  }

  function CaptureFrames(head: seq<Byte>, staging: seq<Byte>): (r: seq<Frame>)
    requires Sized(head, staging)
    ensures 1 <= |r| <= 5
  {
    Fragments(TRACE_HEADER, head + staging)
  }

  function StartCapture(s: State, head: seq<Byte>, staging: seq<Byte>, notice: Frame): State
    requires Shaped(s) && Sized(head, staging)
  {
    var fs := CaptureFrames(head, staging);
    PushAll(Superseded(s, notice).(pending := true), Traces, fs)
      .(flag := true, captures := Closed(s.captures, s.pending) + [Capture(fs, 0, false)])
  }
}
