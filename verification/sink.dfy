/** The outbound side as one object: the six queues of the sink, the link it drains to, and the latches of the
    producer that feeds it. Every method is proved to do what its counterpart in SinkModel does. */
module ObservabilitySink {
  import opened Options
  import opened Checksum
  import opened StaticQueues
  import opened SinkModel
  import Codec

  lemma OneQueueChanged(s: State, t: State, c: Class, q: seq<Frame>)
    requires Shaped(s) && Shaped(t)
    requires forall d: Class :: Queue(t, d) == if d == c then q else Queue(s, d)
    ensures t.queues == s.queues[Code(c) := q]
  {
    forall i | 0 <= i < 7 ensures t.queues[i] == s.queues[Code(c) := q][i] {
      assert Queue(t, ClassOf(i)) == if ClassOf(i) == c then q else Queue(s, ClassOf(i));
    }
  }

  function ClassOf(i: nat): (c: Class)
    requires i < 7
    ensures Code(c) == i
  {
    [Control, Service, Update, Telemetry, Events, Logs, Traces][i]
  }

  /** Either turn of the drain loop leaves less of the same drain to do. */
  lemma DrainShrinks(s: State, c: Class, l: Link, env: TickEnv)
    requires Shaped(s) && l.budget > 0 && Queue(s, c) != []
    ensures var e := Queue(s, c)[0];
            if Intercepts(s, c) then
              && Drain(s, c, l, env) == Drain(AfterAnswer(s, env), c, l, env)
              && Queries(Queue(AfterAnswer(s, env), c)) < Queries(Queue(s, c))
            else if Affordable(e, l) && |e| <= env.rooms(l.asked) then
              var t := Sent(s, c, env.rooms(l.asked));
              && Drain(s, c, l, env) == Drain(t, c, Charged(l, e), env)
              && Queries(Queue(t, c)) <= Queries(Queue(s, c)) && |Queue(t, c)| < |Queue(s, c)|
            else Drain(s, c, l, env) == Drained(s, if Affordable(e, l) then l.(asked := l.asked + 1) else l)
  {
    match NextMove(s, c, l, env)
    case Stop(_) =>
    case Answer => AnsweringRemovesQuery(s, env);
    case Send(room) => QueriesHead(Queue(s, c));
  }

  lemma DrainEnds(s: State, c: Class, l: Link, env: TickEnv)
    requires Shaped(s) && (l.budget == 0 || Queue(s, c) == [])
    ensures Drain(s, c, l, env) == Drained(s, l)
  {
  }

  lemma ReplacedQueue(s: State, c: Class, f: Frame)
    requires Shaped(s) && Queue(s, c) != []
    ensures Append(Popped(s, c), c, Queue(s, c)[1..], f) == Append(s, c, Queue(s, c)[1..], f)
  {
  }

  lemma PushAllNext(s: State, c: Class, fs: seq<Frame>, f: nat)
    requires Shaped(s) && f < |fs|
    ensures PushAll(s, c, fs[..f + 1]) == Push(PushAll(s, c, fs[..f]), c, fs[f])
  {
    assert fs[..f + 1][..f] == fs[..f];
  }

  lemma CountOf(h: Codec.Header, stream: seq<Byte>, fs: seq<Frame>)
    requires |stream| <= 5 * CHUNK && fs == Fragments(h, stream)
    ensures |fs| == if |stream| == 0 then 1 else (|stream| + CHUNK - 1) / CHUNK
  {
  }

  class Sink {
    const control: StaticQueue<Frame>
    const service: StaticQueue<Frame>
    const telemetry: StaticQueue<Frame>
    const events: StaticQueue<Frame>
    const logs: StaticQueue<Frame>
    const traces: StaticQueue<Frame>
    /** Drop to be reported (producer). */
    var dropPending: Option<Class>
    /** A capture is on its way (producer), and the sink is to report its delivery. */
    var pending: bool
    var flag: bool
    /** Snapshot documents assembled so far. */
    var answers: nat
    /** Frames handed to the link so far. */
    var wire: seq<Packet>
    ghost var accepted: seq<seq<Frame>>
    ghost var captures: seq<Capture>
    ghost var drops: seq<Class>
    ghost var reports: seq<Report>

    function QueueFor(c: Class): StaticQueue<Frame>
      requires c != Update
    {
      match c
      case Control => control
      case Service => service
      case Telemetry => telemetry
      case Events => events
      case Logs => logs
      case Traces => traces
    }

    ghost function Parts(): set<object> {
      {control, control.items, service, service.items, telemetry, telemetry.items,
       events, events.items, logs, logs.items, traces, traces.items}
    }

    ghost predicate Apart() {
      forall c: Class, d: Class :: c != Update && d != Update && c != d ==>
        QueueFor(c) != QueueFor(d) && QueueFor(c).items != QueueFor(d).items
    }

    ghost predicate Valid()
      reads this, Parts()
    {
      && Apart() && |accepted| == 7
      && control.Valid() && service.Valid() && telemetry.Valid() && events.Valid() && logs.Valid() && traces.Valid()
      && control.items.Length == Capacity(Control) && service.items.Length == Capacity(Service)
      && telemetry.items.Length == Capacity(Telemetry) && events.items.Length == Capacity(Events)
      && logs.items.Length == Capacity(Logs) && traces.items.Length == Capacity(Traces)
    }

    ghost function View(): (s: State)
      requires Valid()
      reads this, Parts()
      ensures Shaped(s)
    {
      State([control.View(), service.View(), [], telemetry.View(), events.View(), logs.View(), traces.View()],
            dropPending, pending, flag, answers, wire, accepted, captures, drops, reports)
    }

    lemma QueueView(c: Class)
      requires Valid()
      ensures Queue(View(), c) == if c == Update then [] else QueueFor(c).View()
    {
    }

    constructor ()
      ensures Valid() && View() == EMPTY && fresh(Parts())
    {
      control := new StaticQueue<Frame>(16, []);
      service := new StaticQueue<Frame>(8, []);
      telemetry := new StaticQueue<Frame>(8, []);
      events := new StaticQueue<Frame>(32, []);
      logs := new StaticQueue<Frame>(32, []);
      traces := new StaticQueue<Frame>(16, []);
      dropPending, pending, flag, answers, wire := None, false, false, 0, [];
      accepted, captures, drops, reports := [[], [], [], [], [], [], []], [], [], [];
      new;
      assert fresh(Parts());
      FreshValid();
      EmptyView();
    }

    lemma FreshValid()
      requires control.Valid() && service.Valid() && telemetry.Valid()
               && events.Valid() && logs.Valid() && traces.Valid()
      requires control.items.Length == 16 && service.items.Length == 8 && telemetry.items.Length == 8
      requires events.items.Length == 32 && logs.items.Length == 32 && traces.items.Length == 16
      requires |accepted| == 7
      requires control !in {service, telemetry, events, logs, traces} && service !in {telemetry, events, logs, traces}
      requires telemetry !in {events, logs, traces} && events !in {logs, traces} && logs != traces
      requires control.items !in {service.items, telemetry.items, events.items, logs.items, traces.items}
      requires service.items !in {telemetry.items, events.items, logs.items, traces.items}
      requires telemetry.items !in {events.items, logs.items, traces.items}
      requires events.items !in {logs.items, traces.items} && logs.items != traces.items
      ensures Valid()
    {
    }

    lemma EmptyView()
      requires Valid() && control.size == 0 && service.size == 0 && telemetry.size == 0
      requires events.size == 0 && logs.size == 0 && traces.size == 0
      requires dropPending == None && !pending && !flag && answers == 0
      requires wire == [] && captures == [] && drops == [] && reports == []
      requires accepted == [[], [], [], [], [], [], []]
      ensures View() == EMPTY
    {
      assert control.View() == [] && service.View() == [] && telemetry.View() == [];
      assert events.View() == [] && logs.View() == [] && traces.View() == [];
    }

    // -------------------------------------------------------------- one queue at a time

    /** All queues but that of `c` still hold what `s` says. */
    ghost predicate Others(s: State, c: Class)
      requires Valid() && Shaped(s)
      reads this, Parts()
    {
      forall d: Class :: d != c ==> Queue(s, d) == if d == Update then [] else QueueFor(d).View()
    }

    lemma OthersNow(c: Class)
      requires Valid()
      ensures Others(View(), c)
    {
      forall d: Class ensures Queue(View(), d) == if d == Update then [] else QueueFor(d).View() {
        QueueView(d);
      }
    }

    lemma OneChanged(s: State, c: Class)
      requires Valid() && c != Update && Shaped(s) && Others(s, c)
      ensures View().queues == s.queues[Code(c) := QueueFor(c).View()]
    {
      forall d: Class ensures Queue(View(), d) == if d == c then QueueFor(c).View() else Queue(s, d) {
        QueueView(d);
      }
      OneQueueChanged(s, View(), c, QueueFor(c).View());
    }

    method Insert(c: Class, f: Frame)
      requires Valid() && c != Update && |Queue(View(), c)| < Capacity(c)
      modifies QueueFor(c), QueueFor(c).items
      ensures Valid()
      ensures var s := old(View()); View() == s.(queues := s.queues[Code(c) := Queue(s, c) + [f]])
    {
      ghost var s := View();
      QueueView(c);
      OthersNow(c);
      var ok := QueueFor(c).Push(f);
      assert Apart() && Others(s, c) by {
        forall d: Class | d != c && d != Update ensures QueueFor(d).View() == old(QueueFor(d).View()) {
        }
      }
      OneChanged(s, c);
    }

    method Put(c: Class, f: Frame)
      requires Valid() && c != Update && |Queue(View(), c)| < Capacity(c)
      modifies this`accepted, QueueFor(c), QueueFor(c).items
      ensures Valid() && View() == Append(old(View()), c, Queue(old(View()), c), f)
    {
      Insert(c, f);
      accepted := accepted[Code(c) := accepted[Code(c)] + [f]];
    }

    method Take(c: Class) returns (f: Frame)
      requires Valid() && c != Update && Queue(View(), c) != []
      modifies QueueFor(c)
      ensures Valid() && f == Queue(old(View()), c)[0] && View() == Popped(old(View()), c)
    {
      ghost var s := View();
      QueueView(c);
      OthersNow(c);
      var ok;
      ok, f := QueueFor(c).Pop([]);
      assert Apart() && Others(s, c) by {
        forall d: Class | d != c && d != Update ensures QueueFor(d).View() == old(QueueFor(d).View()) {
        }
      }
      OneChanged(s, c);
    }

    /** Drops the oldest record for the sake of the new one. */
    method Replace(c: Class, f: Frame)
      requires Valid() && c != Update && |Queue(View(), c)| == Capacity(c) > 0
      modifies this`dropPending, this`drops, this`accepted, QueueFor(c), QueueFor(c).items
      ensures Valid()
      ensures var s := old(View()); View() == Dropped(Append(s, c, Queue(s, c)[1..], f), c)
    {
      ReplacedQueue(View(), c, f);
      var evicted := Take(c);
      Put(c, f);
      NoteDrop(c);
    }

    method NoteDrop(c: Class)
      requires Valid()
      modifies this`dropPending, this`drops
      ensures Valid() && View() == Dropped(old(View()), c)
    {
      dropPending := Some(c);
      drops := drops + [c];
    }

    // -------------------------------------------------------------- enqueue

    /** Never blocks; false when the record was refused. */
    method Enqueue(c: Class, data: seq<Byte>) returns (ok: bool)
      requires Valid()
      modifies this`dropPending, this`drops, this`accepted, Parts()
      ensures Valid()
      ensures View() == if |data| > MTU then old(View()) else Push(old(View()), c, data)
      ensures ok == (|data| <= MTU && c != Update &&
                     (|Queue(old(View()), c)| < Capacity(c) || c == Telemetry || c == Traces))
    {
      if |data| > MTU || c == Update {
        return false;
      }
      QueueView(c);
      var q := QueueFor(c);
      if q.size < q.items.Length {
        Put(c, data);
        return true;
      }
      if c == Telemetry || c == Traces {
        Replace(c, data);
        return true;
      }
      NoteDrop(c);
      return false;
    }

    /** Sends a byte stream as its fragments `fs`, of 114 bytes each behind their index and number. */
    method SendFragments(h: Codec.Header, stream: seq<Byte>, c: Class, ghost fs: seq<Frame>)
      requires Valid() && |stream| <= 5 * CHUNK && fs == Fragments(h, stream)
      modifies this`dropPending, this`drops, this`accepted, Parts()
      ensures Valid() && View() == PushAll(old(View()), c, fs)
    {
      var count := (|stream| + CHUNK - 1) / CHUNK;
      if count == 0 {
        count := 1;
      }
      CountOf(h, stream, fs);
      SendEach(h, stream, c, count, fs);
    }

    method SendEach(h: Codec.Header, stream: seq<Byte>, c: Class, count: nat, ghost fs: seq<Frame>)
      requires Valid() && |fs| == count < 256
      requires forall f :: 0 <= f < count ==> fs[f] == Fragment(h, stream, f, count)
      modifies this`dropPending, this`drops, this`accepted, Parts()
      ensures Valid() && View() == PushAll(old(View()), c, fs)
    {
      ghost var s := View();
      var offset := 0;
      for f := 0 to count
        invariant Valid() && offset == ChunkStart(f, |stream|)
        invariant View() == PushAll(s, c, fs[..f])
      {
        PushAllNext(s, c, fs, f);
        offset := SendFragment(h, stream, c, f, count, offset);
      }
      assert fs[..count] == fs;
    }

    method SendFragment(h: Codec.Header, stream: seq<Byte>, c: Class, f: nat, count: nat, offset: nat)
      returns (next: nat)
      requires Valid() && f < 256 && count < 256 && offset == ChunkStart(f, |stream|)
      modifies this`dropPending, this`drops, this`accepted, Parts()
      ensures Valid() && View() == Push(old(View()), c, Fragment(h, stream, f, count))
              && next == ChunkStart(f + 1, |stream|)
    {
      var take := if |stream| - offset < CHUNK then |stream| - offset else CHUNK;
      next := offset + take;
      assert stream[offset..next] == Chunk(stream, f);
      var ok := Enqueue(c, Codec.FrameOf(h, [f, count] + stream[offset..next]));
    }

    // -------------------------------------------------------------- tick

    /** A Query of one byte's payload is answered with the next snapshot document, any other dropped. */
    method HandleQuery(e: Frame, env: TickEnv)
      requires Valid() && |e| >= 12
      modifies this`answers, this`dropPending, this`drops, this`accepted, Parts()
      ensures Valid()
      ensures var s := old(View());
              View() == if |e| == 13 then PushAll(Numbered(s), Control, AnswerFrames(s.answers, e[10], env)) else s
    {
      if |e| == 13 {
        var doc := env.snapshot(answers, e[10]);
        ghost var fs := AnswerFrames(answers, e[10], env);
        CountAnswer();
        SendFragments(SNAPSHOT_HEADER, doc, Control, fs);
      }
    }

    method CountAnswer()
      requires Valid()
      modifies this`answers
      ensures Valid() && View() == Numbered(old(View()))
    {
      answers := answers + 1;
    }

    method InterceptQuery(env: TickEnv)
      requires Valid() && Intercepts(View(), Control)
      modifies this`answers, this`dropPending, this`drops, this`accepted, Parts()
      ensures Valid() && View() == AfterAnswer(old(View()), env)
    {
      var e := Take(Control);
      HandleQuery(e, env);
    }

    method Transmit(c: Class, room: nat)
      requires Valid() && c != Update && Queue(View(), c) != []
      modifies this`wire, this`captures, QueueFor(c)
      ensures Valid() && View() == Sent(old(View()), c, room)
    {
      var f := Take(c);
      Log(Packet(c, f, room));
    }

    method Log(p: Packet)
      requires Valid()
      modifies this`wire, this`captures
      ensures Valid() && View() == Logged(old(View()), p)
    {
      wire := wire + [p];
      if p.cls == Traces {
        captures := Counted(captures);
      }
    }

    lemma WaitingView(c: Class)
      requires Valid() && c != Update
      ensures QueueFor(c).size > 0 <==> Queue(View(), c) != []
    {
      QueueView(c);
    }

    method Head(c: Class) returns (e: Frame)
      requires Valid() && c != Update && Queue(View(), c) != []
      ensures e == Queue(View(), c)[0]
    {
      var ok;
      ok, e := QueueFor(c).Peek([]);
      QueueView(c);
    }

    /** One turn of the drain loop; false when the head has to wait. */
    method Turn(c: Class, l: Link, env: TickEnv) returns (more: bool, m: Link)
      requires Valid() && c != Update && l.budget > 0 && Queue(View(), c) != []
      modifies this`answers, this`dropPending, this`drops, this`accepted, this`wire, this`captures, Parts()
      ensures Valid()
      ensures var s := old(View()); var e := Queue(s, c)[0];
              if Intercepts(s, c) then more && View() == AfterAnswer(s, env) && m == l
              else
                && more == (Affordable(e, l) && |e| <= env.rooms(l.asked))
                && m == (if more then Charged(l, e) else if Affordable(e, l) then l.(asked := l.asked + 1) else l)
                && View() == if more then Sent(s, c, env.rooms(l.asked)) else s
    {
      var e := Head(c);
      if c == Control && IsQuery(e) {
        InterceptQuery(env);
        return true, l;
      }
      more, m := TrySend(c, e, l, env);
    }

    /** Sends the head `e` unless the class cap, the link budget or the link's room stands against it. */
    method TrySend(c: Class, e: Frame, l: Link, env: TickEnv) returns (more: bool, m: Link)
      requires Valid() && c != Update && Queue(View(), c) != [] && e == Queue(View(), c)[0]
      modifies this`wire, this`captures, QueueFor(c)
      ensures Valid() && more == (Affordable(e, l) && |e| <= env.rooms(l.asked))
      ensures m == if more then Charged(l, e) else if Affordable(e, l) then l.(asked := l.asked + 1) else l
      ensures View() == if more then Sent(old(View()), c, env.rooms(l.asked)) else old(View())
    {
      m := l;
      if m.spent + |e| > CLASS_CAP {
        return false, m;
      }
      if |e| > m.budget {
        return false, m;
      }
      var room := env.rooms(m.asked);
      m := m.(asked := m.asked + 1);
      if |e| > room {
        return false, m;
      }
      Transmit(c, room);
      m := m.(budget := m.budget - |e|, spent := m.spent + |e|);
      more := true;
    }

    /** Empties one queue as far as the class cap, the link budget and the link's room allow. */
    method DrainQueue(c: Class, l: Link, env: TickEnv) returns (m: Link)
      requires Valid() && c != Update
      modifies this`answers, this`dropPending, this`drops, this`accepted, this`wire, this`captures, Parts()
      ensures Valid() && Drained(View(), m) == DrainClass(old(View()), c, l, env)
    {
      m := l;
      ghost var result := Drain(View(), c, l, env);
      while m.budget > 0 && QueueFor(c).size > 0
        invariant Valid() && Drain(View(), c, m, env) == result
        decreases Queries(Queue(View(), c)), |Queue(View(), c)|
      {
        WaitingView(c);
        DrainShrinks(View(), c, m, env);
        var more;
        more, m := Turn(c, m, env);
        if !more {
          return;
        }
      }
      WaitingView(c);
      DrainEnds(View(), c, m, env);
    }

    method ReportDelivery()
      requires Valid()
      modifies this`flag, this`pending
      ensures Valid() && View() == Delivered(old(View()))
    {
      if flag && traces.size == 0 {
        flag := false;
        pending := false;
      }
    }

    method FlushPendingDrop(env: TickEnv)
      requires Valid()
      modifies this`dropPending, this`drops, this`reports, this`accepted, Parts()
      ensures Valid() && View() == Flushed(old(View()), env)
    {
      if dropPending.Some? {
        if events.size < events.items.Length {
          var c := ClearDrop(env);
          var ok := Enqueue(Events, env.dropEvent(c));
        }
      }
    }

    method ClearDrop(ghost env: TickEnv) returns (c: Class)
      requires Valid() && dropPending.Some?
      modifies this`dropPending, this`reports
      ensures Valid() && c == old(dropPending.value) && View() == Reporting(old(View()), env)
    {
      c := dropPending.value;
      dropPending := None;
      reports := reports + [Report(c, |drops|, |accepted[Code(Events)]|, env.dropEvent(c))];
    }

    method RunTick(env: TickEnv)
      requires Valid()
      modifies this, Parts()
      ensures Valid() && View() == Tick(old(View()), env)
    {
      var link := Answers(env);
      link := Records(link, env);
      link := Rest(link, env);
      FlushPendingDrop(env);
    }

    method Answers(env: TickEnv) returns (m: Link)
      requires Valid()
      modifies this, Parts()
      ensures Valid() && Drained(View(), m) == AnswersDrained(old(View()), env)
    {
      m := DrainQueue(Control, Link(LINK_BUDGET, 0, 0), env);
      m := DrainQueue(Service, m, env);
    }

    method Records(l: Link, env: TickEnv) returns (m: Link)
      requires Valid()
      modifies this, Parts()
      ensures Valid() && Drained(View(), m) == RecordsDrained(Drained(old(View()), l), env)
    {
      m := DrainQueue(Events, l.(spent := 0), env);
      m := DrainQueue(Logs, m.(spent := 0), env);
    }

    method Rest(l: Link, env: TickEnv) returns (m: Link)
      requires Valid()
      modifies this, Parts()
      ensures Valid() && Drained(View(), m) == RestDrained(Drained(old(View()), l), env)
    {
      m := DrainQueue(Traces, l.(spent := 0), env);
      ReportDelivery();
      m := DrainQueue(Telemetry, m.(spent := 0), env);
    }

    // -------------------------------------------------------------- captures

    method DropPendingCapture()
      requires Valid()
      modifies traces
      ensures Valid() && View() == old(View()).(queues := old(View()).queues[Code(Traces) := []])
    {
      ghost var s := View();
      assert QueueFor(Traces) == traces;
      OthersNow(Traces);
      traces.Clear();
      OneChanged(s, Traces);
    }

    method Supersede(notice: Frame)
      requires Valid()
      modifies this`dropPending, this`drops, this`accepted, Parts()
      ensures Valid() && View() == Superseded(old(View()), notice)
    {
      if pending {
        var ok := Enqueue(Events, notice);
        DropPendingCapture();
      }
    }

    method StartFaultCapture(head: seq<Byte>, staging: seq<Byte>, notice: Frame)
      requires Valid() && Sized(head, staging)
      modifies this, Parts()
      ensures Valid() && View() == StartCapture(old(View()), head, staging, notice)
    {
      Supersede(notice);
      Deliver(head, staging);
    }

    /** Queues a whole capture; it is pending until the trace queue has run empty. */
    method Deliver(head: seq<Byte>, staging: seq<Byte>)
      requires Valid() && Sized(head, staging)
      modifies this, Parts()
      ensures Valid()
      ensures var s := old(View()); var fs := CaptureFrames(head, staging);
              View() == PushAll(s.(pending := true), Traces, fs)
                          .(flag := true, captures := Closed(s.captures, s.pending) + [Capture(fs, 0, false)])
    {
      ghost var before := Closed(captures, pending);
      NoteStart();
      SendFragments(TRACE_HEADER, head + staging, Traces, CaptureFrames(head, staging));
      NoteQueued(before, head, staging);
    }

    method NoteStart()
      requires Valid()
      modifies this`pending
      ensures Valid() && View() == old(View()).(pending := true)
    {
      pending := true;
    }

    method NoteQueued(ghost before: seq<Capture>, head: seq<Byte>, staging: seq<Byte>)
      requires Valid() && Sized(head, staging)
      modifies this`flag, this`captures
      ensures Valid()
      ensures View() == old(View()).(flag := true,
                                     captures := before + [Capture(CaptureFrames(head, staging), 0, false)])
    {
      flag := true;
      captures := before + [Capture(CaptureFrames(head, staging), 0, false)];
    }
  }
}
