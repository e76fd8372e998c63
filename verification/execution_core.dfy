/** The step ring and the kernel around it, in place. */
module ExecutionCore {
  import opened Ring
  import opened Kernel
  import opened Words

  class StepRing {
    const steps: array<StepEntry>
    var head: nat
    var count: nat

    ghost predicate Valid()
      reads this
    {
      steps.Length == MAX_STEPS && head < MAX_STEPS && count <= MAX_STEPS
    }

    ghost function View(): (q: seq<StepEntry>)
      requires Valid()
      reads this, steps
      ensures |q| == count
      ensures forall i :: 0 <= i < count ==> q[i] == steps[At(head, i, MAX_STEPS)]
    {
      seq(count, i requires Valid() && 0 <= i < count reads this, steps => steps[At(head, i, MAX_STEPS)])
    }

    constructor ()
      ensures Valid() && View() == [] && fresh(steps)
    {
      steps := new StepEntry[MAX_STEPS](_ => StepEntry(0, 0, 0, 0));
      head, count := 0, 0;
    }

    method Enqueue(e: StepEntry) returns (a: Answer)
      requires Valid()
      modifies this, steps
      ensures Valid() && a == (if |old(View())| >= MAX_STEPS then QueueFull else Ok)
      ensures View() == if a == Ok then old(View()) + [e] else old(View())
    {
      if count >= MAX_STEPS {
        return QueueFull;
      }
      steps[At(head, count, MAX_STEPS)] := e;
      count := count + 1;
      assert View() == old(View()) + [e];
      return Ok;
    }

    method DropHead()
      requires Valid() && View() != []
      modifies this
      ensures Valid() && View() == old(View())[1..]
    {
      head := At(head, 1, MAX_STEPS);
      count := count - 1;
      assert View() == old(View())[1..];
    }
  }

  class Core {
    const ring: StepRing
    var lastTick: Time
    var events: seq<KernelEvent>
    ghost var accepted: seq<StepEntry>
    ghost var ran: seq<nat>

    ghost predicate Valid()
      reads this, ring
    {
      ring.Valid()
    }

    ghost function View(): State
      requires Valid()
      reads this, ring, ring.steps
    {
      State(ring.View(), lastTick, events, accepted, ran)
    }

    /** Starts the kernel at time `now`. */
    constructor (now: Time)
      ensures Valid() && View() == State([], now, [], [], []) && fresh(ring) && fresh(ring.steps)
      ensures Inv(View()) && Ordered(View(), now)
    {
      ring := new StepRing();
      lastTick, events, accepted, ran := now, [], [], [];
    }

    /** May also be called by a running step. */
    method ScheduleStep(r: Request) returns (a: Answer)
      requires Valid()
      modifies this`events, this`accepted, ring, ring.steps
      ensures Valid() && View() == Schedule(old(View()), r)
      ensures a == if !InWindow(r) then DeadlineOutOfWindow
                   else if |old(View()).queue| >= MAX_STEPS then QueueFull else Ok
    {
      var delta := Signed(r.deadline, Low(r.now));
      if delta < 0 || delta > STEP_BUDGET {
        return DeadlineOutOfWindow;
      }
      if ring.count >= MAX_STEPS {
        events := events + [ScheduleRejected];
        return QueueFull;
      }
      a := ring.Enqueue(StepEntry(r.fn, r.deadline, r.now + delta, r.now));
      accepted := accepted + [Entry(r)];
    }

    method RunWork(rs: seq<Request>)
      requires Valid()
      modifies this`events, this`accepted, ring, ring.steps
      ensures Valid() && View() == ScheduleAll(old(View()), rs)
    {
      ghost var s := View();
      for i := 0 to |rs|
        invariant Valid() && View() == ScheduleAll(s, rs[..i])
      {
        assert rs[..i + 1][..i] == rs[..i];
        var a := ScheduleStep(rs[i]);
      }
      assert rs[..|rs|] == rs;
    }

    /** Executes the head if it is due; it leaves the ring only after it has run. */
    method RunNext(now: Time, w: Work)
      requires Valid() && Inv(View())
      modifies this`events, this`accepted, this`ran, ring, ring.steps
      ensures Valid()
      ensures var s := old(View());
              View() == if s.queue != [] && IsDue(s.queue[0], now) then RunHead(s, now, w) else s
    {
      if ring.count == 0 {
        return;
      }
      var e := ring.steps[ring.head];
      assert e == View().queue[0];
      if Signed(Low(now), e.deadline) < 0 {
        return;
      }
      ScheduleAllKeepsInv(View(), w(e));
      RunWork(w(e));
      ring.DropHead();
      ran := ran + [now];
    }

    method NoteGap(now: Time)
      requires Valid()
      modifies this`lastTick, this`events
      ensures Valid() && View() == GapNoted(old(View()), now)
    {
      var gap := Forward(now, lastTick);
      if gap > 3 * STEP_BUDGET {
        events := events + [SchedulerGap(gap)];
      }
      if gap > 0 {
        lastTick := now;
      }
    }

    method ProcessTick(now: Time, w: Work)
      requires Valid() && Inv(View())
      modifies this, ring, ring.steps
      ensures Valid() && Inv(View()) && View() == Tick(old(View()), now, w)
    {
      TickRuns(View(), now, w);
      NoteGap(now);
      RunNext(now, w);
    }
  }
}
