/** The cooperative kernel: a ring of 64 steps with 32-bit deadlines, of which each tick runs at most the head.
    Times are true milliseconds; the code only sees their low 32 bits in deadlines. */
module Kernel {
  import opened Sequences
  import opened Words

  const MAX_STEPS := 64
  const STEP_BUDGET := 10
  const HALF := 0x8000_0000
  const HALF64 := 0x8000_0000_0000_0000

  type Time = n: nat | n < U64

  /** A queued step. `due` is the true time its 32-bit deadline stands for and `at` the time it was accepted;
      the code stores neither. */
  datatype StepEntry = StepEntry(fn: int, deadline: Word, due: nat, at: Time)

  /** One call of `schedule`, made at time `now`. */
  datatype Request = Request(fn: int, deadline: Word, now: Time)

  datatype Answer = Ok | QueueFull | DeadlineOutOfWindow

  datatype KernelEvent = ScheduleRejected | SchedulerGap(ms: nat)

  /** `accepted` is every step ever taken into the ring, `ran` the time at which each executed one started. */
  datatype State = State(
    queue: seq<StepEntry>, lastTick: Time, events: seq<KernelEvent>, accepted: seq<StepEntry>, ran: seq<nat>)

  /** What a running step asks to be scheduled, in order. */
  type Work = StepEntry -> seq<Request>

  /** The 32-bit difference read as a signed number. */
  function Signed(a: Word, b: Word): int
  {
    var d := if a >= b then a - b else a + U32 - b;
    if d < HALF then d else d - U32
  }

  predicate InWindow(r: Request)
  {
    0 <= Signed(r.deadline, Low(r.now)) <= STEP_BUDGET
  }

  function Entry(r: Request): StepEntry
    requires InWindow(r)
  {
    StepEntry(r.fn, r.deadline, r.now + Signed(r.deadline, Low(r.now)), r.now)
  }

  function Schedule(s: State, r: Request): State
  {
    if !InWindow(r) then s
    else if |s.queue| >= MAX_STEPS then s.(events := s.events + [ScheduleRejected])
    else s.(queue := s.queue + [Entry(r)], accepted := s.accepted + [Entry(r)])
  }

  function ScheduleAll(s: State, rs: seq<Request>): State
  {
    if rs == [] then s else Schedule(ScheduleAll(s, rs[..|rs| - 1]), rs[|rs| - 1])
  }

  predicate IsDue(e: StepEntry, now: nat)
  {
    Signed(Low(now), e.deadline) >= 0
  }

  /** The head runs, scheduling what it likes while it still counts as queued, and only then leaves. */
  function RunHead(s: State, now: nat, w: Work): State
    requires s.queue != []
  {
    var t := ScheduleAll(s, w(s.queue[0]));
    t.(queue := if t.queue == [] then [] else t.queue[1..], ran := t.ran + [now])
  }

  /** Forward progress since the latest tick seen, as the signed 64-bit difference gives it. */
  function Forward(now: Time, last: Time): nat
  {
    var d := if now >= last then now - last else now + U64 - last;
    if d < HALF64 then d else 0
  }

  function GapNoted(s: State, now: Time): State
  {
    var gap := Forward(now, s.lastTick);
    s.(events := if gap > 3 * STEP_BUDGET then s.events + [SchedulerGap(gap)] else s.events,
       lastTick := if gap > 0 then now else s.lastTick)
  }

  function Tick(s: State, now: Time, w: Work): State {
    var t := GapNoted(s, now);
    if t.queue != [] && IsDue(t.queue[0], now) then RunHead(t, now, w) else t
  }

  // ---------------------------------------------------------------- runs

  datatype Action = TickAction(now: Time, w: Work) | ScheduleAction(r: Request)

  function Step(s: State, a: Action): State {
    match a
    case TickAction(now, w) => Tick(s, now, w)
    case ScheduleAction(r) => Schedule(s, r)
  }

  function Run(s: State, acts: seq<Action>): State {
    if acts == [] then s else Step(Run(s, acts[..|acts| - 1]), acts[|acts| - 1])
  }

  // ---------------------------------------------------------------- order

  /** What was executed, then what is queued, is what was accepted; and each queued deadline stands for a time
      at most one budget after its acceptance. */
  ghost predicate Inv(s: State) {
    && |s.queue| <= MAX_STEPS && |s.ran| <= |s.accepted|
    && s.queue == s.accepted[|s.ran|..]
    && forall i :: 0 <= i < |s.accepted| ==> Sound(s.accepted[i])
  }

  predicate Sound(e: StepEntry) {
    e.at <= e.due <= e.at + STEP_BUDGET && e.deadline == Low(e.due)
  }

  lemma SignedIsDifference(a: nat, b: nat)
    requires -HALF <= a - b < HALF
    ensures Signed(Low(a), Low(b)) == a - b
  {
    Halves(a);
    Halves(b);
    Difference(High(a), Low(a), High(b), Low(b));
  }

  lemma Difference(j: nat, p: Word, k: nat, q: Word)
    requires -HALF <= (U32 * j + p) - (U32 * k + q) < HALF
    ensures Signed(p, q) == (U32 * j + p) - (U32 * k + q)
  {
  }

  lemma EntrySound(r: Request)
    requires InWindow(r)
    ensures Sound(Entry(r))
  {
    var d := Signed(r.deadline, Low(r.now));
    var due: nat := r.now + d;
    Halves(r.now);
    Halves(due);
    SameLow(High(r.now), Low(r.now), High(due), Low(due), r.deadline);
  }

  lemma SameLow(k: nat, p: Word, j: nat, q: Word, w: Word)
    requires 0 <= Signed(w, p) && U32 * j + q == U32 * k + p + Signed(w, p)
    ensures q == w
  {
  }

  /** The due test is exact while a step has waited less than 2^31 ms, across any number of wraps. */
  lemma DueIsExact(e: StepEntry, now: Time)
    requires Sound(e) && -0x8000_0000 <= now - e.due < 0x8000_0000
    ensures IsDue(e, now) <==> e.due <= now
  {
    SignedIsDifference(now, e.due);
  }

  lemma ScheduleKeepsInv(s: State, r: Request)
    requires Inv(s)
    ensures Inv(Schedule(s, r))
    ensures s.accepted <= Schedule(s, r).accepted && Schedule(s, r).ran == s.ran && s.queue <= Schedule(s, r).queue
  {
    if InWindow(r) { EntrySound(r); }
  }

  lemma {:induction false} ScheduleAllKeepsInv(s: State, rs: seq<Request>)
    requires Inv(s)
    ensures var t := ScheduleAll(s, rs);
            && Inv(t) && s.accepted <= t.accepted && t.ran == s.ran && s.queue <= t.queue && t.lastTick == s.lastTick
    decreases |rs|
  {
    if rs != [] {
      ScheduleAllKeepsInv(s, rs[..|rs| - 1]);
      ScheduleKeepsInv(ScheduleAll(s, rs[..|rs| - 1]), rs[|rs| - 1]);
    }
  }

  /** A tick executes the head exactly when it is due, and nothing else. */
  lemma TickRuns(s: State, now: Time, w: Work)
    requires Inv(s)
    ensures var t := Tick(s, now, w);
            && Inv(t) && s.accepted <= t.accepted
            && t.ran == (if s.queue != [] && IsDue(s.queue[0], now) then s.ran + [now] else s.ran)
  {
    var t := GapNoted(s, now);
    if t.queue != [] {
      ScheduleAllKeepsInv(t, w(t.queue[0]));
      var u := ScheduleAll(t, w(t.queue[0]));
      assert u.queue[1..] == u.accepted[|u.ran| + 1..];
    }
  }

  // ---------------------------------------------------------------- what gets into the ring

  /** The 32-bit deadline stands for `d` ms after the call, ten at most. */
  predicate DueIn(r: Request, d: nat) {
    d <= 10 && r.deadline == (r.now + d) % U32
  }

  lemma WindowIs(r: Request)
    requires InWindow(r)
    ensures DueIn(r, Signed(r.deadline, Low(r.now)))
  {
    EntrySound(r);
  }

  lemma DueInIsWindow(r: Request, d: nat)
    requires DueIn(r, d)
    ensures InWindow(r) && Signed(r.deadline, Low(r.now)) == d
  {
    SignedIsDifference(r.now + d, r.now);
  }

  /** The step asked for, if its deadline is 0 to 10 ms ahead. */
  ghost function WantedBy(r: Request): seq<StepEntry> {
    if d: nat :| DueIn(r, d) then [StepEntry(r.fn, r.deadline, r.now + d, r.now)] else []
  }

  ghost function Wanted(rs: seq<Request>): seq<StepEntry> {
    if rs == [] then [] else Wanted(rs[..|rs| - 1]) + WantedBy(rs[|rs| - 1])
  }

  /** How many of `n` steps fit behind `queued` others. */
  function Room(queued: nat, n: nat): nat {
    if queued + n <= 64 then n else if queued < 64 then 64 - queued else 0
  }

  function Rejections(n: nat): seq<KernelEvent> {
    seq(n, _ => ScheduleRejected)
  }

  lemma ScheduleTakes(s: State, r: Request)
    ensures var t := Schedule(s, r); var ws := WantedBy(r);
            && t.ran == s.ran && t.lastTick == s.lastTick && |ws| <= 1
            && (if ws != [] && |s.queue| < 64 then
                  t.queue == s.queue + ws && t.accepted == s.accepted + ws && t.events == s.events
                else t.queue == s.queue && t.accepted == s.accepted && t.events == s.events + Rejections(|ws|))
  {
    if InWindow(r) { WindowIs(r); }
    if d: nat :| DueIn(r, d) { DueInIsWindow(r, d); }
    forall d: nat | DueIn(r, d) ensures Signed(r.deadline, Low(r.now)) == d {
      DueInIsWindow(r, d);
    }
  }

  /** Of several requests the steps wanted are queued in order while there is room, and each further one is
      reported as rejected. */
  lemma {:induction false} ScheduleAllTakes(s: State, rs: seq<Request>)
    requires |s.queue| <= 64
    ensures var t := ScheduleAll(s, rs); var ws := Wanted(rs); var k := Room(|s.queue|, |ws|);
            && t.queue == s.queue + ws[..k] && t.accepted == s.accepted + ws[..k]
            && t.events == s.events + Rejections(|ws| - k) && t.ran == s.ran && t.lastTick == s.lastTick
    decreases |rs|
  {
    if rs == [] {
      assert s.queue + [] == s.queue && s.accepted + [] == s.accepted && s.events + Rejections(0) == s.events;
    } else {
      var n := |rs| - 1;
      ScheduleAllTakes(s, rs[..n]);
      ScheduleTakes(ScheduleAll(s, rs[..n]), rs[n]);
      OneMore(s, ScheduleAll(s, rs[..n]), ScheduleAll(s, rs), Wanted(rs[..n]), WantedBy(rs[n]));
    }
  }

  lemma OneMore(s: State, t: State, u: State, ws: seq<StepEntry>, x: seq<StepEntry>)
    requires |s.queue| <= 64 && |x| <= 1
    requires var k := Room(|s.queue|, |ws|);
             t.queue == s.queue + ws[..k] && t.accepted == s.accepted + ws[..k]
             && t.events == s.events + Rejections(|ws| - k)
    requires if x != [] && |t.queue| < 64 then
               u.queue == t.queue + x && u.accepted == t.accepted + x && u.events == t.events
             else u.queue == t.queue && u.accepted == t.accepted && u.events == t.events + Rejections(|x|)
    ensures var k := Room(|s.queue|, |ws + x|);
            && u.queue == s.queue + (ws + x)[..k] && u.accepted == s.accepted + (ws + x)[..k]
            && u.events == s.events + Rejections(|ws + x| - k)
  {
    var k, m := Room(|s.queue|, |ws|), Room(|s.queue|, |ws + x|);
    if x != [] && |t.queue| < 64 {
      assert k == |ws| && m == |ws + x|;
      assert ws[..k] == ws && (ws + x)[..m] == ws + x;
      Regroup(s.queue, ws, x);
      Regroup(s.accepted, ws, x);
    } else {
      assert m == k && (ws + x)[..m] == ws[..k];
      Regroup(s.events, Rejections(|ws| - k), Rejections(|x|));
      assert Rejections(|ws| - k) + Rejections(|x|) == Rejections(|ws + x| - m);
    }
  }

  /** What a running step schedules gets into the ring: after a tick with the head due, the head is gone and behind
      the others stand the steps it asked for with a deadline 0 to 10 ms ahead, in order, as many as fit in 64 with
      the head itself counted; each further one is reported as rejected. */
  lemma TickSchedules(s: State, now: Time, w: Work)
    requires Inv(s) && s.queue != [] && IsDue(s.queue[0], now)
    ensures var t := Tick(s, now, w); var ws := Wanted(w(s.queue[0])); var k := Room(|s.queue|, |ws|);
            && t.queue == s.queue[1..] + ws[..k] && t.accepted == s.accepted + ws[..k] && t.ran == s.ran + [now]
            && t.events == GapNoted(s, now).events + Rejections(|ws| - k)
  {
    var t := GapNoted(s, now);
    ScheduleAllTakes(t, w(s.queue[0]));
  }

  /** With no head due nothing is run or scheduled. */
  lemma TickIdles(s: State, now: Time, w: Work)
    requires s.queue == [] || !IsDue(s.queue[0], now)
    ensures Tick(s, now, w) == GapNoted(s, now)
    ensures Tick(s, now, w).queue == s.queue && Tick(s, now, w).accepted == s.accepted
  {
  }

  lemma StepKeepsInv(s: State, a: Action)
    requires Inv(s)
    ensures Inv(Step(s, a)) && s.accepted <= Step(s, a).accepted && s.ran <= Step(s, a).ran
  {
    match a
    case TickAction(now, w) => TickRuns(s, now, w);
    case ScheduleAction(r) => ScheduleKeepsInv(s, r);
  }

  lemma {:induction false} RunKeepsInv(s: State, acts: seq<Action>)
    requires Inv(s)
    ensures Inv(Run(s, acts)) && s.accepted <= Run(s, acts).accepted && s.ran <= Run(s, acts).ran
    decreases |acts|
  {
    if acts != [] {
      RunKeepsInv(s, acts[..|acts| - 1]);
      StepKeepsInv(Run(s, acts[..|acts| - 1]), acts[|acts| - 1]);
    }
  }

  // ---------------------------------------------------------------- bounded waiting

  /** The time of the last of `rs`, or `now` if there is none. */
  function Ends(now: nat, rs: seq<Request>): nat {
    if rs == [] then now else rs[|rs| - 1].now
  }

  predicate Rising(now: nat, rs: seq<Request>) {
    rs == [] || (Rising(now, rs[..|rs| - 1]) && Ends(now, rs[..|rs| - 1]) <= rs[|rs| - 1].now)
  }

  /** The latest time after one action that begins at `clock` or later. */
  function ClockAfter(s: State, a: Action): nat {
    match a
    case TickAction(now, w) => if s.queue != [] && IsDue(s.queue[0], now) then Ends(now, w(s.queue[0])) else now
    case ScheduleAction(r) => r.now
  }

  /** The clock does not step back during `a`, and no step has been queued for 2^31 ms when a tick looks at it. */
  predicate Punctual(s: State, clock: nat, a: Action) {
    match a
    case TickAction(now, w) =>
      clock <= now && (s.queue != [] ==> now < s.queue[0].at + HALF && Rising(now, w(s.queue[0])))
    case ScheduleAction(r) => clock <= r.now
  }

  function Clock(s: State, clock: nat, acts: seq<Action>): nat {
    if acts == [] then clock else ClockAfter(Run(s, acts[..|acts| - 1]), acts[|acts| - 1])
  }

  predicate Timed(s: State, clock: nat, acts: seq<Action>) {
    acts == [] ||
    (Timed(s, clock, acts[..|acts| - 1]) &&
     Punctual(Run(s, acts[..|acts| - 1]), Clock(s, clock, acts[..|acts| - 1]), acts[|acts| - 1]))
  }

  /** Steps were accepted in the order of the clock. */
  ghost predicate Ordered(s: State, clock: nat) {
    && (forall i, j :: 0 <= i <= j < |s.accepted| ==> s.accepted[i].at <= s.accepted[j].at)
    && (forall i :: 0 <= i < |s.accepted| ==> s.accepted[i].at <= clock)
  }

  lemma ScheduleOrdered(s: State, clock: nat, r: Request)
    requires Ordered(s, clock) && clock <= r.now
    ensures Ordered(Schedule(s, r), r.now)
  {
  }

  lemma {:induction false} ScheduleAllOrdered(s: State, now: nat, rs: seq<Request>)
    requires Ordered(s, now) && Rising(now, rs)
    ensures Ordered(ScheduleAll(s, rs), Ends(now, rs))
    decreases |rs|
  {
    if rs != [] {
      var n := |rs| - 1;
      ScheduleAllOrdered(s, now, rs[..n]);
      ScheduleOrdered(ScheduleAll(s, rs[..n]), Ends(now, rs[..n]), rs[n]);
    }
  }

  lemma StepOrdered(s: State, clock: nat, a: Action)
    requires Ordered(s, clock) && Punctual(s, clock, a)
    ensures Ordered(Step(s, a), ClockAfter(s, a))
  {
    match a
    case TickAction(now, w) =>
      var t := GapNoted(s, now);
      assert Ordered(t, now);
      if t.queue != [] && IsDue(t.queue[0], now) {
        ScheduleAllOrdered(t, now, w(t.queue[0]));
      }
    case ScheduleAction(r) => ScheduleOrdered(s, clock, r);
  }

  lemma {:induction false} RunOrdered(s: State, clock: nat, acts: seq<Action>)
    requires Ordered(s, clock) && Timed(s, clock, acts)
    ensures Ordered(Run(s, acts), Clock(s, clock, acts))
    decreases |acts|
  {
    if acts != [] {
      RunOrdered(s, clock, acts[..|acts| - 1]);
      StepOrdered(Run(s, acts[..|acts| - 1]), Clock(s, clock, acts[..|acts| - 1]), acts[|acts| - 1]);
    }
  }

  /** A tick that finds the head due runs it, and no other tick runs anything. */
  lemma PunctualTick(s: State, clock: nat, now: Time, w: Work)
    requires Inv(s) && Ordered(s, clock) && Punctual(s, clock, TickAction(now, w)) && s.queue != []
    ensures IsDue(s.queue[0], now) <==> s.queue[0].due <= now
    ensures s.queue[0] == s.accepted[|s.ran|]
  {
    assert Sound(s.accepted[|s.ran|]);
    DueIsExact(s.queue[0], now);
  }

  /** No step runs before its deadline. */
  lemma {:induction false} NeverEarly(s: State, clock: nat, acts: seq<Action>, i: nat)
    requires Inv(s) && Ordered(s, clock) && Timed(s, clock, acts)
    requires |s.ran| <= i < |Run(s, acts).ran|
    ensures i < |Run(s, acts).accepted| && Run(s, acts).accepted[i].due <= Run(s, acts).ran[i]
    decreases |acts|
  {
    RunKeepsInv(s, acts);
    var n := |acts| - 1;
    var t := Run(s, acts[..n]);
    RunKeepsInv(s, acts[..n]);
    RunOrdered(s, clock, acts[..n]);
    StepKeepsInv(t, acts[n]);
    if i < |t.ran| {
      NeverEarly(s, clock, acts[..n], i);
    } else if acts[n].TickAction? {
      TickRuns(t, acts[n].now, acts[n].w);
      PunctualTick(t, Clock(s, clock, acts[..n]), acts[n].now, acts[n].w);
    } else {
      ScheduleKeepsInv(t, acts[n].r);
    }
  }

  /** Ticks at or after `from`. */
  function TicksFrom(acts: seq<Action>, from: nat): nat {
    if acts == [] then 0
    else TicksFrom(acts[..|acts| - 1], from) +
             if acts[|acts| - 1].TickAction? && acts[|acts| - 1].now >= from then 1 else 0
  }

  /** A queued step with `k` steps ahead of it has run after at most `k + 1` ticks at or after 10 ms from its
      acceptance, whatever is scheduled meanwhile, also by the steps that run, and across wraps of the 32-bit
      clock. Steps run in the order of their acceptance. */
  lemma {:induction false} BoundedWaiting(s: State, clock: nat, acts: seq<Action>, i: nat)
    requires Inv(s) && Ordered(s, clock) && Timed(s, clock, acts)
    requires |s.ran| <= i < |s.accepted|
    ensures var k := i - |s.ran|; var late := TicksFrom(acts, s.accepted[i].at + STEP_BUDGET);
            && |Run(s, acts).ran| >= |s.ran| + (if late <= k then late else k + 1)
            && (late >= k + 1 ==> i < |Run(s, acts).ran|)
    decreases |acts|
  {
    if acts != [] {
      var n := |acts| - 1;
      var t := Run(s, acts[..n]);
      BoundedWaiting(s, clock, acts[..n], i);
      RunKeepsInv(s, acts[..n]);
      RunOrdered(s, clock, acts[..n]);
      StepKeepsInv(t, acts[n]);
      if acts[n].TickAction? && |t.ran| <= i {
        TickRuns(t, acts[n].now, acts[n].w);
        HeadBefore(t, i);
        PunctualTick(t, Clock(s, clock, acts[..n]), acts[n].now, acts[n].w);
        assert t.accepted[i] == s.accepted[i];
      }
    }
  }

  /** The head was accepted no later than any step still queued. */
  lemma HeadBefore(s: State, i: nat)
    requires Inv(s) && (forall j, k :: 0 <= j <= k < |s.accepted| ==> s.accepted[j].at <= s.accepted[k].at)
    requires |s.ran| <= i < |s.accepted|
    ensures s.queue != [] && s.queue[0].due <= s.accepted[i].at + STEP_BUDGET
  {
    assert Sound(s.accepted[|s.ran|]);
  }

  // ---------------------------------------------------------------- gaps

  /** The latest tick time seen, starting from the one at initialisation. */
  function HighWater(start: nat, acts: seq<Action>): nat {
    if acts == [] then start
    else
      var h := HighWater(start, acts[..|acts| - 1]);
      if acts[|acts| - 1].TickAction? && acts[|acts| - 1].now > h then acts[|acts| - 1].now else h
  }

  /** The gaps among the kernel's events, in order. */
  function Gaps(es: seq<KernelEvent>): seq<nat> {
    if es == [] then []
    else Gaps(es[..|es| - 1]) + if es[|es| - 1].SchedulerGap? then [es[|es| - 1].ms] else []
  }

  /** By how much each late tick exceeded the latest one before it, when that is over three budgets. */
  function LateBy(start: nat, acts: seq<Action>): seq<nat> {
    if acts == [] then []
    else
      var h := HighWater(start, acts[..|acts| - 1]);
      var a := acts[|acts| - 1];
      LateBy(start, acts[..|acts| - 1]) + if a.TickAction? && a.now > h + 3 * STEP_BUDGET then [a.now - h] else []
  }

  lemma GapsSnoc(es: seq<KernelEvent>, e: KernelEvent)
    ensures Gaps(es + [e]) == Gaps(es) + if e.SchedulerGap? then [e.ms] else []
  {
    assert (es + [e])[..|es|] == es;
  }

  /** However the clock jumps back and forth, the gaps reported over a run are exactly those measured from the
      latest tick seen before: a step back is no gap and the way back up to the mark is none either. */
  lemma {:induction false} GapsFromHighWater(s: State, acts: seq<Action>)
    requires s.lastTick < HALF64 && forall i :: 0 <= i < |acts| && acts[i].TickAction? ==> acts[i].now < HALF64
    ensures Run(s, acts).lastTick == HighWater(s.lastTick, acts) < HALF64
    ensures Gaps(Run(s, acts).events) == Gaps(s.events) + LateBy(s.lastTick, acts)
    decreases |acts|
  {
    if acts != [] {
      var n := |acts| - 1;
      var r := Run(s, acts[..n]);
      GapsFromHighWater(s, acts[..n]);
      match acts[n]
      case TickAction(now, w) =>
        GapOfTick(r, now, w);
        GapIsNoted(r, now);
        Regroup(Gaps(s.events), LateBy(s.lastTick, acts[..n]),
                if now > r.lastTick + 3 * STEP_BUDGET then [now - r.lastTick] else []);
      case ScheduleAction(q) => ScheduleAddsNoGap(r, q);
    }
  }

  /** Across the wrap of the 64-bit clock too: what lies less than half a turn ahead is progress, the rest none. */
  lemma ForwardIsExact(last: Time, k: nat)
    requires k < U64
    ensures Forward((last + k) % U64, last) == if k < 0x8000_0000_0000_0000 then k else 0
  {
    assert (last + k) % U64 == if last + k < U64 then last + k else last + k - U64;
  }

  lemma ForwardIs(now: Time, last: Time)
    requires last < HALF64 && now < HALF64
    ensures Forward(now, last) == if now > last then now - last else 0
  {
  }

  lemma GapIsNoted(s: State, now: Time)
    requires s.lastTick < HALF64 && now < HALF64
    ensures GapNoted(s, now).lastTick == if now > s.lastTick then now else s.lastTick
    ensures Gaps(GapNoted(s, now).events) ==
            Gaps(s.events) + if now > s.lastTick + 3 * STEP_BUDGET then [now - s.lastTick] else []
  {
    ForwardIs(now, s.lastTick);
    GapsSnoc(s.events, SchedulerGap(Forward(now, s.lastTick)));
  }

  lemma RunHeadAddsNoGap(s: State, now: nat, w: Work)
    requires s.queue != []
    ensures RunHead(s, now, w).lastTick == s.lastTick && Gaps(RunHead(s, now, w).events) == Gaps(s.events)
  {
    ScheduleAllAddsNoGap(s, w(s.queue[0]));
  }

  /** One tick reports at most the one gap. */
  lemma GapOfTick(s: State, now: Time, w: Work)
    ensures Tick(s, now, w).lastTick == GapNoted(s, now).lastTick
    ensures Gaps(Tick(s, now, w).events) == Gaps(GapNoted(s, now).events)
  {
    var t := GapNoted(s, now);
    if t.queue != [] { RunHeadAddsNoGap(t, now, w); }
  }

  lemma ScheduleAddsNoGap(s: State, r: Request)
    ensures Schedule(s, r).lastTick == s.lastTick && Gaps(Schedule(s, r).events) == Gaps(s.events)
  {
    GapsSnoc(s.events, ScheduleRejected);
  }

  lemma {:induction false} ScheduleAllAddsNoGap(s: State, rs: seq<Request>)
    ensures ScheduleAll(s, rs).lastTick == s.lastTick && Gaps(ScheduleAll(s, rs).events) == Gaps(s.events)
    decreases |rs|
  {
    if rs != [] {
      ScheduleAllAddsNoGap(s, rs[..|rs| - 1]);
      ScheduleAddsNoGap(ScheduleAll(s, rs[..|rs| - 1]), rs[|rs| - 1]);
    }
  }
}
