/** The sequence-locked cycle counter: a tick interrupt extends the wrapping 32-bit cycle counter to 64 bits and
    publishes it in separate memory accesses; readers retry until what they read belongs together. The writer
    may move any number of accesses between any two of the reader's. */
module Seqlock {
  import opened Words

  /** The shared words; the 64-bit count is stored in two halves. */
  datatype Shared = Shared(seqNo: Word, lo: Word, hi: nat, prev: Word)

  /** `m` is the memory, `at` the writer's next access (0 when no tick is in progress), `now` the true cycle
      count its tick sampled, `sum` its local 64-bit result, `ticks` the true counts of the ticks still to come.
      `bumps` counts the increments of the sequence word and `published` the true counts of finished ticks. */
  datatype Clock = Clock(
    m: Shared, at: nat, now: nat, sum: nat, ticks: seq<nat>, bumps: nat, published: seq<nat>)

  function Bumped(s: Word): Word {
    if s + 1 == U32 then 0 else s + 1
  }

  /** The 32-bit difference of two counter readings. */
  function Delta(live: Word, prev: Word): nat
  {
    if live >= prev then live - prev else live + U32 - prev
  }

  function Extended(m: Shared, live: Word): nat
  {
    m.lo + U32 * m.hi + Delta(live, m.prev)
  }

  /** One access of the tick interrupt. */
  function Step(c: Clock): Clock
  {
    match c.at
    case 0 => if c.ticks == [] then c else c.(at := 1, now := c.ticks[0], ticks := c.ticks[1..])
    case 1 => c.(at := 2, m := c.m.(seqNo := Bumped(c.m.seqNo)), bumps := c.bumps + 1)
    case 2 =>
      var sum := Extended(c.m, Low(c.now));
      c.(at := 3, sum := sum, m := c.m.(lo := Low(sum)))
    case 3 => c.(at := 4, m := c.m.(hi := High(c.sum)))
    case 4 => c.(at := 5, m := c.m.(prev := Low(c.now)))
    case _ => c.(at := 0, m := c.m.(seqNo := Bumped(c.m.seqNo)), bumps := c.bumps + 1,
                      published := c.published + [c.now])
  }

  /** Ticks come in order, less than a full turn of the 32-bit counter apart, and the count stays below 2^64. */
  predicate Timely(last: nat, ticks: seq<nat>)
    decreases |ticks|
  {
    ticks == [] || (last <= ticks[0] < last + U32 && ticks[0] < U64 && Timely(ticks[0], ticks[1..]))
  }

  function Last(c: Clock): nat
    requires c.published != []
  {
    c.published[|c.published| - 1]
  }

  /** The shared words hold the pair of true count `t`. */
  predicate Holds(m: Shared, t: nat) {
    m.lo == Low(t) && m.hi == High(t) && m.prev == Low(t)
  }

  /** The sequence word is the number of increments modulo 2^32. */
  ghost predicate Counted(c: Clock) {
    exists wraps: nat :: Wrapped(c.bumps, wraps, c.m.seqNo)
  }

  predicate Wrapped(bumps: nat, wraps: nat, seqNo: Word) {
    bumps == U32 * wraps + seqNo
  }

  ghost predicate Inv(c: Clock) {
    && c.at <= 5 && c.published != [] && Counted(c)
    && c.bumps == 2 * (|c.published| - 1) + (if c.at < 2 then 0 else 1)
    && Last(c) <= c.now < Last(c) + U32 && c.now < U64 && Timely(c.now, c.ticks)
    && (c.at == 0 ==> c.now == Last(c))
    && (c.at <= 2 ==> Holds(c.m, Last(c)))
    && (c.at == 3 ==> c.m.lo == Low(c.now) && c.m.prev == Low(Last(c)) && c.sum == c.now)
    && (c.at == 4 ==> c.m.lo == Low(c.now) && c.m.hi == High(c.now))
    && (c.at == 5 ==> Holds(c.m, c.now))
  }

  /** Extending a stored count by the 32-bit difference gives the true count, across a wrap. */
  lemma ExtendedIsTrue(m: Shared, t: nat, u: nat)
    requires Holds(m, t) && t <= u < t + U32
    ensures Extended(m, Low(u)) == u
  {
    Halves(t);
    Halves(u);
    Turns(High(t), Low(t), High(u), Low(u));
  }

  lemma Turns(a: nat, p: Word, b: nat, q: Word)
    requires U32 * a + p <= U32 * b + q < U32 * a + p + U32
    ensures b == if q >= p then a else a + 1
  {
  }

  lemma BumpCounted(c: Clock)
    requires Counted(c)
    ensures Counted(c.(m := c.m.(seqNo := Bumped(c.m.seqNo)), bumps := c.bumps + 1))
  {
    var wraps: nat :| Wrapped(c.bumps, wraps, c.m.seqNo);
    var d := c.(m := c.m.(seqNo := Bumped(c.m.seqNo)), bumps := c.bumps + 1);
    assert Wrapped(d.bumps, if c.m.seqNo + 1 == U32 then wraps + 1 else wraps, d.m.seqNo);
  }

  lemma StepKeepsInv(c: Clock)
    requires Inv(c)
    ensures Inv(Step(c))
  {
    match c.at
    case 1 => BumpCounted(c);
    case 2 => ExtendedIsTrue(c.m, Last(c), c.now);
      var wraps: nat :| Wrapped(c.bumps, wraps, c.m.seqNo);
      assert Wrapped(Step(c).bumps, wraps, Step(c).m.seqNo);
    case 5 => BumpCounted(c);
    case _ =>
      var wraps: nat :| Wrapped(c.bumps, wraps, c.m.seqNo);
      assert Wrapped(Step(c).bumps, wraps, Step(c).m.seqNo);
  }

  // ---------------------------------------------------------------- progress of the writer

  function Steps(c: Clock, k: nat): Clock {
    if k == 0 then c else Step(Steps(c, k - 1))
  }

  lemma {:induction false} StepsKeepInv(c: Clock, k: nat)
    requires Inv(c)
    ensures Inv(Steps(c, k))
  {
    if k > 0 {
      StepsKeepInv(c, k - 1);
      StepKeepsInv(Steps(c, k - 1));
    }
  }

  /** Accesses the writer has left. */
  function Work(c: Clock): int {
    6 * |c.ticks| + if c.at == 0 then 0 else 6 - c.at
  }

  lemma {:induction false} StepsAdd(c: Clock, j: nat, k: nat)
    ensures Steps(Steps(c, j), k) == Steps(c, j + k)
    decreases k
  {
    if k > 0 {
      StepsAdd(c, j, k - 1);
      assert Steps(c, j + k) == Step(Steps(c, j + k - 1));
    }
  }

  lemma SixSteps(c: Clock)
    requires c.at == 0 && c.ticks != []
    ensures var d := Steps(c, 6); d.at == 0 && d.ticks == c.ticks[1..] && d.published == c.published + [c.ticks[0]]
  {
    var c3 := Step(Step(Step(c)));
    assert Steps(c, 1) == Step(c) && Steps(c, 2) == Step(Steps(c, 1)) && Steps(c, 3) == Step(Steps(c, 2));
    assert Steps(c, 4) == Step(c3) && Steps(c, 5) == Step(Steps(c, 4)) && Steps(c, 6) == Step(Steps(c, 5));
  }

  lemma OneTick(c: Clock) returns (d: Clock, k: nat)
    requires Inv(c) && c.at == 0 && c.ticks != []
    ensures k == 6 && d == Steps(c, k) && Inv(d)
    ensures d.at == 0 && d.ticks == c.ticks[1..] && d.published == c.published + [c.ticks[0]]
  {
    k := 6;
    d := Steps(c, k);
    SixSteps(c);
    StepsKeepInv(c, 6);
  }

  lemma {:induction false} TicksArePublished(c: Clock, n: nat)
    requires Inv(c) && c.at == 0 && n == 6 * |c.ticks|
    ensures var d := Steps(c, n); d.at == 0 && d.ticks == [] && d.published == c.published + c.ticks
    decreases |c.ticks|
  {
    if c.ticks != [] {
      var d, k := OneTick(c);
      TicksArePublished(d, n - k);
      StepsAdd(c, k, n - k);
      assert c.published + [c.ticks[0]] + c.ticks[1..] == c.published + c.ticks;
    }
  }

  /** Six accesses a tick, and every tick is published, in order; the count the words then hold is that of the
      last one. */
  lemma EveryTickIsPublished(c: Clock)
    requires Inv(c) && c.at == 0
    ensures var d := Steps(c, 6 * |c.ticks|);
            && d.at == 0 && d.ticks == [] && d.published == c.published + c.ticks
            && Holds(d.m, d.published[|d.published| - 1])
  {
    StepsKeepInv(c, 6 * |c.ticks|);
    TicksArePublished(c, 6 * |c.ticks|);
  }

  /** The writer only moves forward, and while the sequence word is even and unchanged it changes nothing. */
  lemma {:induction false} StepsForward(c: Clock, k: nat)
    requires Inv(c)
    ensures c.bumps <= Steps(c, k).bumps <= c.bumps + Work(c) - Work(Steps(c, k))
    ensures 0 <= Work(Steps(c, k)) <= Work(c) && (Work(Steps(c, k)) == Work(c) ==> Steps(c, k) == c)
    ensures c.at < 2 && c.bumps == Steps(c, k).bumps ==>
              Steps(c, k).at < 2 && Steps(c, k).m == c.m && Steps(c, k).published == c.published
    ensures c.published <= Steps(c, k).published
  {
    if k > 0 {
      StepsForward(c, k - 1);
      StepsKeepInv(c, k - 1);
    }
  }

  /** `d` is `c` some accesses of the writer later. */
  ghost predicate Later(c: Clock, d: Clock) {
    exists k: nat :: Steps(c, k) == d
  }

  lemma LaterTrans(c: Clock, d: Clock, e: Clock)
    requires Later(c, d) && Later(d, e)
    ensures Later(c, e)
  {
    var j: nat :| Steps(c, j) == d;
    var k: nat :| Steps(d, k) == e;
    StepsAdd(c, j, k);
  }

  /** The writer's word is even and has not moved. */
  predicate Still(c: Clock, d: Clock) {
    c.at < 2 && c.bumps == d.bumps
  }

  lemma LaterFacts(c: Clock, d: Clock)
    requires Inv(c) && Later(c, d)
    ensures Inv(d) && c.bumps <= d.bumps && 0 <= Work(d) <= Work(c) && (Work(d) == Work(c) ==> d == c)
    ensures Still(c, d) ==> d.at < 2 && d.m == c.m && d.published == c.published
    ensures c.published <= d.published
    ensures d.bumps + 2 * |d.ticks| + Ahead(d) == c.bumps + 2 * |c.ticks| + Ahead(c)
  {
    var k: nat :| Steps(c, k) == d;
    StepsForward(c, k);
    BumpsBounded(c, k);
    StepsKeepInv(c, k);
  }

  /** What four reads spread over four writer states have in common with the first of them. */
  lemma PassReads(c: Clock, c1: Clock, c2: Clock, c3: Clock, c4: Clock)
    requires Inv(c) && Inv(c1) && Inv(c2) && Inv(c3)
    requires Later(c, c1) && Later(c1, c2) && Later(c2, c3) && Later(c3, c4)
    ensures Later(c, c4) && Work(c4) <= Work(c1) && (Work(c1) == Work(c) ==> c1 == c)
    ensures Still(c, c4) ==> c1.m == c.m && c2.m == c.m && c3.m == c.m
  {
    LaterTrans(c, c1, c2);
    LaterTrans(c, c2, c3);
    LaterTrans(c, c3, c4);
    LaterFacts(c, c1);
    LaterFacts(c1, c2);
    LaterFacts(c2, c3);
    LaterFacts(c3, c4);
    LaterFacts(c, c2);
    LaterFacts(c, c3);
  }

  /** Each tick bumps the sequence word twice. */
  lemma {:induction false} BumpsBounded(c: Clock, k: nat)
    requires Inv(c)
    ensures var d := Steps(c, k);
            d.bumps + 2 * |d.ticks| + Ahead(d) == c.bumps + 2 * |c.ticks| + Ahead(c)
  {
    if k > 0 {
      BumpsBounded(c, k - 1);
      StepsKeepInv(c, k - 1);
    }
  }

  /** Increments the tick in progress still has to make. */
  function Ahead(c: Clock): nat {
    if c.at == 0 then 0 else if c.at == 1 then 2 else 1
  }

  /** Equal sequence words less than a full turn apart are the same increment count. */
  lemma SameBumps(c: Clock, d: Clock)
    requires Counted(c) && Counted(d) && c.m.seqNo == d.m.seqNo && c.bumps <= d.bumps < c.bumps + U32
    ensures c.bumps == d.bumps
  {
    var v: nat :| Wrapped(c.bumps, v, c.m.seqNo);
    var w: nat :| Wrapped(d.bumps, w, d.m.seqNo);
  }

  lemma Parity(x: nat, w: nat, k: nat, b: nat)
    requires U32 * w + x == 2 * k + b && b < 2
    ensures x % 2 == b
  {
    assert x == 2 * (k - 0x8000_0000 * w) + b;
  }

  /** An even sequence word means that no tick is half written. */
  lemma EvenIsIdle(c: Clock)
    requires Inv(c)
    ensures c.m.seqNo % 2 == 0 <==> c.at < 2
  {
    var w: nat :| Wrapped(c.bumps, w, c.m.seqNo);
    Parity(c.m.seqNo, w, |c.published| - 1, if c.at < 2 then 0 else 1);
  }

  // ---------------------------------------------------------------- the reader

  /** How many accesses the writer makes in each gap of the reader. A tick in progress makes at least one. */
  type Pace = nat -> nat

  class CycleClock {
    var seqNo: Word
    var lo: Word
    var hi: nat
    var prev: Word
    /** The tick interrupt's next access and its locals. */
    var at: nat
    var now: nat
    var sum: nat
    var ticks: seq<nat>
    ghost var bumps: nat
    ghost var published: seq<nat>

    ghost function View(): Clock
      reads this
    {
      Clock(Shared(seqNo, lo, hi, prev), at, now, sum, ticks, bumps, published)
    }

    ghost predicate Valid()
      reads this
    {
      Inv(View())
    }

    /** Right after start-up, with the counter just zeroed and `ticks` to come. */
    constructor (ticks: seq<nat>)
      requires Timely(0, ticks)
      ensures Valid() && View() == Clock(Shared(0, 0, 0, 0), 0, 0, 0, ticks, 0, [0])
    {
      seqNo, lo, hi, prev, at, now, sum := 0, 0, 0, 0, 0, 0, 0;
      this.ticks := ticks;
      bumps, published := 0, [0];
      new;
      assert Wrapped(View().bumps, 0, View().m.seqNo);
    }

    /** The next access of the tick interrupt. */
    method Access()
      requires Valid()
      modifies this
      ensures Valid() && View() == Step(old(View()))
    {
      ghost var c := View();
      StepKeepsInv(c);
      Move();
    }

    method Move()
      requires at <= 5
      modifies this
      ensures View() == Step(old(View()))
    {
      if at == 0 {
        if ticks != [] {
          at, now, ticks := 1, ticks[0], ticks[1..];
        }
      } else if at == 1 {
        seqNo := Bumped(seqNo);
        at, bumps := 2, bumps + 1;
      } else if at == 2 {
        sum := lo + U32 * hi + Delta(Low(now), prev);
        lo, at := Low(sum), 3;
      } else if at == 3 {
        hi, at := High(sum), 4;
      } else if at == 4 {
        prev, at := Low(now), 5;
      } else {
        seqNo := Bumped(seqNo);
        at, bumps, published := 0, bumps + 1, published + [now];
      }
    }

    method Gap(pace: Pace, n: nat)
      requires Valid()
      modifies this
      ensures Valid() && Later(old(View()), View()) && (old(at) != 0 ==> Work(View()) < Work(old(View())))
    {
      ghost var c := View();
      var count := if at != 0 && pace(n) == 0 then 1 else pace(n);
      for i := 0 to count
        invariant Valid() && View() == Steps(c, i)
      {
        Access();
      }
      if c.at != 0 { OneStepWorks(c, count); }
    }

    /** Reads the four words one after another. */
    method ReadPass(pace: Pace, n: nat) returns (s: Shared)
      requires Valid()
      modifies this
      ensures Valid() && Later(old(View()), View()) && (old(at) != 0 ==> Work(View()) < Work(old(View())))
      ensures s.seqNo == old(seqNo)
      ensures Still(old(View()), View()) ==> s == old(View()).m
    {
      ghost var c := View();
      var a := seqNo;
      Gap(pace, n);
      ghost var c1 := View();
      var b := lo;
      Gap(pace, n + 1);
      ghost var c2 := View();
      var d := hi;
      Gap(pace, n + 2);
      ghost var c3 := View();
      var e := prev;
      Gap(pace, n + 3);
      PassReads(c, c1, c2, c3, View());
      s := Shared(a, b, d, e);
    }

    /** Reads until the sequence word is even. `from` is the state in which that word was read. */
    method FirstEven(pace: Pace, n: nat) returns (s: Shared, next: nat, ghost from: Clock)
      requires Valid()
      modifies this
      ensures Valid() && Inv(from) && Later(old(View()), from) && Later(from, View())
      ensures s.seqNo == from.m.seqNo && from.at < 2 && (Still(from, View()) ==> s == from.m)
    {
      ghost var c := View();
      LaterSelf(c);
      from := c;
      s := ReadPass(pace, n);
      next := n + 4;
      while s.seqNo % 2 != 0
        invariant Valid() && Inv(from) && Later(c, from) && Later(from, View())
        invariant s.seqNo == from.m.seqNo && (Still(from, View()) ==> s == from.m)
        invariant from.at != 0 ==> Work(View()) < Work(from)
        decreases Work(from)
      {
        EvenIsIdle(from);
        LaterTrans(c, from, View());
        LaterFacts(from, View());
        from := View();
        s := ReadPass(pace, next);
        next := next + 4;
      }
      EvenIsIdle(from);
    }

    /** Retries until two passes agree. Provided fewer than 2^31 ticks come during the read it ends and returns
        a pair that one tick published, no older than the last tick finished before the read began. */
    method SnapshotCycle(pace: Pace) returns (s: Shared, ghost from: Clock)
      requires Valid() && |ticks| < 0x7FFF_FFFF
      modifies this
      ensures Valid() && Inv(from) && Later(old(View()), from) && Later(from, View())
      ensures Holds(s, Last(from)) && old(published) <= from.published
    {
      ghost var c := View();
      LaterSelf(c);
      var n := 0;
      while true
        invariant Valid() && Later(c, View())
        decreases Work(View())
      {
        ghost var start := View();
        s, n, from := FirstEven(pace, n);
        ghost var second := View();
        var s2 := ReadPass(pace, n);
        n := n + 4;
        Agreement(c, start, from, second, View());
        if s == s2 {
          return;
        }
        assert Work(View()) < Work(start);
      }
    }

    /** Microseconds since start-up. The counter is read after the snapshot, `elapsed` cycles after the tick
        sampled last, at the true count `live`: the result is exactly `live` divided by 168, however often the
        counter has wrapped, provided it is read less than a full turn after the tick the snapshot shows. */
    method RawTicksUs(pace: Pace, elapsed: nat) returns (us: nat, ghost live: nat, ghost from: Clock)
      requires Valid() && |ticks| < 0x7FFF_FFFF
      modifies this
      ensures Valid() && Inv(from) && Later(old(View()), from) && Later(from, View())
      ensures live == now + elapsed && (InReach(from, live) ==> us == live / 168)
    {
      var s;
      s, from := SnapshotCycle(pace);
      live := now + elapsed;
      NowGrows(from, View());
      if InReach(from, live) { ExtendedIsTrue(s, Last(from), live); }
      us := Extended(s, Low(now + elapsed)) / 168;
    }

    /** Two successive calls, the second reading the counter no earlier than the first: the results never
        decrease. */
    method ReadTwice(pace: Pace, elapsed: nat, pace2: Pace, elapsed2: nat)
      returns (us: nat, us2: nat, ghost live: nat, ghost live2: nat, ghost from: Clock, ghost from2: Clock)
      requires Valid() && |ticks| < 0x7FFF_FFFF
      modifies this
      ensures Valid() && Inv(from) && Later(old(View()), from) && Inv(from2) && Later(from, from2)
      ensures live <= live2 && InReach(from, live) && InReach(from2, live2) ==> us <= us2
    {
      us, live, from := RawTicksUs(pace, elapsed);
      ghost var c := View();
      FewerTicks(old(View()), from);
      FewerTicks(from, c);
      us2, live2, from2 := RawTicksUs(pace2, elapsed2);
      LaterTrans(from, c, from2);
    }
  }

  /** The true count `live` is less than a full turn of the counter after the pair published last. */
  predicate InReach(c: Clock, live: nat)
    requires c.published != []
  {
    live < Last(c) + U32 && live < U64
  }

  lemma {:induction false} StepsNowGrows(c: Clock, k: nat)
    requires Inv(c)
    ensures c.now <= Steps(c, k).now && |Steps(c, k).ticks| <= |c.ticks|
  {
    if k > 0 {
      StepsNowGrows(c, k - 1);
      StepsKeepInv(c, k - 1);
    }
  }

  lemma NowGrows(c: Clock, d: Clock)
    requires Inv(c) && Later(c, d)
    ensures Last(c) <= c.now <= d.now
  {
    var k: nat :| Steps(c, k) == d;
    StepsNowGrows(c, k);
  }

  lemma FewerTicks(c: Clock, d: Clock)
    requires Inv(c) && Later(c, d)
    ensures |d.ticks| <= |c.ticks|
  {
    var k: nat :| Steps(c, k) == d;
    StepsNowGrows(c, k);
  }

  lemma LaterSelf(c: Clock)
    ensures Later(c, c)
  {
    assert Steps(c, 0) == c;
  }

  /** Both passes of one attempt, begun in `from` and in `second`: equal sequence words mean that nothing
      changed in between, and if the writer made no access at all both passes read the same. */
  lemma Agreement(c: Clock, start: Clock, from: Clock, second: Clock, end: Clock)
    requires Inv(c) && Inv(start) && Inv(from) && Inv(second) && |c.ticks| < 0x7FFF_FFFF && from.at < 2
    requires Later(c, start) && Later(start, from) && Later(from, second) && Later(second, end)
    ensures Later(c, from) && Later(from, end) && Later(c, end)
    ensures c.published <= from.published && Work(end) <= Work(start)
    ensures from.m.seqNo == second.m.seqNo ==> Still(from, second) && Holds(from.m, Last(from))
    ensures Work(end) == Work(start) ==> from == start && second == start && end == start
  {
    LaterTrans(c, start, from);
    LaterTrans(from, second, end);
    LaterTrans(c, from, end);
    LaterFacts(c, from);
    LaterFacts(start, from);
    LaterFacts(from, second);
    LaterFacts(second, end);
    if from.m.seqNo == second.m.seqNo {
      SameBumps(from, second);
    }
  }

  /** A tick in progress gets closer to its end with every access. */
  lemma OneStepWorks(c: Clock, k: nat)
    requires Inv(c) && c.at != 0 && k > 0
    ensures Work(Steps(c, k)) < Work(c)
  {
    assert Steps(c, 1) == Step(Steps(c, 0));
    StepKeepsInv(c);
    StepsAdd(c, 1, k - 1);
    StepsForward(Steps(c, 1), k - 1);
  }
}
