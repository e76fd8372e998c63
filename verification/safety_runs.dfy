/** What holds of the Safety Authority over every run: any observations, any clock, any offered intents. */
module SafetyRuns {
  import opened ArbitrationFunnel
  import opened SafetyModel
  import opened Words

  datatype Action = TickAction(o: Observation) | ArbitrateAction(c: Intent)

  predicate Feasible(a: Action) {
    a.TickAction? ==> Observable(a.o)
  }

  type Actions = acts: seq<Action> | forall i :: 0 <= i < |acts| ==> Feasible(acts[i])

  function Step(cfg: Config, s: State, a: Action): State
    requires Feasible(a)
  {
    match a
    case TickAction(o) => Tick(cfg, s, o)
    case ArbitrateAction(c) => Arbitrate(s, c)
  }

  function Run(cfg: Config, s: State, acts: Actions): State {
    if acts == [] then s else Step(cfg, Run(cfg, s, acts[..|acts| - 1]), acts[|acts| - 1])
  }

  function TickCount(acts: Actions): nat {
    if acts == [] then 0 else TickCount(acts[..|acts| - 1]) + if acts[|acts| - 1].TickAction? then 1 else 0
  }

  function ForceStops(calls: seq<CanCall>): nat {
    if calls == [] then 0 else ForceStops(calls[..|calls| - 1]) + if calls[|calls| - 1] == ForceStopTx then 1 else 0
  }

  lemma ForceStopsAppend(calls: seq<CanCall>, c: CanCall)
    ensures ForceStops(calls + [c]) == ForceStops(calls) + if c == ForceStopTx then 1 else 0
  {
    assert (calls + [c])[..|calls|] == calls;
  }

  // ---------------------------------------------------------------- what every step keeps

  ghost predicate Inv(s: State) {
    && (s.health == Fault <==> s.fault != NoFault)
    && s.fault != DirectionalToF
    && (s.health == Degraded ==> s.timebaseSet)
    && (!s.funnel.active ==> s.funnel == IDLE)
    && (s.fault == DegradedTimeout ==> IsSafetyStop(s.funnel.current))
    && (s.fault == CanFailsafe ==> Rank(s.funnel.current) == 4)
    && (s.health == Initializing || s.health == Fault ==> s.funnel == IDLE || s.funnel.current.source == Safety)
  }

  /** A Safety stop is always taken over a weaker intent, so one of at least its rank is current after it. */
  lemma EmittedStop(s: State, p: StopProfile)
    requires !s.funnel.active ==> s.funnel == IDLE
    ensures var t := EmitStop(s, p);
            && t.funnel.active && IsSafetyStop(t.funnel.current)
            && (p == ForceStopProfile || Rank(s.funnel.current) == 4 ==> Rank(t.funnel.current) == 4)
            && t == s.(seqNo := t.seqNo, funnel := t.funnel)
  {
  }

  /** What the observations can classify as: nothing wrong only when the bus is active. */
  predicate Classified(c: DegradedClass, can: CanState) {
    c == Sensing || (c == CanBus && can != Active) || (c == NoClass && can == Active)
  }

  lemma Classification(cfg: Config, o: Observation)
    requires Observable(o)
    ensures Classified(ClassOf(cfg, o), CanSeen(cfg, o))
  {
  }

  lemma MovedKeepsInv(cfg: Config, s: State, c: DegradedClass, now: nat)
    requires Inv(s)
    ensures Inv(Moved(cfg, s, c, now))
  {
    var t := Started(s, now);
    if t.health == Degraded && IsMotionCapable(c) {
      EmittedStop(EnterFault(t.(degMs := Accumulated(t, now)), DegradedTimeout, now), ControlledProfile);
    }
  }

  lemma FailsafeKeepsInv(s: State, can: CanState, now: nat)
    requires Inv(s)
    ensures Inv(Failsafe(s, can, now))
  {
    if can != Active {
      var t := if can == BusOff then s.(canCalls := s.canCalls + [RecoverBusOff]) else s;
      EmittedStop(if t.health != Fault then EnterFault(t, CanFailsafe, now) else t, ForceStopProfile);
    }
  }

  lemma ArbitrateKeepsInv(s: State, c: Intent)
    requires Inv(s)
    ensures Inv(Arbitrate(s, c))
  {
  }

  lemma StepKeepsInv(cfg: Config, s: State, a: Action)
    requires Inv(s) && Feasible(a)
    ensures Inv(Step(cfg, s, a))
  {
    match a
    case TickAction(o) =>
      MovedKeepsInv(cfg, s, ClassOf(cfg, o), o.now);
      FailsafeKeepsInv(Moved(cfg, s, ClassOf(cfg, o), o.now), CanSeen(cfg, o), o.now);
    case ArbitrateAction(c) => ArbitrateKeepsInv(s, c);
  }

  lemma {:induction false} RunKeepsInv(cfg: Config, s: State, acts: Actions)
    requires Inv(s)
    ensures Inv(Run(cfg, s, acts))
    decreases |acts|
  {
    if acts != [] {
      RunKeepsInv(cfg, s, acts[..|acts| - 1]);
      StepKeepsInv(cfg, Run(cfg, s, acts[..|acts| - 1]), acts[|acts| - 1]);
    }
  }

  // ---------------------------------------------------------------- bus loss

  /** The fault is, or in this very tick becomes, the one that clears by itself. */
  predicate TimesOut(cfg: Config, s: State, c: DegradedClass, now: nat) {
    || s.fault == DegradedTimeout
    || (s.health == Degraded && c == Sensing && Accumulated(Started(s, now), now) >= cfg.tDegMs)
  }

  /** No sample can ever be fresh, so the sensors never look healthy. */
  predicate Blind(cfg: Config) {
    !cfg.hasSensing || cfg.tFreshMs == 0
  }

  predicate Latched(cfg: Config, s: State) {
    && s.health == Fault && Rank(s.funnel.current) == 4
    && (s.fault == CanFailsafe || s.fault == CrashMarker || Blind(cfg))
  }

  lemma LatchedTick(cfg: Config, s: State, c: DegradedClass, can: CanState, now: nat)
    requires Latched(cfg, s) && (Blind(cfg) ==> c == Sensing)
    ensures var t := Failsafe(Moved(cfg, s, c, now), can, now);
            Latched(cfg, t) && ForceStops(t.canCalls) == ForceStops(s.canCalls)
  {
    var t := Moved(cfg, s, c, now);
    assert Latched(cfg, t) && t.canCalls == s.canCalls;
    ForceStopsAppend(s.canCalls, RecoverBusOff);
    EmittedForceStop(t);
    EmittedForceStop(t.(canCalls := t.canCalls + [RecoverBusOff]));
  }

  /** A force-stop is always taken, under the next number. */
  lemma EmittedForceStop(s: State)
    ensures var t := EmitStop(s, ForceStopProfile);
            && Rank(t.funnel.current) == 4 && t == s.(seqNo := t.seqNo, funnel := t.funnel)
            && t.funnel.current.seqNo == t.seqNo == NextSeq(s.seqNo)
  {
  }

  lemma LatchedStep(cfg: Config, s: State, a: Action)
    requires Latched(cfg, s) && Feasible(a) && cfg.hasCan
    ensures Latched(cfg, Step(cfg, s, a))
    ensures ForceStops(Step(cfg, s, a).canCalls) == ForceStops(s.canCalls) + if a.TickAction? then 1 else 0
  {
    match a
    case TickAction(o) =>
      LatchedTick(cfg, s, ClassOf(cfg, o), CanSeen(cfg, o), o.now);
      ForceStopsAppend(Failsafe(Moved(cfg, s, ClassOf(cfg, o), o.now), CanSeen(cfg, o), o.now).canCalls, ForceStopTx);
    case ArbitrateAction(c) =>
  }

  /** Still at fault after `acts`, with one force-stop frame sent for each tick among them. */
  ghost predicate HeldStopped(cfg: Config, s: State, acts: Actions) {
    && Run(cfg, s, acts).health == Fault
    && ForceStops(Run(cfg, s, acts).canCalls) == ForceStops(s.canCalls) + TickCount(acts)
  }

  lemma {:induction false} LatchedForever(cfg: Config, s: State, acts: Actions)
    requires Latched(cfg, s) && cfg.hasCan
    ensures Latched(cfg, Run(cfg, s, acts)) && HeldStopped(cfg, s, acts)
    decreases |acts|
  {
    if acts != [] {
      LatchedForever(cfg, s, acts[..|acts| - 1]);
      LatchedStep(cfg, Run(cfg, s, acts[..|acts| - 1]), acts[|acts| - 1]);
    }
  }

  lemma BusLossTick(cfg: Config, s: State, c: DegradedClass, can: CanState, now: nat)
    requires Inv(s) && can != Active && Classified(c, can) && cfg.hasCan
    ensures var t := TickOn(cfg, s, c, can, now);
            && t.health == Fault && Rank(t.funnel.current) == 4
            && ForceStops(t.canCalls) == ForceStops(s.canCalls) + 1
            && (TimesOut(cfg, s, c, now) <==> t.fault == DegradedTimeout)
            && (t.fault == DegradedTimeout || t.fault == CanFailsafe || t.fault == CrashMarker)
  {
    var t := Moved(cfg, s, c, now);
    MovedBeforeBusLoss(cfg, s, c, can, now);
    FailsafeOnLoss(t, can, now);
    ForceStopIsSent(cfg, Failsafe(t, can, now));
  }

  lemma ForceStopIsSent(cfg: Config, s: State)
    requires cfg.hasCan && Rank(s.funnel.current) == 4
    ensures var t := ForceStopSent(cfg, s);
            t == s.(canCalls := t.canCalls) && ForceStops(t.canCalls) == ForceStops(s.canCalls) + 1
  {
    ForceStopsAppend(s.canCalls, ForceStopTx);
  }

  lemma FailsafeOnLoss(s: State, can: CanState, now: nat)
    requires can != Active
    ensures var t := Failsafe(s, can, now);
            && t.health == Fault && Rank(t.funnel.current) == 4
            && t.fault == (if s.health == Fault then s.fault else CanFailsafe)
            && ForceStops(t.canCalls) == ForceStops(s.canCalls)
  {
    ForceStopsAppend(s.canCalls, RecoverBusOff);
    var u := if can == BusOff then s.(canCalls := s.canCalls + [RecoverBusOff]) else s;
    EmittedForceStop(if u.health != Fault then EnterFault(u, CanFailsafe, now) else u);
  }

  lemma MovedBeforeBusLoss(cfg: Config, s: State, c: DegradedClass, can: CanState, now: nat)
    requires Inv(s) && can != Active && Classified(c, can)
    ensures var t := Moved(cfg, s, c, now);
            && t.canCalls == s.canCalls
            && (t.health == Fault && t.fault == DegradedTimeout <==> TimesOut(cfg, s, c, now))
            && (t.health == Fault ==> t.fault == DegradedTimeout || t.fault == CanFailsafe || t.fault == CrashMarker)
  {
  }

  /** What a tick asks of the CAN port: recovery exactly when the bus is off, then one force-stop frame exactly
      when the intent then current demands it. */
  lemma PortCalls(cfg: Config, s: State, o: Observation)
    requires Observable(o)
    ensures var t := Tick(cfg, s, o);
            t.canCalls == s.canCalls + (if CanSeen(cfg, o) == BusOff then [RecoverBusOff] else [])
                                     + (if cfg.hasCan && (t.funnel.current.kind == ForceStop ||
                                                          t.funnel.current.profile == ForceStopProfile)
                                        then [ForceStopTx] else [])
  {
    var can := CanSeen(cfg, o);
    var t := Moved(cfg, s, ClassOf(cfg, o), o.now);
    MovedKeepsCalls(cfg, s, ClassOf(cfg, o), o.now);
    if can != Active {
      var u := if can == BusOff then t.(canCalls := t.canCalls + [RecoverBusOff]) else t;
      EmittedForceStop(if u.health != Fault then EnterFault(u, CanFailsafe, o.now) else u);
    }
  }

  lemma MovedKeepsCalls(cfg: Config, s: State, c: DegradedClass, now: nat)
    ensures Moved(cfg, s, c, now).canCalls == s.canCalls
  {
  }

  const GOOD := Snapshot(true, 0, false)

  /** Every sensor healthy and just sampled, the bus active. */
  function AllGood(now: nat): Observation {
    Observation(now, [GOOD, GOOD, GOOD, GOOD, GOOD], Active)
  }

  /** Losing the bus latches a fault that no later observation or intent clears, with one force-stop frame
      in that tick and in every later one, exactly when the fault is no Degraded timeout or the sensors can
      never look healthy. */
  lemma BusLossLatchIff(cfg: Config, s: State, o: Observation)
    requires Inv(s) && Observable(o) && CanSeen(cfg, o) != Active
    ensures ForceStops(Tick(cfg, s, o).canCalls) == ForceStops(s.canCalls) + 1
    ensures !TimesOut(cfg, s, ClassOf(cfg, o), o.now) || Blind(cfg) <==>
            forall acts: Actions :: HeldStopped(cfg, Tick(cfg, s, o), acts)
  {
    Classification(cfg, o);
    BusLossTick(cfg, s, ClassOf(cfg, o), CanSeen(cfg, o), o.now);
    HeldIffLatched(cfg, Tick(cfg, s, o));
  }

  lemma HeldIffLatched(cfg: Config, s: State)
    requires cfg.hasCan && s.health == Fault && Rank(s.funnel.current) == 4
    requires s.fault == DegradedTimeout || s.fault == CanFailsafe || s.fault == CrashMarker
    ensures Latched(cfg, s) <==> forall acts: Actions :: HeldStopped(cfg, s, acts)
  {
    if Latched(cfg, s) {
      forall acts: Actions ensures HeldStopped(cfg, s, acts) {
        LatchedForever(cfg, s, acts);
      }
    } else {
      TimeoutClears(cfg, s);
    }
  }

  lemma TimeoutClears(cfg: Config, s: State)
    requires s.health == Fault && s.fault == DegradedTimeout && Rank(s.funnel.current) == 4
    requires cfg.hasSensing && cfg.tFreshMs > 0
    ensures !HeldStopped(cfg, s, [TickAction(AllGood(0))])
  {
    var acts: Actions := [TickAction(AllGood(0))];
    assert acts[..0] == [];
    assert Run(cfg, s, acts) == Tick(cfg, Run(cfg, s, []), AllGood(0));
    GoodClass(cfg, 0);
    assert Moved(cfg, s, NoClass, 0).health == Degraded;
  }

  lemma GoodClass(cfg: Config, now: nat)
    requires cfg.hasSensing && cfg.tFreshMs > 0 && now < U64
    ensures ClassOf(cfg, AllGood(now)) == NoClass
  {
  }

  lemma RunOfOne(cfg: Config, s: State, a: Action)
    requires Feasible(a)
    ensures Run(cfg, s, [a]) == Step(cfg, s, a)
  {
    assert [a][..0] == [];
  }

  lemma RunOfTwo(cfg: Config, s: State, a: Action, b: Action)
    requires Feasible(a) && Feasible(b)
    ensures Run(cfg, s, [a, b]) == Step(cfg, Step(cfg, s, a), b)
  {
    assert [a, b][..1] == [a];
    RunOfOne(cfg, s, a);
  }

  /** From start-up: two ticks with a bad sensor, the second at the Degraded limit, then the bus off, then all
      good. The bus loss is forgotten: no fault is left and the funnel is idle. */
  lemma BusLossForgotten(cfg: Config, bad0: Observation, bad1: Observation, off: Observation)
    requires cfg.hasSensing && cfg.hasCan && cfg.tFreshMs > 0 && cfg.tDegMs == 1
    requires Observable(bad0) && bad0.now == 0 && bad0.can == Active && ClassOf(cfg, bad0) == Sensing
    requires Observable(bad1) && bad1.now == 1 && bad1.can == Active && ClassOf(cfg, bad1) == Sensing
    requires Observable(off) && off.now == 2 && off.can == BusOff
    ensures var s := Run(cfg, Run(cfg, Initial(false), [TickAction(bad0), TickAction(bad1)]), [TickAction(off)]);
            && s.health == Fault && Rank(s.funnel.current) == 4 && s.canCalls == [RecoverBusOff, ForceStopTx]
            && var t := Run(cfg, s, [TickAction(AllGood(3))]);
               t.health == Degraded && t.fault == NoFault && t.funnel == IDLE && t.canCalls == s.canCalls
  {
    RunOfTwo(cfg, Initial(false), TickAction(bad0), TickAction(bad1));
    var r := Tick(cfg, Tick(cfg, Initial(false), bad0), bad1);
    TimedOut(cfg, bad0, bad1);
    RunOfOne(cfg, r, TickAction(off));
    var s := Tick(cfg, r, off);
    LossDuringTimeout(cfg, r, off);
    RunOfOne(cfg, s, TickAction(AllGood(3)));
    GoodClass(cfg, 3);
  }

  lemma TimedOut(cfg: Config, bad0: Observation, bad1: Observation)
    requires cfg.hasCan && cfg.tDegMs == 1
    requires Observable(bad0) && bad0.now == 0 && bad0.can == Active && ClassOf(cfg, bad0) == Sensing
    requires Observable(bad1) && bad1.now == 1 && bad1.can == Active && ClassOf(cfg, bad1) == Sensing
    ensures var t := Tick(cfg, Tick(cfg, Initial(false), bad0), bad1);
            t.health == Fault && t.fault == DegradedTimeout && !IsMotion(t.funnel.current) && t.canCalls == []
  {
    assert Tick(cfg, Initial(false), bad0).health == Degraded;
  }

  lemma LossDuringTimeout(cfg: Config, s: State, o: Observation)
    requires cfg.hasCan && Observable(o) && o.can == BusOff && ClassOf(cfg, o) != NoClass
    requires s.health == Fault && s.fault == DegradedTimeout && s.canCalls == []
    ensures var t := Tick(cfg, s, o);
            && t.health == Fault && t.fault == DegradedTimeout && Rank(t.funnel.current) == 4
            && t.canCalls == [RecoverBusOff, ForceStopTx]
  {
    var t := Moved(cfg, s, ClassOf(cfg, o), o.now);
    EmittedForceStop(t.(canCalls := t.canCalls + [RecoverBusOff]));
  }

  /** A crash marker found at start-up is a fault from the first tick on, whatever happens. */
  lemma {:induction false} MarkerIsFault(cfg: Config, acts: Actions)
    ensures var s := Run(cfg, Initial(true), acts);
            && s.markerPending
            && if TickCount(acts) == 0 then s.health == Initializing && s.fault == NoFault
               else s.health == Fault && s.fault == CrashMarker
    decreases |acts|
  {
    if acts != [] { MarkerIsFault(cfg, acts[..|acts| - 1]); }
  }

  // ---------------------------------------------------------------- what the funnel holds at fault

  /** Callers that offer nothing but activity intents and Safety stops. */
  predicate Disciplined(acts: Actions) {
    forall i :: 0 <= i < |acts| && acts[i].ArbitrateAction? ==> acts[i].c.source == Activity || IsSafetyStop(acts[i].c)
  }

  ghost predicate NoSafetyMotion(s: State) {
    && (s.funnel.current.source == Activity || IsSafetyStop(s.funnel.current))
    && (s.health == Initializing || s.health == Fault ==> s.funnel == IDLE || IsSafetyStop(s.funnel.current))
  }

  lemma DisciplinedMove(cfg: Config, s: State, c: DegradedClass, now: nat)
    requires Inv(s) && NoSafetyMotion(s)
    ensures NoSafetyMotion(Moved(cfg, s, c, now))
  {
    var t := Started(s, now);
    EmittedStop(EnterFault(t.(degMs := Accumulated(t, now)), DegradedTimeout, now), ControlledProfile);
  }

  lemma DisciplinedStep(cfg: Config, s: State, a: Action)
    requires Inv(s) && Feasible(a) && NoSafetyMotion(s)
    requires a.ArbitrateAction? ==> a.c.source == Activity || IsSafetyStop(a.c)
    ensures NoSafetyMotion(Step(cfg, s, a))
  {
    match a
    case TickAction(o) =>
      var u := Moved(cfg, s, ClassOf(cfg, o), o.now);
      DisciplinedMove(cfg, s, ClassOf(cfg, o), o.now);
      if CanSeen(cfg, o) != Active {
        FailsafeOnLoss(u, CanSeen(cfg, o), o.now);
      }
    case ArbitrateAction(c) =>
  }

  /** Whatever callers offer, no activity's intent is current at fault; if they offer no Safety motion,
      the funnel is idle or holds a Safety stop. */
  lemma {:induction false} FaultHoldsNoMotion(cfg: Config, marker: bool, acts: Actions)
    ensures var s := Run(cfg, Initial(marker), acts);
            && (s.health == Fault ==> s.funnel == IDLE || s.funnel.current.source == Safety)
            && (Disciplined(acts) ==> NoSafetyMotion(s))
    decreases |acts|
  {
    RunKeepsInv(cfg, Initial(marker), acts);
    if acts != [] && Disciplined(acts) {
      var n := |acts| - 1;
      RunKeepsInv(cfg, Initial(marker), acts[..n]);
      FaultHoldsNoMotion(cfg, marker, acts[..n]);
      DisciplinedStep(cfg, Run(cfg, Initial(marker), acts[..n]), acts[n]);
    }
  }

  lemma ClearsOn(cfg: Config, s: State, c: DegradedClass, can: CanState, now: nat)
    requires Inv(s) && s.health == Fault && Classified(c, can)
    ensures var t := TickOn(cfg, s, c, can, now);
            && (t.health != Fault <==> s.fault == DegradedTimeout && c == NoClass)
            && (t.health != Fault ==> t.health == Degraded && t.funnel == IDLE)
  {
    if can != Active {
      FailsafeOnLoss(Moved(cfg, s, c, now), can, now);
    }
  }

  /** The recovery guard on motion never decides: a fault clears exactly when it is a Degraded timeout and
      the observed cause is gone. */
  lemma FaultClearsIff(cfg: Config, marker: bool, acts: Actions, o: Observation)
    requires Observable(o) && Run(cfg, Initial(marker), acts).health == Fault
    ensures var s := Run(cfg, Initial(marker), acts);
            && (s.fault == DegradedTimeout ==> !IsMotion(s.funnel.current))
            && (Tick(cfg, s, o).health != Fault <==> s.fault == DegradedTimeout && ClassOf(cfg, o) == NoClass)
            && (Tick(cfg, s, o).health != Fault ==>
                  Tick(cfg, s, o).health == Degraded && Tick(cfg, s, o).funnel == IDLE)
  {
    RunKeepsInv(cfg, Initial(marker), acts);
    Classification(cfg, o);
    ClearsOn(cfg, Run(cfg, Initial(marker), acts), ClassOf(cfg, o), CanSeen(cfg, o), o.now);
  }

  // ---------------------------------------------------------------- degraded time

  predicate Monotone(acts: Actions, last: nat)
    decreases |acts|
  {
    acts == [] ||
    if acts[|acts| - 1].TickAction?
    then LastTick(acts[..|acts| - 1], last) <= acts[|acts| - 1].o.now && Monotone(acts[..|acts| - 1], last)
    else Monotone(acts[..|acts| - 1], last)
  }

  function LastTick(acts: Actions, last: nat): nat {
    if acts == [] then last
    else if acts[|acts| - 1].TickAction? then acts[|acts| - 1].o.now
    else LastTick(acts[..|acts| - 1], last)
  }

  ghost predicate Bounded(cfg: Config, s: State, monotone: bool) {
    s.health == Degraded ==>
      && s.timebaseSet && s.degMs < cfg.tDegMs
      && (monotone ==> s.entryMs <= s.lastMs < U64 && s.degMs == s.lastMs - s.entryMs)
  }

  lemma BoundedTick(cfg: Config, s: State, c: DegradedClass, can: CanState, now: nat, monotone: bool)
    requires cfg.tDegMs > 0 && now < U64 && Bounded(cfg, s, monotone) && Classified(c, can)
    ensures var t := TickOn(cfg, s, c, can, now); t.lastMs == now && Bounded(cfg, t, monotone && s.lastMs <= now)
  {
    var t := Moved(cfg, s, c, now);
    if can != Active {
      FailsafeOnLoss(t, can, now);
    } else {
      assert Failsafe(t, can, now) == t;
      assert Bounded(cfg, t, monotone && s.lastMs <= now);
    }
  }

  /** Degraded operation is bounded: with any clock the accumulated time stays below the limit, and with a
      clock that never steps back it is exactly the time since Degraded was entered. */
  lemma {:induction false} DegradedIsBounded(cfg: Config, marker: bool, acts: Actions)
    requires cfg.tDegMs > 0
    ensures var s := Run(cfg, Initial(marker), acts);
            && s.lastMs == LastTick(acts, 0)
            && (s.health == Degraded ==> s.degMs < cfg.tDegMs)
            && (s.health == Degraded && Monotone(acts, 0) ==> s.entryMs <= s.lastMs && s.degMs == s.lastMs - s.entryMs)
  {
    BoundedRun(cfg, marker, acts);
  }

  lemma {:induction false} BoundedRun(cfg: Config, marker: bool, acts: Actions)
    requires cfg.tDegMs > 0
    ensures var s := Run(cfg, Initial(marker), acts);
            s.lastMs == LastTick(acts, 0) && Bounded(cfg, s, Monotone(acts, 0))
    decreases |acts|
  {
    if acts != [] {
      var n := |acts| - 1;
      BoundedRun(cfg, marker, acts[..n]);
      match acts[n]
      case TickAction(o) =>
        Classification(cfg, o);
        BoundedTick(cfg, Run(cfg, Initial(marker), acts[..n]), ClassOf(cfg, o), CanSeen(cfg, o),
                            o.now, Monotone(acts[..n], 0));
      case ArbitrateAction(c) =>
    }
  }

  // ---------------------------------------------------------------- ready

  lemma ReadyOn(cfg: Config, s: State, c: DegradedClass, can: CanState, now: nat)
    requires Inv(s) && Classified(c, can)
    ensures TickOn(cfg, s, c, can, now).health == Ready <==>
            c == NoClass && (s.health == Ready || s.health == Degraded ||
            (s.health == Initializing && !s.markerPending && ReadyConditions(cfg, Started(s, now), now)))
  {
    assert Started(s, now).health == s.health;
  }

  /** A tick ends Ready exactly when in that tick no sensor is faulted, both directional samples are fresh
      and the bus is active, and the start-up gate was passed or Degraded stood in for it. */
  lemma ReadyIff(cfg: Config, s: State, o: Observation)
    requires Inv(s) && Observable(o)
    ensures Tick(cfg, s, o).health == Ready <==>
            && cfg.hasSensing && (cfg.hasCan ==> o.can == Active)
            && (forall i :: 0 <= i < SENSORS && o.sensors[i].Snapshot? ==> !o.sensors[i].faulted)
            && (forall i :: 0 <= i < 2 ==>
                  var x := o.sensors[i];
                  x.Snapshot? && x.hasSample && x.ageMs != 0xFFFF_FFFF && x.ageMs < cfg.tFreshMs)
            && (s.health == Ready || s.health == Degraded ||
                (s.health == Initializing && !s.markerPending && cfg.resetReconciled &&
                 var start := if s.timebaseSet then s.startedMs else o.now;
                 cfg.graceMs == 0 || o.now >= start + cfg.graceMs))
  {
    assert DirectionalFresh(cfg, o) <==> cfg.hasSensing && forall i :: 0 <= i < 2 ==> Fresh(cfg, o.sensors[i]);
    Classification(cfg, o);
    ReadyOn(cfg, s, ClassOf(cfg, o), CanSeen(cfg, o), o.now);
  }

  /** The start-up grace does not bind a unit that was Degraded meanwhile: with any grace and any unmet
      reset-cause check it is Ready one millisecond after its first tick. */
  lemma ReadyBeforeGrace(cfg: Config, bad: Observation)
    requires cfg.hasSensing && cfg.tFreshMs > 0 && cfg.tDegMs > 0
    requires Observable(bad) && bad.now == 0 && bad.can == Active && ClassOf(cfg, bad) == Sensing
    ensures Run(cfg, Initial(false), [TickAction(bad), TickAction(AllGood(1))]).health == Ready
  {
    var acts: Actions := [TickAction(bad), TickAction(AllGood(1))];
    assert acts[..1] == [TickAction(bad)] && acts[..1][..0] == [];
    assert Run(cfg, Initial(false), acts[..1]) == Tick(cfg, Run(cfg, Initial(false), []), bad);
    assert Tick(cfg, Initial(false), bad).health == Degraded;
    GoodClass(cfg, 1);
  }

  /** Falling from Ready to Degraded leaves the current intent, motion included, in the funnel. */
  lemma MotionOutlivesReady(cfg: Config, s: State, o: Observation)
    requires Inv(s) && Observable(o) && s.health == Ready && CanSeen(cfg, o) == Active
    ensures Tick(cfg, s, o).funnel == s.funnel
    ensures Tick(cfg, s, o).health == Degraded <==> ClassOf(cfg, o) == Sensing
  {
  }
}
