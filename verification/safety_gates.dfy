/** When the Safety Authority lets a unit move and when it stops it, in terms of clock readings, sensor samples and
    the bus alone. */
module SafetyGates {
  import opened Options
  import opened ArbitrationFunnel
  import opened SafetyModel
  import opened SafetyRuns
  import opened Words

  /** No sensor is faulted, both directional samples are fresh, and the bus, if there is one, is active. */
  predicate AllHealthy(cfg: Config, o: Observation)
    requires Observable(o)
  {
    && cfg.hasSensing && (cfg.hasCan ==> o.can == Active)
    && (forall i :: 0 <= i < 5 && o.sensors[i].Snapshot? ==> !o.sensors[i].faulted)
    && Sampled(cfg, o.sensors[0]) && Sampled(cfg, o.sensors[1])
  }

  /** There is a sample, younger than the limit; an age of 2^32 - 1 stands for never. */
  predicate Sampled(cfg: Config, x: Snapshot) {
    x.Snapshot? && x.hasSample && x.ageMs != 0xFFFF_FFFF && x.ageMs < cfg.tFreshMs
  }

  lemma ClassIff(cfg: Config, o: Observation)
    requires Observable(o)
    ensures ClassOf(cfg, o) == NoClass <==> AllHealthy(cfg, o)
    ensures CanSeen(cfg, o) == Active && !AllHealthy(cfg, o) ==> ClassOf(cfg, o) == Sensing
  {
    assert DirectionalFresh(cfg, o) <==> cfg.hasSensing && Sampled(cfg, o.sensors[0]) && Sampled(cfg, o.sensors[1]);
  }

  // ---------------------------------------------------------------- the start-up grace

  /** The time of the first tick. */
  function FirstTick(acts: Actions): Option<nat> {
    if acts == [] then None
    else
      var f := FirstTick(acts[..|acts| - 1]);
      if f.None? && acts[|acts| - 1].TickAction? then Some(acts[|acts| - 1].o.now) else f
  }

  lemma {:induction false} StartIsFirstTick(cfg: Config, marker: bool, acts: Actions)
    ensures var s := Run(cfg, Initial(marker), acts);
            && (s.timebaseSet <==> FirstTick(acts).Some?) && (s.timebaseSet ==> s.startedMs == FirstTick(acts).value)
            && s.markerPending == marker
    decreases |acts|
  {
    if acts != [] {
      var n := |acts| - 1;
      var s := Run(cfg, Initial(marker), acts[..n]);
      StartIsFirstTick(cfg, marker, acts[..n]);
      if acts[n].TickAction? {
        TickKeepsStart(cfg, s, ClassOf(cfg, acts[n].o), CanSeen(cfg, acts[n].o), acts[n].o.now);
      }
    }
  }

  lemma TickKeepsStart(cfg: Config, s: State, c: DegradedClass, can: CanState, now: nat)
    ensures var t := TickOn(cfg, s, c, can, now);
            && t.timebaseSet && t.startedMs == (if s.timebaseSet then s.startedMs else now)
            && t.markerPending == s.markerPending
  {
    MovedKeepsStart(cfg, s, c, now);
    FailsafeKeepsStart(Moved(cfg, s, c, now), can, now);
  }

  lemma MovedKeepsStart(cfg: Config, s: State, c: DegradedClass, now: nat)
    ensures var t := Moved(cfg, s, c, now);
            && t.timebaseSet && t.startedMs == (if s.timebaseSet then s.startedMs else now)
            && t.markerPending == s.markerPending
  {
  }

  lemma FailsafeKeepsStart(s: State, can: CanState, now: nat)
    ensures var t := Failsafe(s, can, now);
            t.timebaseSet == s.timebaseSet && t.startedMs == s.startedMs && t.markerPending == s.markerPending
  {
  }

  lemma {:induction false} NeverInitializingAgain(cfg: Config, marker: bool, acts: Actions, k: nat)
    requires k <= |acts| && Run(cfg, Initial(marker), acts).health == Initializing
    ensures Run(cfg, Initial(marker), acts[..k]).health == Initializing
    decreases |acts|
  {
    if k == |acts| {
      assert acts[..k] == acts;
    } else {
      var n := |acts| - 1;
      var s := Run(cfg, Initial(marker), acts[..n]);
      if acts[n].TickAction? {
        StaysOut(cfg, s, ClassOf(cfg, acts[n].o), CanSeen(cfg, acts[n].o), acts[n].o.now);
      }
      NeverInitializingAgain(cfg, marker, acts[..n], k);
      assert acts[..n][..k] == acts[..k];
    }
  }

  lemma StaysOut(cfg: Config, s: State, c: DegradedClass, can: CanState, now: nat)
    ensures s.health != Initializing ==> TickOn(cfg, s, c, can, now).health != Initializing
  {
    if can != Active { FailsafeOnLoss(Moved(cfg, s, c, now), can, now); }
  }

  lemma InitializingOn(cfg: Config, s: State, c: DegradedClass, can: CanState, now: nat)
    requires s.health == Initializing && !s.markerPending && Classified(c, can)
    ensures var t := TickOn(cfg, s, c, can, now); var start := if s.timebaseSet then s.startedMs else now;
            t.health == if can != Active then Fault
                        else if c != NoClass then Degraded
                        else if cfg.resetReconciled && (cfg.graceMs == 0 || now >= start + cfg.graceMs) then Ready
                        else Initializing
  {
    if can != Active { FailsafeOnLoss(Moved(cfg, s, c, now), can, now); }
  }

  /** The start-up gate, over every run without a crash marker: while no tick has left Initializing, a tick ends
      Ready exactly when all is healthy, the reset cause is reconciled and the grace period has passed since the
      first tick; without the bus it ends in Fault, otherwise unhealthy in Degraded, and else still Initializing. */
  lemma StartUpGate(cfg: Config, acts: Actions, o: Observation)
    requires Observable(o) && Run(cfg, Initial(false), acts).health == Initializing
    ensures forall k :: 0 <= k <= |acts| ==> Run(cfg, Initial(false), acts[..k]).health == Initializing
    ensures var first := if FirstTick(acts).Some? then FirstTick(acts).value else o.now;
            Tick(cfg, Run(cfg, Initial(false), acts), o).health
            == if cfg.hasCan && o.can != Active then Fault
               else if !AllHealthy(cfg, o) then Degraded
               else if cfg.resetReconciled && (cfg.graceMs == 0 || o.now >= first + cfg.graceMs) then Ready
               else Initializing
  {
    var s := Run(cfg, Initial(false), acts);
    forall k | 0 <= k <= |acts| ensures Run(cfg, Initial(false), acts[..k]).health == Initializing {
      NeverInitializingAgain(cfg, false, acts, k);
    }
    StartIsFirstTick(cfg, false, acts);
    ClassIff(cfg, o);
    Classification(cfg, o);
    InitializingOn(cfg, s, ClassOf(cfg, o), CanSeen(cfg, o), o.now);
  }

  // ---------------------------------------------------------------- degraded operation

  /** The time of the tick at which the present Degraded period began. */
  function EnteredAt(cfg: Config, marker: bool, acts: Actions): nat {
    if acts == [] then 0
    else
      var n := |acts| - 1;
      if acts[n].TickAction? && Run(cfg, Initial(marker), acts).health == Degraded
         && Run(cfg, Initial(marker), acts[..n]).health != Degraded
      then acts[n].o.now else EnteredAt(cfg, marker, acts[..n])
  }

  lemma EntryOn(cfg: Config, s: State, c: DegradedClass, can: CanState, now: nat)
    ensures var t := TickOn(cfg, s, c, can, now);
            t.health == Degraded ==> t.entryMs == if s.health == Degraded && s.timebaseSet then s.entryMs else now
  {
    if can != Active { FailsafeOnLoss(Moved(cfg, s, c, now), can, now); }
  }

  lemma {:induction false} EntryIsEntered(cfg: Config, marker: bool, acts: Actions)
    ensures var s := Run(cfg, Initial(marker), acts); s.health == Degraded ==> s.entryMs == EnteredAt(cfg, marker, acts)
    decreases |acts|
  {
    if acts != [] {
      var n := |acts| - 1;
      var s := Run(cfg, Initial(marker), acts[..n]);
      EntryIsEntered(cfg, marker, acts[..n]);
      RunKeepsInv(cfg, Initial(marker), acts[..n]);
      if acts[n].TickAction? {
        EntryOn(cfg, s, ClassOf(cfg, acts[n].o), CanSeen(cfg, acts[n].o), acts[n].o.now);
      }
    }
  }

  /** What a tick makes of a Degraded unit on an active bus. */
  lemma DegradedOn(cfg: Config, s: State, c: DegradedClass, now: nat)
    requires Inv(s) && s.health == Degraded && s.lastMs <= now < U64 && s.degMs + (now - s.lastMs) < U64
    requires c == NoClass || c == Sensing
    ensures var t := TickOn(cfg, s, c, Active, now);
            if c == NoClass then t.health == Ready && t.funnel == s.funnel
            else if s.degMs + (now - s.lastMs) < cfg.tDegMs then t.health == Degraded && t.funnel == s.funnel
            else
              && t.health == Fault && t.fault == DegradedTimeout
              && t.funnel == if IsSafetyStop(s.funnel.current) && s.funnel.current.kind == ForceStop then s.funnel
                             else Funnel(Intent(Stop, Safety, ControlledProfile, 0, t.seqNo), true)
  {
  }

  /** Over every run with a clock that never steps back: a Degraded unit on an active bus is Ready again in the
      first healthy tick, and until then times out exactly in the first tick at which the Degraded period is as
      long as the limit. A timeout makes a controlled stop the current intent, or leaves a force-stop. */
  lemma DegradedTimesOutIff(cfg: Config, marker: bool, acts: Actions, o: Observation)
    requires cfg.tDegMs > 0 && Observable(o) && (cfg.hasCan ==> o.can == Active)
    requires Run(cfg, Initial(marker), acts).health == Degraded && Monotone(acts, 0) && LastTick(acts, 0) <= o.now
    ensures var s := Run(cfg, Initial(marker), acts); var t := Tick(cfg, s, o);
            && EnteredAt(cfg, marker, acts) <= o.now
            && if AllHealthy(cfg, o) then t.health == Ready && t.funnel == s.funnel
               else if o.now - EnteredAt(cfg, marker, acts) < cfg.tDegMs then
                 t.health == Degraded && t.funnel == s.funnel
               else
                 && t.health == Fault && t.fault == DegradedTimeout
                 && t.funnel == if IsSafetyStop(s.funnel.current) && s.funnel.current.kind == ForceStop then s.funnel
                                else Funnel(Intent(Stop, Safety, ControlledProfile, 0, t.seqNo), true)
  {
    var s := Run(cfg, Initial(marker), acts);
    RunKeepsInv(cfg, Initial(marker), acts);
    DegradedIsBounded(cfg, marker, acts);
    EntryIsEntered(cfg, marker, acts);
    ClassIff(cfg, o);
    DegradedOn(cfg, s, ClassOf(cfg, o), o.now);
  }

  /** At any clock: the accumulated time grows by what the clock went forward, modulo 2^64, and the unit times out
      exactly when it then reaches the limit. */
  lemma TimesOutIff(cfg: Config, s: State, o: Observation)
    requires s.health == Degraded && s.timebaseSet && s.degMs < U64 && s.lastMs < U64
    requires Observable(o) && (cfg.hasCan ==> o.can == Active) && !AllHealthy(cfg, o)
    ensures var t := Tick(cfg, s, o); var total := (s.degMs + if o.now > s.lastMs then o.now - s.lastMs else 0) % U64;
            && t.degMs == total && t.lastMs == o.now
            && t.health == (if total >= cfg.tDegMs then Fault else Degraded)
  {
    ClassIff(cfg, o);
    AccumulatedIs(s, o.now);
    DegradedTime(cfg, s, o.now);
  }

  lemma AccumulatedIs(s: State, now: nat)
    requires s.degMs < U64 && now < U64
    ensures Accumulated(s, now) == (s.degMs + if now > s.lastMs then now - s.lastMs else 0) % U64
  {
    if now > s.lastMs && s.degMs + (now - s.lastMs) >= U64 {
      assert (s.degMs + (now - s.lastMs)) % U64 == s.degMs + (now - s.lastMs) - U64;
    }
  }

  lemma DegradedTime(cfg: Config, s: State, now: nat)
    requires s.health == Degraded && s.timebaseSet
    ensures var t := TickOn(cfg, s, Sensing, Active, now);
            && t.degMs == Accumulated(s, now) && t.lastMs == now
            && t.health == if Accumulated(s, now) >= cfg.tDegMs then Fault else Degraded
  {
  }

  // ---------------------------------------------------------------- what is reported

  predicate SensingHealthy(cfg: Config, o: Observation)
    requires Observable(o)
  {
    && cfg.hasSensing && (forall i :: 0 <= i < 5 && o.sensors[i].Snapshot? ==> !o.sensors[i].faulted)
    && Sampled(cfg, o.sensors[0]) && Sampled(cfg, o.sensors[1])
  }

  /** The reported class and time of entry: a Ready or starting unit takes on what is wrong with it, sensing before
      the bus, and keeps that until it is Ready or cleared; the time is that of the last change of health. */
  lemma ReportAfterTick(cfg: Config, s: State, o: Observation)
    requires Observable(o)
    ensures var t := Tick(cfg, s, o);
            && t.cls == (if (s.health == Ready || (s.health == Initializing && !s.markerPending)) && !AllHealthy(cfg, o)
                         then if SensingHealthy(cfg, o) then CanBus else Sensing
                         else if t.health != s.health && (t.health == Ready || t.health == Degraded) then NoClass
                         else s.cls)
            && t.entryMs == (if s.timebaseSet && t.health == s.health then s.entryMs else o.now)
            && (t.health != s.health && (t.health == Ready || t.health == Degraded) ==> t.degMs == 0)
  {
    ClassIff(cfg, o);
    Classification(cfg, o);
    assert SensingHealthy(cfg, o) <==> ClassOf(cfg, o) != Sensing;
    ReportOn(cfg, s, ClassOf(cfg, o), CanSeen(cfg, o), o.now);
  }

  /** The class and the time after a change of health from `s` to `t`. */
  predicate Reported(s: State, t: State, c: DegradedClass, now: nat) {
    && t.cls == (if (s.health == Ready || (s.health == Initializing && !s.markerPending)) && c != NoClass then c
                 else if t.health != s.health && (t.health == Ready || t.health == Degraded) then NoClass
                 else s.cls)
    && t.entryMs == (if s.timebaseSet && t.health == s.health then s.entryMs else now)
    && (t.health != s.health && (t.health == Ready || t.health == Degraded) ==> t.degMs == 0)
  }

  lemma ReportMoved(cfg: Config, s: State, c: DegradedClass, now: nat)
    ensures Reported(s, Moved(cfg, s, c, now), c, now)
  {
  }

  lemma FailsafeReport(s: State, can: CanState, now: nat)
    ensures var t := Failsafe(s, can, now);
            && t.cls == s.cls && t.degMs == s.degMs
            && t.entryMs == (if can != Active && s.health != Fault then now else s.entryMs)
            && t.health == if can != Active then Fault else s.health
  {
  }

  lemma ReportOn(cfg: Config, s: State, c: DegradedClass, can: CanState, now: nat)
    requires Classified(c, can)
    ensures Reported(s, TickOn(cfg, s, c, can, now), c, now)
  {
    var u := Moved(cfg, s, c, now);
    ReportMoved(cfg, s, c, now);
    FailsafeReport(u, can, now);
  }

  /** How many stops a tick issues: one for a timeout, and one for the lost bus. */
  function StopsIssued(cfg: Config, s: State, o: Observation): nat
    requires Observable(o)
  {
    var t := Tick(cfg, s, o);
    (if s.health == Degraded && t.health == Fault && t.fault == DegradedTimeout then 1 else 0)
    + if cfg.hasCan && o.can != Active then 1 else 0
  }

  function IssuedBy(cfg: Config, s: State, a: Action): nat
    requires Feasible(a)
  {
    match a
    case TickAction(o) => StopsIssued(cfg, s, o)
    case ArbitrateAction(_) => 0
  }

  function StopsOver(cfg: Config, marker: bool, acts: Actions): nat {
    if acts == [] then 0
    else
      var n := |acts| - 1;
      StopsOver(cfg, marker, acts[..n]) + IssuedBy(cfg, Run(cfg, Initial(marker), acts[..n]), acts[n])
  }

  lemma MovedNumbers(cfg: Config, s: State, c: DegradedClass, now: nat)
    requires s.health == Fault <==> s.fault != NoFault
    ensures var t := Moved(cfg, s, c, now);
            && t.seqNo == (if s.health == Degraded && t.health == Fault then NextSeq(s.seqNo) else s.seqNo)
            && (s.health == Degraded && t.health == Fault ==> t.fault == DegradedTimeout)
            && (s.health == Degraded && t.health != Fault ==> t.fault == NoFault)
  {
  }

  lemma FailsafeNumbers(s: State, can: CanState, now: nat)
    ensures var t := Failsafe(s, can, now);
            && t.seqNo == (if can != Active then NextSeq(s.seqNo) else s.seqNo)
            && (s.health == Fault ==> t.health == Fault && t.fault == s.fault)
            && (s.health != Fault && s.fault == NoFault ==> t.fault != DegradedTimeout)
  {
  }

  /** The number of the k-th stop. */
  function Numbered(k: nat): nat {
    if k == 0 then 0 else NextSeq(Numbered(k - 1))
  }

  lemma RemainderIs(k: nat, q: nat, r: nat)
    requires k == q * U32 + r && r < U32
    ensures k % U32 == r
  {
  }

  lemma NextRemainder(k: nat, q: nat, r: nat)
    requires k == q * U32 + r && r < U32
    ensures (k + 1) % U32 == NextSeq(r)
  {
    if r + 1 < U32 { RemainderIs(k + 1, q, r + 1); } else { RemainderIs(k + 1, q + 1, 0); }
  }

  lemma {:induction false} NumberedIs(k: nat)
    ensures Numbered(k) == k % U32
  {
    if k > 0 {
      NumberedIs(k - 1);
      NextRemainder(k - 1, (k - 1) / U32, (k - 1) % U32);
    }
  }

  lemma StopsNumbered(cfg: Config, s: State, o: Observation, k: nat)
    requires Observable(o) && s.seqNo == Numbered(k) && (s.health == Fault <==> s.fault != NoFault)
    ensures Tick(cfg, s, o).seqNo == Numbered(k + StopsIssued(cfg, s, o))
  {
    var u := Moved(cfg, s, ClassOf(cfg, o), o.now);
    MovedNumbers(cfg, s, ClassOf(cfg, o), o.now);
    FailsafeNumbers(u, CanSeen(cfg, o), o.now);
    assert Numbered(k + 1) == NextSeq(Numbered(k));
    assert Numbered(k + 2) == NextSeq(Numbered(k + 1));
  }

  lemma StepNumbered(cfg: Config, s: State, t: State, a: Action, k: nat, m: nat)
    requires Inv(s) && Feasible(a) && s.seqNo == Numbered(k)
    requires t == Step(cfg, s, a) && m == k + IssuedBy(cfg, s, a)
    ensures t.seqNo == Numbered(m)
  {
    if a.TickAction? { StopsNumbered(cfg, s, a.o, k); }
  }

  lemma {:induction false} RunNumbered(cfg: Config, marker: bool, acts: Actions)
    ensures Run(cfg, Initial(marker), acts).seqNo == Numbered(StopsOver(cfg, marker, acts))
    decreases |acts|
  {
    if acts != [] {
      var n := |acts| - 1;
      var s, t := Run(cfg, Initial(marker), acts[..n]), Run(cfg, Initial(marker), acts);
      RunNumbered(cfg, marker, acts[..n]);
      RunKeepsInv(cfg, Initial(marker), acts[..n]);
      StepNumbered(cfg, s, t, acts[n], StopsOver(cfg, marker, acts[..n]), StopsOver(cfg, marker, acts));
    }
  }

  /** Over every run the stops issued are numbered one after another, modulo 2^32. */
  lemma StopsAreNumbered(cfg: Config, marker: bool, acts: Actions)
    ensures Run(cfg, Initial(marker), acts).seqNo == StopsOver(cfg, marker, acts) % 0x1_0000_0000
  {
    RunNumbered(cfg, marker, acts);
    NumberedIs(StopsOver(cfg, marker, acts));
  }

  // ---------------------------------------------------------------- bus loss and offers

  lemma LossStops(s: State, can: CanState, now: nat)
    requires can != Active
    ensures var t := Failsafe(s, can, now);
            t.health == Fault && t.funnel == Funnel(Intent(ForceStop, Safety, ForceStopProfile, 0, t.seqNo), true)
  {
    var u := if can == BusOff then s.(canCalls := s.canCalls + [RecoverBusOff]) else s;
    EmittedForceStop(if u.health != Fault then EnterFault(u, CanFailsafe, now) else u);
  }

  /** Without the bus a tick makes a force-stop of its own the current intent. */
  lemma BusLossStops(cfg: Config, s: State, o: Observation)
    requires Observable(o) && cfg.hasCan && o.can != Active
    ensures var t := Tick(cfg, s, o);
            t.health == Fault && t.funnel == Funnel(Intent(ForceStop, Safety, ForceStopProfile, 0, t.seqNo), true)
  {
    LossStops(Moved(cfg, s, ClassOf(cfg, o), o.now), o.can, o.now);
  }

  /** An activity's motion takes effect exactly when the unit is Ready and the current intent is an activity's of
      the same kind; an idle funnel shows a setpoint. */
  lemma ActivityMotionMovesIff(s: State, c: Intent)
    requires c.source == Activity && IsMotion(c) && c != s.funnel.current
    ensures Arbitrate(s, c).funnel.current == c <==>
            s.health == Ready && s.funnel.current.source == Activity && s.funnel.current.kind == c.kind
    ensures Arbitrate(s, c).funnel.current != c ==> Arbitrate(s, c) == s
  {
  }
}
