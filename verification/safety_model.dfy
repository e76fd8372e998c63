/** One safety tick and one arbitration call, as functions on the state of the Safety Authority. */
module SafetyModel {
  import opened ArbitrationFunnel
  import opened Words

  const NEVER := 0xFFFF_FFFF

  datatype Health = Initializing | Ready | Degraded | Fault
  datatype DegradedClass = NoClass | Sensing | CanBus | Overtemp | BmsStale
  datatype SafetyFault = NoFault | DegradedTimeout | DirectionalToF | CanFailsafe | CrashMarker
  datatype CanState = Active | ErrorPassive | BusOff

  /** What a sensor reports; None when its snapshot cannot be read. */
  datatype Snapshot = NoSnapshot | Snapshot(hasSample: bool, ageMs: nat, faulted: bool)

  const SENSORS := 5

  /** What one tick observes. The first two sensors are the directional ones. */
  datatype Observation = Observation(now: nat, sensors: seq<Snapshot>, can: CanState)

  /** `hasSensing` and `hasCan` say which ports were attached. */
  datatype Config = Config(
    graceMs: nat, tDegMs: nat, tFreshMs: nat, resetReconciled: bool, hasSensing: bool, hasCan: bool)

  datatype CanCall = ForceStopTx | RecoverBusOff

  datatype State = State(
    health: Health, cls: DegradedClass, fault: SafetyFault, markerPending: bool,
    degMs: nat, lastMs: nat, entryMs: nat, startedMs: nat, seqNo: nat, timebaseSet: bool,
    funnel: Funnel, canCalls: seq<CanCall>)

  predicate Observable(o: Observation) {
    |o.sensors| == SENSORS && o.now < U64
  }

  // ---------------------------------------------------------------- observations

  predicate AnySensorFaulted(cfg: Config, o: Observation) {
    !cfg.hasSensing || exists i :: 0 <= i < |o.sensors| && o.sensors[i].Snapshot? && o.sensors[i].faulted
  }

  predicate Fresh(cfg: Config, s: Snapshot) {
    s.Snapshot? && s.hasSample && s.ageMs != NEVER && s.ageMs < cfg.tFreshMs
  }

  predicate DirectionalFresh(cfg: Config, o: Observation)
    requires Observable(o)
  {
    cfg.hasSensing && Fresh(cfg, o.sensors[0]) && Fresh(cfg, o.sensors[1])
  }

  function CanSeen(cfg: Config, o: Observation): CanState {
    if cfg.hasCan then o.can else Active
  }

  function ClassOf(cfg: Config, o: Observation): DegradedClass
    requires Observable(o)
  {
    if AnySensorFaulted(cfg, o) || !DirectionalFresh(cfg, o) then Sensing
    else if CanSeen(cfg, o) != Active then CanBus
    else NoClass
  }

  predicate IsMotionCapable(c: DegradedClass) {
    c == Sensing || c == Overtemp
  }

  predicate ReadyConditions(cfg: Config, s: State, now: nat) {
    cfg.resetReconciled && (if now >= s.startedMs then now - s.startedMs else 0) >= cfg.graceMs
  }

  // ---------------------------------------------------------------- transitions

  function EnterDegraded(s: State, c: DegradedClass, now: nat): State {
    s.(health := Degraded, cls := c, degMs := 0, entryMs := now)
  }

  function EnterFault(s: State, f: SafetyFault, now: nat): State {
    s.(health := Fault, fault := f, entryMs := now)
  }

  function EnterReady(s: State, now: nat): State {
    s.(health := Ready, cls := NoClass, degMs := 0, entryMs := now)
  }

  function NextSeq(n: nat): nat {
    if n + 1 >= U32 then 0 else n + 1
  }

  function StopIntent(p: StopProfile, n: nat): Intent {
    Intent(if p == ForceStopProfile then ForceStop else Stop, Safety, p, 0, n)
  }

  function EmitStop(s: State, p: StopProfile): State {
    var n := NextSeq(s.seqNo);
    s.(seqNo := n, funnel := Applied(s.funnel, StopIntent(p, n)))
  }

  /** Degraded time, accumulated modulo 2^64 and never for a clock that steps back. */
  function Accumulated(s: State, now: nat): nat {
    if now < s.lastMs then s.degMs
    else if s.degMs + (now - s.lastMs) >= U64 then s.degMs + (now - s.lastMs) - U64
    else s.degMs + (now - s.lastMs)
  }

  function Started(s: State, now: nat): State {
    if s.timebaseSet then s else s.(lastMs := now, startedMs := now, entryMs := now, timebaseSet := true)
  }

  function Recovered(s: State, now: nat): State {
    s.(fault := NoFault, funnel := IDLE, health := Degraded, cls := NoClass, degMs := 0, entryMs := now)
  }

  /** Step 3 of the tick. */
  function Transition(cfg: Config, s: State, c: DegradedClass, now: nat): State {
    match s.health
    case Initializing =>
      if s.markerPending then EnterFault(s, CrashMarker, now)
      else if c != NoClass then EnterDegraded(s, c, now)
      else if ReadyConditions(cfg, s, now) then EnterReady(s, now)
      else s
    case Ready => if c != NoClass then EnterDegraded(s, c, now) else s
    case Degraded =>
      if c == NoClass then EnterReady(s, now)
      else if IsMotionCapable(c) then
        var t := s.(degMs := Accumulated(s, now));
        if t.degMs >= cfg.tDegMs then EmitStop(EnterFault(t, DegradedTimeout, now), ControlledProfile) else t
      else s
    case Fault =>
      if s.fault != CrashMarker && s.fault != CanFailsafe && c == NoClass && !IsMotion(s.funnel.current)
      then Recovered(s, now) else s
  }

  function LatchCan(s: State, now: nat): State {
    EmitStop(if s.health != Fault then EnterFault(s, CanFailsafe, now) else s, ForceStopProfile)
  }

  /** Step 4. */
  function Failsafe(s: State, can: CanState, now: nat): State {
    match can
    case Active => s
    case ErrorPassive => LatchCan(s, now)
    case BusOff => LatchCan(s.(canCalls := s.canCalls + [RecoverBusOff]), now)
  }

  predicate ForceStopDue(f: Funnel) {
    f.current.kind == ForceStop || f.current.profile == ForceStopProfile
  }

  /** Step 5. */
  function ForceStopSent(cfg: Config, s: State): State {
    if ForceStopDue(s.funnel) && cfg.hasCan then s.(canCalls := s.canCalls + [ForceStopTx]) else s
  }

  /** The tick once the observations are classified. */
  function TickOn(cfg: Config, s: State, c: DegradedClass, can: CanState, now: nat): State {
    ForceStopSent(cfg, Failsafe(Moved(cfg, s, c, now), can, now))
  }

  /** The state after steps 1 to 3. */
  function Moved(cfg: Config, s: State, c: DegradedClass, now: nat): State {
    Transition(cfg, Started(s, now), c, now).(lastMs := now)
  }

  function Tick(cfg: Config, s: State, o: Observation): State
    requires Observable(o)
  {
    TickOn(cfg, s, ClassOf(cfg, o), CanSeen(cfg, o), o.now)
  }

  /** An activity's intent gets through only when motion is allowed. */
  function Arbitrate(s: State, c: Intent): State {
    if c.source == Activity && s.health != Ready then s else s.(funnel := Applied(s.funnel, c))
  }

  function Initial(markerPending: bool): State {
    State(Initializing, NoClass, NoFault, markerPending, 0, 0, 0, 0, 0, false, IDLE, [])
  }
}
