/** The Safety Authority: health state machine and owner of the arbitration funnel. Every method is proved
    to do to its fields what its counterpart in SafetyModel does to their value. */
module SafetyAuthorityUnit {
  import opened ArbitrationFunnel
  import opened SafetyModel
  import opened Words
  import Runs = SafetyRuns

  class SafetyAuthority {
    const cfg: Config
    const funnel: Arbitration
    var health: Health
    var cls: DegradedClass
    var fault: SafetyFault
    var markerPending: bool
    var degMs: nat
    var lastMs: nat
    var entryMs: nat
    var startedMs: nat
    var seqNo: nat
    var timebaseSet: bool
    /** Calls made on the CAN port so far. */
    var canCalls: seq<CanCall>

    ghost function View(): State
      reads this, funnel
    {
      State(health, cls, fault, markerPending, degMs, lastMs, entryMs, startedMs, seqNo, timebaseSet,
            funnel.View(), canCalls)
    }

    ghost predicate Valid()
      reads this, funnel
    {
      Runs.Inv(View())
    }

    constructor (cfg: Config, markerPending: bool)
      ensures Valid() && View() == Initial(markerPending) && this.cfg == cfg && fresh(funnel)
    {
      this.cfg := cfg;
      funnel := new Arbitration();
      health := Initializing;
      cls := NoClass;
      fault := NoFault;
      this.markerPending := markerPending;
      degMs, lastMs, entryMs, startedMs, seqNo := 0, 0, 0, 0, 0;
      timebaseSet := false;
      canCalls := [];
    }

    // -------------------------------------------------------------- observations

    method AnyFaulted(o: Observation) returns (r: bool)
      ensures r <==> AnySensorFaulted(cfg, o)
    {
      if !cfg.hasSensing {
        return true;
      }
      for i := 0 to |o.sensors|
        invariant forall j :: 0 <= j < i ==> !(o.sensors[j].Snapshot? && o.sensors[j].faulted)
      {
        if o.sensors[i].Snapshot? && o.sensors[i].faulted {
          return true;
        }
      }
      return false;
    }

    method DirectionalSensingFresh(o: Observation) returns (r: bool)
      requires Observable(o)
      ensures r <==> DirectionalFresh(cfg, o)
    {
      if !cfg.hasSensing {
        return false;
      }
      for i := 0 to 2
        invariant forall j :: 0 <= j < i ==> Fresh(cfg, o.sensors[j])
      {
        var s := o.sensors[i];
        if !s.Snapshot? || !s.hasSample {
          return false;
        }
        var age := if s.ageMs == NEVER then U64 - 1 else s.ageMs;
        if s.ageMs == NEVER || age >= cfg.tFreshMs {
          return false;
        }
      }
      return true;
    }

    // -------------------------------------------------------------- transitions

    method ToDegraded(c: DegradedClass, now: nat)
      modifies this
      ensures View() == EnterDegraded(old(View()), c, now)
    {
      health, cls, degMs, entryMs := Degraded, c, 0, now;
    }

    method ToFault(f: SafetyFault, now: nat)
      modifies this
      ensures View() == EnterFault(old(View()), f, now)
    {
      health, fault, entryMs := Fault, f, now;
    }

    method ToReady(now: nat)
      modifies this
      ensures View() == EnterReady(old(View()), now)
    {
      health, cls, degMs, entryMs := Ready, NoClass, 0, now;
    }

    method IssueStop(p: StopProfile)
      modifies this, funnel
      ensures View() == EmitStop(old(View()), p)
    {
      seqNo := NextSeq(seqNo);
      var current := funnel.Apply(StopIntent(p, seqNo));
    }

    method StartTimebase(now: nat)
      modifies this
      ensures View() == Started(old(View()), now)
    {
      if !timebaseSet {
        lastMs, startedMs, entryMs, timebaseSet := now, now, now, true;
      }
    }

    method LeaveFault(now: nat)
      modifies this, funnel
      ensures View() == Recovered(old(View()), now)
    {
      fault := NoFault;
      funnel.Reset();
      health, cls, degMs, entryMs := Degraded, NoClass, 0, now;
    }

    method StayDegraded(now: nat)
      modifies this, funnel
      ensures var s := old(View()); var t := s.(degMs := Accumulated(s, now));
              View() == if t.degMs >= cfg.tDegMs then EmitStop(EnterFault(t, DegradedTimeout, now), ControlledProfile)
                        else t
    {
      if now >= lastMs {
        degMs := degMs + (now - lastMs);
        if degMs >= U64 {
          degMs := degMs - U64;
        }
      }
      if degMs >= cfg.tDegMs {
        ToFault(DegradedTimeout, now);
        IssueStop(ControlledProfile);
      }
    }

    /** Step 3 of the tick. */
    method Move(c: DegradedClass, now: nat)
      modifies this, funnel
      ensures View() == Transition(cfg, old(View()), c, now)
    {
      match health {
        case Initializing =>
          if markerPending {
            ToFault(CrashMarker, now);
          } else if c != NoClass {
            ToDegraded(c, now);
          } else if cfg.resetReconciled && (if now >= startedMs then now - startedMs else 0) >= cfg.graceMs {
            ToReady(now);
          }
        case Ready =>
          if c != NoClass {
            ToDegraded(c, now);
          }
        case Degraded =>
          if c == NoClass {
            ToReady(now);
          } else if IsMotionCapable(c) {
            StayDegraded(now);
          }
        case Fault =>
          if fault != CrashMarker && fault != CanFailsafe && c == NoClass && !IsMotion(funnel.current) {
            LeaveFault(now);
          }
      }
    }

    method Latch(now: nat)
      modifies this, funnel
      ensures View() == LatchCan(old(View()), now)
    {
      if health != Fault {
        ToFault(CanFailsafe, now);
      }
      IssueStop(ForceStopProfile);
    }

    /** Step 4. */
    method ReactToBus(can: CanState, now: nat)
      modifies this, funnel
      ensures View() == Failsafe(old(View()), can, now)
    {
      if can == ErrorPassive {
        Latch(now);
      }
      if can == BusOff {
        canCalls := canCalls + [RecoverBusOff];
        Latch(now);
      }
    }

    method Classify(o: Observation) returns (c: DegradedClass)
      requires Observable(o)
      ensures c == ClassOf(cfg, o)
    {
      var faulted := AnyFaulted(o);
      var directional := DirectionalSensingFresh(o);
      if faulted || !directional {
        return Sensing;
      }
      return if cfg.hasCan && o.can != Active then CanBus else NoClass;
    }

    method Progress(c: DegradedClass, now: nat)
      modifies this, funnel
      ensures View() == Moved(cfg, old(View()), c, now)
    {
      StartTimebase(now);
      Move(c, now);
      lastMs := now;
    }

    /** Step 5. */
    method SendForceStop()
      modifies this`canCalls
      ensures View() == ForceStopSent(cfg, old(View()))
    {
      if funnel.current.kind == ForceStop || funnel.current.profile == ForceStopProfile {
        if cfg.hasCan {
          canCalls := canCalls + [ForceStopTx];
        }
      }
    }

    method TickFields(o: Observation)
      requires Observable(o)
      modifies this, funnel
      ensures View() == Tick(cfg, old(View()), o)
    {
      var c := Classify(o);
      Progress(c, o.now);
      ReactToBus(if cfg.hasCan then o.can else Active, o.now);
      SendForceStop();
    }

    method SafetyTick(o: Observation)
      requires Valid() && Observable(o)
      modifies this, funnel
      ensures Valid() && View() == Tick(cfg, old(View()), o)
    {
      Runs.StepKeepsInv(cfg, View(), Runs.TickAction(o));
      TickFields(o);
    }

    method Offer(candidate: Intent) returns (current: Intent)
      requires Valid()
      modifies this, funnel
      ensures Valid() && View() == Arbitrate(old(View()), candidate) && current == View().funnel.current
    {
      Runs.StepKeepsInv(cfg, View(), Runs.ArbitrateAction(candidate));
      if candidate.source == Activity && health != Ready {
        return funnel.current;
      }
      current := funnel.Apply(candidate);
    }
  }
}
