/** The arbitration funnel: every actuator intent goes in, one current intent comes out. */
module ArbitrationFunnel {

  datatype IntentSource = Activity | Safety
  datatype IntentKind = VelocitySetpoint | Stop | ForceStop | Lift
  datatype StopProfile = ControlledProfile | ImmediateProfile | ForceStopProfile

  datatype Intent = Intent(kind: IntentKind, source: IntentSource, profile: StopProfile, velocity: int, seqNo: nat)

  const NO_INTENT := Intent(VelocitySetpoint, Activity, ControlledProfile, 0, 0)

  datatype Funnel = Funnel(current: Intent, active: bool)

  const IDLE := Funnel(NO_INTENT, false)

  function Rank(i: Intent): nat {
    if i.source == Safety && i.kind == ForceStop then 4
    else if i.source == Safety && i.kind == Stop then 3
    else if i.source == Safety then 2
    else 1
  }

  predicate Preempts(candidate: Intent, current: Intent) {
    || Rank(candidate) > Rank(current)
    || (Rank(candidate) == Rank(current) && candidate.kind == current.kind)
  }

  predicate IsMotion(i: Intent) {
    i.kind == VelocitySetpoint || i.kind == Lift
  }

  predicate IsStop(i: Intent) {
    i.kind == Stop || i.kind == ForceStop
  }

  predicate IsSafetyStop(i: Intent) {
    i.source == Safety && IsStop(i)
  }

  predicate Takes(f: Funnel, c: Intent) {
    (IsStop(c) && !IsStop(f.current)) || Preempts(c, f.current)
  }

  function Applied(f: Funnel, c: Intent): Funnel {
    if Takes(f, c) then Funnel(c, true) else f
  }

  function AppliedAll(f: Funnel, cs: seq<Intent>): Funnel
    decreases |cs|
  {
    if cs == [] then f else AppliedAll(Applied(f, cs[0]), cs[1..])
  }

  /** The ratchet: once a Safety stop is current, whatever is applied the current intent stays a Safety
      stop of at least that rank. */
  lemma {:induction false} SafetyStopNeverWeakened(f: Funnel, cs: seq<Intent>)
    requires IsSafetyStop(f.current)
    ensures IsSafetyStop(AppliedAll(f, cs).current)
    ensures Rank(AppliedAll(f, cs).current) >= Rank(f.current)
    decreases |cs|
  {
    if cs != [] { SafetyStopNeverWeakened(Applied(f, cs[0]), cs[1..]); }
  }

  /** A Safety stop offered anywhere in the sequence is still in force at its end, itself or a stronger one. */
  lemma SafetyStopTakesEffect(f: Funnel, before: seq<Intent>, c: Intent, after: seq<Intent>)
    requires IsSafetyStop(c)
    ensures var r := AppliedAll(f, before + [c] + after).current; IsSafetyStop(r) && Rank(r) >= Rank(c)
  {
    AppliedSplit(f, before, [c] + after);
    assert before + ([c] + after) == before + [c] + after;
    var g := AppliedAll(f, before);
    assert ([c] + after)[1..] == after;
    SafetyStopNeverWeakened(Applied(g, c), after);
  }

  lemma {:induction false} AppliedSplit(f: Funnel, a: seq<Intent>, b: seq<Intent>)
    ensures AppliedAll(f, a + b) == AppliedAll(AppliedAll(f, a), b)
    decreases |a|
  {
    if a == [] {
      assert a + b == b;
    } else {
      assert (a + b)[0] == a[0] && (a + b)[1..] == a[1..] + b;
      AppliedSplit(Applied(f, a[0]), a[1..], b);
    }
  }

  /** Applying a stop leaves a stop current, and a current stop gives way to motion only when an activity's
      stop meets a Safety Authority motion. */
  lemma StopGivesWayIff(f: Funnel, c: Intent)
    ensures IsStop(c) ==> IsStop(Applied(f, c).current)
    ensures IsStop(f.current) ==>
              (IsMotion(Applied(f, c).current) <==> f.current.source == Activity && c.source == Safety && IsMotion(c))
  {
  }

  /** "A stop is never refused" fails exactly when another stop is current that outranks it, or that comes
      from the same source with the other kind: an activity's force-stop is refused after its plain stop. */
  lemma StopRefusedIff(f: Funnel, c: Intent)
    requires IsStop(c)
    ensures !Takes(f, c) <==>
            IsStop(f.current) &&
            (if f.current.source == Safety then c.source == Activity || (f.current.kind == ForceStop && c.kind == Stop)
             else c.source == Activity && c.kind != f.current.kind)
  {
  }

  /** A motion is taken exactly when it comes from the Safety Authority over an activity's intent, or from the
      same source over an intent of the same kind; then it is current, and otherwise nothing changes. */
  lemma MotionTakenIff(f: Funnel, c: Intent)
    requires IsMotion(c)
    ensures Applied(f, c)
            == if (c.source == Safety && f.current.source == Activity)
                  || (c.source == f.current.source && c.kind == f.current.kind)
               then Funnel(c, true) else f
  {
  }

  /** From idle the newest of an activity's velocity setpoints is always the current one. */
  lemma {:induction false} NewestSetpointWins(f: Funnel, cs: seq<Intent>)
    requires f.current.source == Activity && f.current.kind == VelocitySetpoint && cs != []
    requires forall i :: 0 <= i < |cs| ==> cs[i].source == Activity && cs[i].kind == VelocitySetpoint
    ensures AppliedAll(f, cs) == Funnel(cs[|cs| - 1], true)
    decreases |cs|
  {
    MotionTakenIff(f, cs[0]);
    if |cs| > 1 { NewestSetpointWins(Applied(f, cs[0]), cs[1..]); }
  }

  /** The intent an idle funnel shows is an activity's setpoint, so from idle an activity's lift is refused. */
  lemma LiftRefusedFromIdle(c: Intent)
    requires c.source == Activity && c.kind == Lift
    ensures Applied(IDLE, c) == IDLE && IDLE.current == Intent(VelocitySetpoint, Activity, ControlledProfile, 0, 0)
  {
    MotionTakenIff(IDLE, c);
  }

  /** The funnel keeps the higher-ranked of the two intents unless an activity's stop replaces a Safety
      motion, which ranks above it. */
  lemma HigherRankWinsIff(f: Funnel, c: Intent)
    ensures Rank(Applied(f, c).current) == (if Rank(c) > Rank(f.current) then Rank(c) else Rank(f.current)) <==>
            !(c.source == Activity && IsStop(c) && f.current.source == Safety && IsMotion(f.current))
  {
  }

  /** A force-stop is refused after an activity's plain stop: reached from idle with two applies. */
  lemma ForceStopRefused(stop: Intent, force: Intent)
    requires stop.source == Activity && stop.kind == Stop && force.source == Activity && force.kind == ForceStop
    ensures AppliedAll(IDLE, [stop]).current == stop && AppliedAll(IDLE, [stop, force]).current == stop
  {
    assert [stop][1..] == [] && [stop, force][1..] == [force] && [force][1..] == [];
    assert Applied(IDLE, stop) == Funnel(stop, true);
  }

  /** A Safety motion gives way to an activity's stop, which ranks below it: reached from idle with two
      applies. */
  lemma SafetyMotionDisplaced(motion: Intent, stop: Intent)
    requires motion.source == Safety && IsMotion(motion) && stop.source == Activity && IsStop(stop)
    ensures AppliedAll(IDLE, [motion]).current == motion && AppliedAll(IDLE, [motion, stop]).current == stop
    ensures Rank(stop) < Rank(motion)
  {
    assert [motion][1..] == [] && [motion, stop][1..] == [stop] && [stop][1..] == [];
    assert Applied(IDLE, motion) == Funnel(motion, true);
    assert AppliedAll(IDLE, [motion, stop]) == AppliedAll(Funnel(motion, true), [stop]);
    assert AppliedAll(Funnel(motion, true), [stop]) == Applied(Funnel(motion, true), stop);
  }

  class Arbitration {
    var current: Intent
    var active: bool

    ghost function View(): Funnel
      reads this
    {
      Funnel(current, active)
    }

    constructor ()
      ensures View() == IDLE
    {
      current := NO_INTENT;
      active := false;
    }

    method Apply(candidate: Intent) returns (r: Intent)
      modifies this
      ensures View() == Applied(old(View()), candidate) && r == current
    {
      var candidateStop := candidate.kind == Stop || candidate.kind == ForceStop;
      var currentStop := current.kind == Stop || current.kind == ForceStop;
      if candidateStop && !currentStop {
        current := candidate;
        active := true;
        return current;
      }
      if Preempts(candidate, current) {
        current := candidate;
        active := true;
      }
      return current;
    }

    method Reset()
      modifies this
      ensures View() == IDLE
    {
      current := NO_INTENT;
      active := false;
    }
  }
}
