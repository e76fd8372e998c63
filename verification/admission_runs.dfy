/** At-most-once admission over every run: what a resent request is answered, whatever happened meanwhile. */
module AdmissionRuns {
  import opened Options
  import opened Forest
  import opened Ledger
  import opened Codec
  import opened AdmissionModel
  import Rt = RuntimeModel
  import RtRuns = RuntimeRuns

  /** Anything that can happen between two deliveries of a request. */
  datatype Action =
    | AdmitAction(g: Gates, r: OperationRequest)
    | RuntimeAction(c: RtRuns.Call)
    | RegisterAction(t: OperationType)
    | GrantAction(grant: Grant)

  predicate Feasible(a: Action) {
    a.AdmitAction? ==> WellSized(a.r)
  }

  type Actions = acts: seq<Action> | forall i :: 0 <= i < |acts| ==> Feasible(acts[i])

  ghost function Step(s: State, a: Action): State
    requires Feasible(a)
  {
    match a
    case AdmitAction(g, r) => After(s, g, r)
    case RuntimeAction(c) => s.(rt := RtRuns.Step(s.rt, c))
    case RegisterAction(t) => s.(types := Registered(s.types, t))
    case GrantAction(grant) => s.(grant := grant)
  }

  ghost function Run(s: State, acts: Actions): State {
    if acts == [] then s else Step(Run(s, acts[..|acts| - 1]), acts[|acts| - 1])
  }

  /** What one action stores for principal `a`. */
  ghost function StoredBy(s: State, act: Action, a: nat): (r: seq<Slot>)
    requires Feasible(act)
    ensures |r| <= 1
  {
    if act.AdmitAction? && s.grant.authority == a && Admit(s, act.g, act.r).stored.Some?
    then [Slot(act.r.controllerEpoch, Admit(s, act.g, act.r).stored.value)] else []
  }

  ghost function Stores(s: State, acts: Actions, a: nat): seq<Slot> {
    if acts == [] then []
    else Stores(s, acts[..|acts| - 1], a) + StoredBy(Run(s, acts[..|acts| - 1]), acts[|acts| - 1], a)
  }

  // ---------------------------------------------------------------- what every step keeps

  lemma StepKeepsInv(s: State, a: Action)
    requires Inv(s) && Feasible(a)
    ensures Inv(Step(s, a))
  {
    match a
    case AdmitAction(g, r) => AdmitKeepsInv(s, g, r);
    case RuntimeAction(c) => RtRuns.StepKeepsInv(s.rt, c);
    case RegisterAction(t) =>
    case GrantAction(grant) =>
  }

  lemma {:induction false} RunKeepsInv(s: State, acts: Actions)
    requires Inv(s)
    ensures Inv(Run(s, acts))
    decreases |acts|
  {
    if acts != [] {
      RunKeepsInv(s, acts[..|acts| - 1]);
      StepKeepsInv(Run(s, acts[..|acts| - 1]), acts[|acts| - 1]);
    }
  }

  /** Types are only ever added, so a known type stays what it was. */
  lemma {:induction false} TypesStay(s: State, acts: Actions, id: nat)
    ensures s.types <= Run(s, acts).types
    ensures FindType(s.types, id) < |s.types| ==> FindType(Run(s, acts).types, id) == FindType(s.types, id)
    decreases |acts|
  {
    if acts != [] {
      TypesStay(s, acts[..|acts| - 1], id);
      var t := Run(s, acts[..|acts| - 1]);
      assert t.types <= Step(t, acts[|acts| - 1]).types;
    }
  }

  lemma NewestOfMore<T>(s: seq<T>, more: seq<T>, x: seq<T>, n: nat)
    requires n > 0 && |x| <= 1
    ensures Newest(Newest(s + more, n) + x, n) == Newest(s + (more + x), n)
  {
    assert s + (more + x) == (s + more) + x;
    NewestTwice(s + more, x, n);
  }

  lemma NewestTwice<T>(s: seq<T>, x: seq<T>, n: nat)
    requires n > 0 && |x| <= 1
    ensures Newest(Newest(s, n) + x, n) == Newest(s + x, n)
  {
    if x == [] {
      assert Newest(s, n) + x == Newest(s, n) && s + x == s;
    } else {
      assert x == [x[0]];
      NewestAppend(s, x[0], n);
    }
  }

  lemma RingAfterStep(s: State, act: Action, a: nat)
    requires a < PRINCIPALS && |s.ledger[a]| <= DEPTH && Feasible(act)
    ensures Step(s, act).ledger[a] == Newest(s.ledger[a] + StoredBy(s, act, a), DEPTH)
  {
    assert s.ledger[a] + [] == s.ledger[a];
  }

  /** A principal's ring after a run is the last eight of what it held and what the run stored for it. */
  lemma {:induction false} RingAfterRun(s: State, acts: Actions, a: nat)
    requires a < 16 && |s.ledger[a]| <= 8
    ensures Run(s, acts).ledger[a] == Newest(s.ledger[a] + Stores(s, acts, a), 8)
    decreases |acts|
  {
    var ring := s.ledger[a];
    if acts == [] {
      assert ring + [] == ring;
    } else {
      var n := |acts| - 1;
      RingAfterRun(s, acts[..n], a);
      var t := Run(s, acts[..n]);
      var x := StoredBy(t, acts[n], a);
      NewestOfMore(ring, Stores(s, acts[..n], a), x, DEPTH);
      RingAfterStep(t, acts[n], a);
    }
  }

  // ---------------------------------------------------------------- resending

  /** The same client sends `r` again: same epoch, same principal, a role it still has. */
  predicate Resendable(s: State, g: Gates, r: OperationRequest) {
    g.epoch == Some(r.controllerEpoch) && s.grant.authority == r.authorityId && RoleAllowed(s.grant, r.role)
  }

  lemma ResentPassesStatic(s: State, g: Gates, r: OperationRequest, acts: Actions, g2: Gates)
    requires WellSized(r) && StaticReject(s, g, r).None?
    requires Resendable(Run(s, acts), g2, r)
    ensures StaticReject(Run(s, acts), g2, r).None?
  {
    TypesStay(s, acts, r.operationType);
  }

  /** The entry stored by an admission is the newest of its ring. */
  lemma StoredIsNewest(s: State, g: Gates, r: OperationRequest)
    requires Inv(s) && WellSized(r) && Admit(s, g, r).stored.Some? && s.grant.authority < PRINCIPALS
    ensures var ring := After(s, g, r).ledger[s.grant.authority];
            0 < |ring| <= DEPTH && ring[|ring| - 1] == Slot(r.controllerEpoch, Admit(s, g, r).stored.value)
  {
  }

  /** The entry stored last is still in the ring while fewer than eight stores followed. */
  lemma KeptWhileEight(ring: seq<Slot>, more: seq<Slot>, x: Slot)
    requires 0 < |ring| <= DEPTH && ring[|ring| - 1] == x && |more| < DEPTH
    ensures x in Newest(ring + more, DEPTH)
  {
    var all := ring + more;
    var kept := Newest(all, DEPTH);
    var i := |ring| - 1 - (|all| - |kept|);
    assert kept[i] == all[|ring| - 1] == x;
  }

  /** After eight, only what came later is. */
  lemma GoneAfterEight(ring: seq<Slot>, more: seq<Slot>)
    requires |more| >= DEPTH
    ensures forall y :: y in Newest(ring + more, DEPTH) ==> y in more
  {
    assert Newest(ring + more, DEPTH) == more[|more| - DEPTH..];
  }

  lemma FoundUnique(ring: seq<Slot>, x: Slot)
    requires UniqueKeys(ring) && x in ring
    ensures Answer(ring, x.epoch, x.entry.requestId, x.entry.fingerprint) == SameResult(x.entry)
  {
    var i :| 0 <= i < |ring| && ring[i] == x;
    var k := FirstWithKey(ring, x.epoch, x.entry.requestId);
    assert k == i;
  }

  lemma NotFound(ring: seq<Slot>, epoch: nat, id: nat)
    requires forall y :: y in ring ==> !HasKey(y, epoch, id)
    ensures FirstWithKey(ring, epoch, id) == |ring|
  {
    assert forall i :: 0 <= i < |ring| ==> ring[i] in ring;
  }

  /** The outcome is what was decided when the entry was stored. */
  lemma StoredOutcome(s: State, g: Gates, r: OperationRequest)
    requires WellSized(r) && Admit(s, g, r).stored.Some?
    ensures var e := Admit(s, g, r).stored.value;
            && e.requestId == r.requestId && e.fingerprint == Fingerprint(r)
            && Replayed(e) == Admit(s, g, r).outcome.(replay := true)
    ensures StaticReject(s, g, r).None?
  {
  }

  /** At most once: once a request has been decided, resending it before eight more outcomes are stored for
      its principal gives the very same answer and changes nothing at all, whatever other requests, driver
      runs, stops, faults, registrations, grants and gate changes came between. */
  lemma ResentIsReplayed(s: State, g: Gates, r: OperationRequest, acts: Actions, g2: Gates)
    requires Inv(s) && WellSized(r) && Admit(s, g, r).stored.Some? && r.authorityId < 16
    requires var t := Run(After(s, g, r), acts);
             Resendable(t, g2, r) && |Stores(After(s, g, r), acts, r.authorityId)| < 8
    ensures var t := Run(After(s, g, r), acts);
            && Admit(t, g2, r).outcome == Admit(s, g, r).outcome.(replay := true)
            && After(t, g2, r) == t
  {
    var u := After(s, g, r);
    var t := Run(u, acts);
    var a := s.grant.authority;
    var x := Slot(r.controllerEpoch, Admit(s, g, r).stored.value);
    StoredOutcome(s, g, r);
    AdmitKeepsInv(s, g, r);
    RunKeepsInv(u, acts);
    assert RingSound(u.ledger[a]) && RingSound(t.ledger[a]);
    ResentPassesStatic(u, g, r, acts, g2);
    StoredIsNewest(s, g, r);
    RingAfterRun(u, acts, a);
    KeptWhileEight(u.ledger[a], Stores(u, acts, a), x);
    FoundUnique(t.ledger[a], x);
  }

  /** And no later: after eight stores for that principal, none of them for this request again, it is decided
      afresh. */
  lemma ForgottenAfterEight(s: State, g: Gates, r: OperationRequest, acts: Actions, g2: Gates)
    requires Inv(s) && WellSized(r) && Admit(s, g, r).stored.Some? && r.authorityId < 16
    requires var t := Run(After(s, g, r), acts); Resendable(t, g2, r)
    requires var more := Stores(After(s, g, r), acts, r.authorityId);
             |more| >= 8 && forall y :: y in more ==> !HasKey(y, r.controllerEpoch, r.requestId)
    ensures var t := Run(After(s, g, r), acts);
            && FindType(t.types, r.operationType) < |t.types|
            && Admit(t, g2, r) == Decide(t, g2, t.types[FindType(t.types, r.operationType)], r)
  {
    StoredOutcome(s, g, r);
    StaticStays(s, g, r);
    ResentPassesStatic(After(s, g, r), g, r, acts, g2);
    RingForgets(s, g, r, acts);
    ForgottenIsDecided(Run(After(s, g, r), acts), g2, r);
  }

  lemma RingForgets(s: State, g: Gates, r: OperationRequest, acts: Actions)
    requires Inv(s) && WellSized(r) && Admit(s, g, r).stored.Some? && s.grant.authority < PRINCIPALS
    requires |Stores(After(s, g, r), acts, s.grant.authority)| >= DEPTH
    ensures var t, a := Run(After(s, g, r), acts), s.grant.authority;
            forall y :: y in t.ledger[a] ==> y in Stores(After(s, g, r), acts, a)
  {
    var u, a := After(s, g, r), s.grant.authority;
    AdmitKeepsInv(s, g, r);
    RingAfterRun(u, acts, a);
    GoneAfterEight(u.ledger[a], Stores(u, acts, a));
  }

  lemma ForgottenIsDecided(s: State, g: Gates, r: OperationRequest)
    requires WellSized(r) && StaticReject(s, g, r).None? && s.grant.authority < PRINCIPALS
    requires forall y :: y in s.ledger[s.grant.authority] ==> !HasKey(y, r.controllerEpoch, r.requestId)
    ensures FindType(s.types, r.operationType) < |s.types|
    ensures Admit(s, g, r) == Decide(s, g, s.types[FindType(s.types, r.operationType)], r)
  {
    NotFound(s.ledger[s.grant.authority], r.controllerEpoch, r.requestId);
    AdmitIs(s, g, r);
  }

  /** The ledger has no ring for authorities from 16 on: for them even an immediate resend is decided
      afresh. Below 16 it is replayed. */
  lemma ImmediateResendReplayedIff(s: State, g: Gates, r: OperationRequest)
    requires Inv(s) && WellSized(r) && Admit(s, g, r).stored.Some?
    ensures Admit(After(s, g, r), g, r).outcome.replay <==> r.authorityId < 16
  {
    StoredOutcome(s, g, r);
    if r.authorityId < 16 {
      ResentIsReplayed(s, g, r, [], g);
    }
  }

  /** From an authority the ledger has no ring for, a root without exclusive claim is accepted anew exactly
      when it passes the static checks, is sent outside the Boot window, has a driver and finds room. */
  lemma FreeRootIsAccepted(s: State, g: Gates, r: OperationRequest)
    requires Inv(s) && WellSized(r) && StaticReject(s, g, r).None? && s.grant.authority >= PRINCIPALS
    requires r.parent == 0 && !s.types[FindType(s.types, r.operationType)].exclusive
    ensures !Admit(s, g, r).outcome.replay
    ensures Admit(s, g, r).outcome.accepted <==>
            && g.window != Some(Boot) && |s.rt.insts| < Rt.MAX_INSTANCES
            && s.types[FindType(s.types, r.operationType)].driver != Rt.NoDriver
  {
    AdmitIs(s, g, r);
  }

  /** An admission changes neither the types nor the grant, so the same request passes the static checks. */
  lemma StaticStays(s: State, g: Gates, r: OperationRequest)
    requires WellSized(r)
    ensures var u := After(s, g, r);
            u.types == s.types && u.grant == s.grant && StaticReject(u, g, r) == StaticReject(s, g, r)
  {
  }

  lemma IdIsListed(insts: seq<Rt.Instance>, i: nat)
    requires i < |insts|
    ensures insts[i].opId in Ids(Rt.Shape(insts))
  {
    assert Rt.Shape(insts)[i].id == insts[i].opId;
  }

  /** So for such an authority a resent request can start a second operation. */
  lemma SecondInstance(s: State, g: Gates, r: OperationRequest)
    requires Inv(s) && WellSized(r) && Admit(s, g, r).outcome.accepted && r.authorityId >= 16
    requires StaticReject(s, g, r).None?
    requires r.parent == 0 && |s.rt.insts| + 2 <= Rt.MAX_INSTANCES
    requires !s.types[FindType(s.types, r.operationType)].exclusive
    ensures var o := Admit(After(s, g, r), g, r).outcome;
            o.accepted && !o.replay && o.operationId != Admit(s, g, r).outcome.operationId
  {
    var u := After(s, g, r);
    FreeRootIsAccepted(s, g, r);
    RefusedReservesNothing(s, g, r);
    StaticStays(s, g, r);
    AdmitKeepsInv(s, g, r);
    FreeRootIsAccepted(u, g, r);
    IdIsListed(u.rt.insts, |s.rt.insts|);
    AcceptedIsFresh(u, g, r);
  }

  lemma AcceptedIsFresh(s: State, g: Gates, r: OperationRequest)
    requires Inv(s) && WellSized(r) && Admit(s, g, r).outcome.accepted && !Admit(s, g, r).outcome.replay
    ensures Admit(s, g, r).outcome.operationId !in Ids(Rt.Shape(s.rt.insts))
  {
    RefusedReservesNothing(s, g, r);
  }

  /** "A different payload under the same key is a Conflict" holds exactly up to the fingerprint. Two requests
      that differ only in five parameter bytes can share it: the second is then answered with the outcome of
      the first and never considered. */
  lemma AliasIsReplayed(s: State, g: Gates, r: OperationRequest)
    requires Inv(s) && WellSized(r) && r.authorityId < 16
    requires var a := r.(params := ALIAS); WellSized(a) && Admit(s, g, a).stored.Some?
    ensures var a, b := r.(params := ALIAS), r.(params := BLANK);
            WellSized(a) && WellSized(b) && a != b &&
                        Admit(After(s, g, a), g, b).outcome == Admit(s, g, a).outcome.(replay := true)
  {
    var a, b := r.(params := ALIAS), r.(params := BLANK);
    FingerprintsCollide(r);
    ResentIsReplayed(s, g, a, [], g);
    StoredOutcome(s, g, a);
    StaticStays(s, g, a);
    SameToLedger(After(s, g, a), g, a, b);
  }

  /** The ledger tells requests apart by key and fingerprint only. */
  lemma SameToLedger(s: State, g: Gates, a: OperationRequest, b: OperationRequest)
    requires WellSized(a) && WellSized(b) && b == a.(params := b.params) && |b.params| == |a.params|
    requires Fingerprint(a) == Fingerprint(b) && StaticReject(s, g, a).None? && Admit(s, g, a).outcome.replay
    ensures Admit(s, g, b).outcome == Admit(s, g, a).outcome
  {
    AdmitIs(s, g, a);
    AdmitIs(s, g, b);
  }
}
