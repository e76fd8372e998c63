/** What an admission request is answered and why, in terms of its fields, what is remembered, the gates and the live
    operations alone. */
module AdmissionVerdicts {
  import opened Options
  import opened Ledger
  import opened Codec
  import opened AdmissionModel
  import opened Forest
  import Answers = RuntimeAnswers
  import Exclusive = Slot
  import Rt = RuntimeModel
  import Safety = SafetyModel

  // ---------------------------------------------------------------- what the ledger knows

  predicate IsFor(x: Slot, r: OperationRequest) {
    x.epoch == r.controllerEpoch && x.entry.requestId == r.requestId
  }

  /** The granted principal has an outcome remembered under the request's epoch and id. */
  ghost predicate Remembered(s: State, r: OperationRequest) {
    s.grant.authority < PRINCIPALS && exists x :: x in s.ledger[s.grant.authority] && IsFor(x, r)
  }

  lemma UnknownIsMiss(s: State, r: OperationRequest, fp: seq<bool>)
    requires !Remembered(s, r)
    ensures LookupIn(s.ledger, r.controllerEpoch, s.grant.authority, r.requestId, fp) == Miss
  {
    if s.grant.authority < PRINCIPALS {
      var ring := s.ledger[s.grant.authority];
      var k := FirstWithKey(ring, r.controllerEpoch, r.requestId);
      if k < |ring| { assert ring[k] in ring && IsFor(ring[k], r); }
    }
  }

  lemma KnownIsFound(s: State, r: OperationRequest, fp: seq<bool>) returns (x: Slot)
    requires Inv(s) && Remembered(s, r)
    ensures x in s.ledger[s.grant.authority] && IsFor(x, r)
    ensures forall y :: y in s.ledger[s.grant.authority] && IsFor(y, r) ==> y == x
    ensures LookupIn(s.ledger, r.controllerEpoch, s.grant.authority, r.requestId, fp)
            == if x.entry.fingerprint == fp then SameResult(x.entry) else Conflict
  {
    var ring := s.ledger[s.grant.authority];
    assert RingSound(ring);
    x :| x in ring && IsFor(x, r);
    var i :| 0 <= i < |ring| && ring[i] == x;
    assert FirstWithKey(ring, r.controllerEpoch, r.requestId) == i;
  }

  /** A request under a key nothing is remembered for is neither replayed nor in conflict: it is decided, and
      whatever else the ledger holds makes no difference. */
  lemma UnknownIsDecided(s: State, g: Gates, r: OperationRequest, other: Memory)
    requires Inv(s) && WellSized(r) && StaticReject(s, g, r).None? && !Remembered(s, r)
    requires !Remembered(s.(ledger := other), r)
    ensures var v := Admit(s, g, r);
            && !v.outcome.replay && v.outcome != Refusal(CONFLICT) && v == Admit(s.(ledger := other), g, r)
            && v.stored.Some?
            && v.stored.value == Entry(r.requestId, Fingerprint(r), if v.outcome.accepted then v.outcome.operationId
                                                                   else v.outcome.reject,
                                       if v.outcome.accepted then 0 else 1)
  {
    UnknownIsMiss(s, r, Fingerprint(r));
    UnknownIsMiss(s.(ledger := other), r, Fingerprint(r));
    AdmitIs(s, g, r);
    AdmitIs(s.(ledger := other), g, r);
  }

  /** A request under a remembered key changes nothing and stores nothing: with the same fingerprint it is answered
      as it was then, with another it is a conflict. */
  lemma KnownIsRecalled(s: State, g: Gates, r: OperationRequest) returns (x: Slot)
    requires Inv(s) && WellSized(r) && StaticReject(s, g, r).None? && Remembered(s, r)
    ensures x in s.ledger[s.grant.authority] && IsFor(x, r)
    ensures Admit(s, g, r)
            == Verdict(s.rt,
                       if x.entry.fingerprint != Fingerprint(r) then AdmitOutcome(false, false, 0, 8)
                       else if x.entry.kind == 0 then AdmitOutcome(true, true, x.entry.outcome, 18)
                       else AdmitOutcome(false, true, 0, x.entry.outcome), None)
  {
    x := KnownIsFound(s, r, Fingerprint(r));
  }

  // ---------------------------------------------------------------- the checks before the ledger

  /** Position of the type asked for. */
  ghost predicate IsTypeAt(s: State, r: OperationRequest, i: nat) {
    i < |s.types| && s.types[i].id == r.operationType
  }

  ghost predicate RoleFits(s: State, r: OperationRequest) {
    r.role != 0 && forall k: nat :: Bit(r.role, k) ==> Bit(s.grant.roles, k)
  }

  lemma RoleFitsIff(s: State, r: OperationRequest)
    ensures RoleFits(s, r) <==> RoleAllowed(s.grant, r.role)
  {
    if BitsWithin(r.role, s.grant.roles) {
      forall k: nat | Bit(r.role, k) ensures Bit(s.grant.roles, k) {
        WithinHasBit(r.role, s.grant.roles, k);
      }
    } else {
      var k := MissingBit(r.role, s.grant.roles);
      assert Bit(r.role, k) && !Bit(s.grant.roles, k);
    }
  }

  /** Why a request for a known type is refused before anything else is looked at. */
  function Misfit(t: OperationType, r: OperationRequest): Option<nat> {
    if r.parent == 0 && !t.rootAllowed then Some(20)
    else if |r.params| > t.paramsMax then Some(7)
    else if r.parent != 0 && !t.childAllowed then Some(20)
    else None
  }

  lemma TypeIsAt(s: State, r: OperationRequest, i: nat)
    requires Inv(s) && IsTypeAt(s, r, i)
    ensures FindType(s.types, r.operationType) == i
  {
    assert TypesSound(s.types);
  }

  /** The refusals that precede the ledger, each with its code, in their order; none is remembered. */
  lemma StaticVerdict(s: State, g: Gates, r: OperationRequest)
    requires Inv(s) && WellSized(r)
    ensures g.epoch != Some(r.controllerEpoch) ==> StaticReject(s, g, r) == Some(0)
    ensures g.epoch == Some(r.controllerEpoch) ==>
              if s.grant.authority == 0 then StaticReject(s, g, r) == Some(1)
              else if r.authorityId != s.grant.authority then StaticReject(s, g, r) == Some(2)
              else if !RoleFits(s, r) then StaticReject(s, g, r) == Some(3)
              else if forall i :: 0 <= i < |s.types| ==> !IsTypeAt(s, r, i) then StaticReject(s, g, r) == Some(18)
              else forall i :: 0 <= i < |s.types| && IsTypeAt(s, r, i) ==>
                     StaticReject(s, g, r) == Misfit(s.types[i], r)
    ensures StaticReject(s, g, r).Some? ==>
              Admit(s, g, r) == Verdict(s.rt, AdmitOutcome(false, false, 0, StaticReject(s, g, r).value), None)
  {
    RoleFitsIff(s, r);
    var k := FindType(s.types, r.operationType);
    if k < |s.types| { assert IsTypeAt(s, r, k); }
    forall i | 0 <= i < |s.types| && IsTypeAt(s, r, i) ensures i == k {
      TypeIsAt(s, r, i);
    }
  }

  // ---------------------------------------------------------------- the checks behind it

  ghost predicate ParentLives(s: State, r: OperationRequest) {
    exists i :: 0 <= i < |s.rt.insts| && s.rt.insts[i].opId == r.parent
  }

  lemma ActiveIff(s: State, r: OperationRequest)
    requires Inv(s) && WellSized(r) && r.parent != 0
    ensures IsActive(s.rt, r.parent) <==> ParentLives(s, r)
  {
    var f := Rt.Shape(s.rt.insts);
    if i :| 0 <= i < |s.rt.insts| && s.rt.insts[i].opId == r.parent {
      assert f[i].id == r.parent && Rt.Sound(s.rt.insts[i]);
      FindUnique(f, i);
    }
    if IsActive(s.rt, r.parent) {
      var p := Find(f, r.parent);
      assert s.rt.insts[p].opId == r.parent;
    }
  }

  /** Why a request of type `t` is refused for what the gates and the live operations say. */
  ghost function Hindrance(s: State, g: Gates, t: OperationType, r: OperationRequest): Option<nat> {
    if r.parent != 0 then
      if !ParentLives(s, r) then Some(9)
      else if t.driver == Rt.NoDriver then Some(20)
      else if |s.rt.insts| == 8 then Some(19) else None
    else if t.exclusive && g.window.Some? && g.window != Some(Serving) then Some(10)
    else if t.exclusive && g.health == Some(Safety.Fault) then Some(11)
    else if t.exclusive && g.provisioning.Some? && g.provisioning != Some(Provisioned) then Some(12)
    else if t.exclusive && s.rt.slot.Some? && s.rt.slot != Some(Exclusive.Idle) then Some(9)
    else if !t.exclusive && g.window == Some(Boot) then Some(10)
    else if t.driver == Rt.NoDriver then Some(20)
    else if |s.rt.insts| == 8 then Some(19) else None
  }

  lemma DecideRoot(s: State, g: Gates, t: OperationType, r: OperationRequest)
    requires Inv(s) && WellSized(r) && r.parent == 0
    ensures var v := Decide(s, g, t, r); var h := Hindrance(s, g, t, r);
            if h.Some? then v.rt == s.rt && v.outcome == AdmitOutcome(false, false, 0, h.value)
            else
              && v.outcome == AdmitOutcome(true, false, v.rt.lastId, 18)
              && Answers.Grown(s.rt, v.rt, InstanceRequest(s, t, r), 0,
                               if t.exclusive then t.activity else Exclusive.Idle)
  {
    Answers.RootVerdict(s.rt, InstanceRequest(s, t, r));
  }

  lemma DecideChild(s: State, g: Gates, t: OperationType, r: OperationRequest)
    requires Inv(s) && WellSized(r) && r.parent != 0
    ensures var v := Decide(s, g, t, r); var h := Hindrance(s, g, t, r);
            if h.Some? then v.rt == s.rt && v.outcome == AdmitOutcome(false, false, 0, h.value)
            else
              && v.outcome == AdmitOutcome(true, false, v.rt.lastId, 18)
              && Answers.Grown(s.rt, v.rt, InstanceRequest(s, t, r), r.parent, Exclusive.Idle)
  {
    ActiveIff(s, r);
    Answers.ChildVerdict(s.rt, InstanceRequest(s, t, r));
  }

  /** The instance asked for: of the type's driver and the granted authority. */
  lemma RequestedInstance(s: State, t: OperationType, r: OperationRequest)
    requires WellSized(r)
    ensures var q := InstanceRequest(s, t, r);
            && q.typeId == r.operationType && q.authority == s.grant.authority && q.parent == r.parent
            && q.driver == t.driver && q.exclusiveClass == if t.exclusive then t.activity else Exclusive.Idle
  {
  }

  /** A request that is decided is refused exactly for the first of the hindrances, with its code; without one it
      is accepted under a new id, and the operation of its type's driver starts. */
  lemma DecidedVerdict(s: State, g: Gates, r: OperationRequest, i: nat)
    requires Inv(s) && WellSized(r) && StaticReject(s, g, r).None? && !Remembered(s, r) && IsTypeAt(s, r, i)
    ensures var v := Admit(s, g, r); var t := s.types[i]; var h := Hindrance(s, g, t, r);
            if h.Some? then v.rt == s.rt && v.outcome == AdmitOutcome(false, false, 0, h.value)
            else
              && v.outcome == AdmitOutcome(true, false, v.rt.lastId, 18)
              && Answers.Grown(s.rt, v.rt, InstanceRequest(s, t, r), r.parent,
                               if r.parent == 0 && t.exclusive then t.activity else Exclusive.Idle)
  {
    TypeIsAt(s, r, i);
    UnknownIsMiss(s, r, Fingerprint(r));
    AdmitIs(s, g, r);
    if r.parent == 0 { DecideRoot(s, g, s.types[i], r); } else { DecideChild(s, g, s.types[i], r); }
  }

  /** A request is newly accepted exactly when every check passes: epoch, handshake, principal, roles, type, place
      and parameters, nothing remembered under its key, and no hindrance. */
  lemma AcceptedIff(s: State, g: Gates, r: OperationRequest, i: nat)
    requires Inv(s) && WellSized(r) && IsTypeAt(s, r, i)
    ensures var o := Admit(s, g, r).outcome;
            o.accepted && !o.replay <==>
              && g.epoch == Some(r.controllerEpoch) && r.authorityId == s.grant.authority != 0 && RoleFits(s, r)
              && Misfit(s.types[i], r) == None && !Remembered(s, r) && Hindrance(s, g, s.types[i], r) == None
  {
    StaticVerdict(s, g, r);
    if StaticReject(s, g, r).None? {
      if Remembered(s, r) { var x := KnownIsRecalled(s, g, r); } else { DecidedVerdict(s, g, r, i); }
    }
  }
}
