/** Admission of operation requests: the seven steps as functions on values, and what one admission does. */
module AdmissionModel {
  import opened Options
  import opened Forest
  import opened Ledger
  import opened Codec
  import Checksum
  import Rt = RuntimeModel
  import RtRuns = RuntimeRuns
  import Exclusive = Slot
  import Safety = SafetyModel

  datatype Window = Boot | Serving | Update | Recovery
  datatype Provisioning = Unprovisioned | ProvisioningNow | Provisioned

  /** Rejection codes as they go on the wire. */
  type RejectCode = nat

  const EPOCH_MISMATCH: RejectCode := 0
  const HANDSHAKE_REQUIRED: RejectCode := 1
  const UNAUTHORIZED: RejectCode := 2
  const ROLE_ESCALATION: RejectCode := 3
  const INVALID_PARAMETERS: RejectCode := 7
  const CONFLICT: RejectCode := 8
  const RESOURCE_CONFLICT: RejectCode := 9
  const WRONG_WINDOW: RejectCode := 10
  const HEALTH_GATE: RejectCode := 11
  const PROVISIONING_GATE: RejectCode := 12
  const UNKNOWN_OPERATION_TYPE: RejectCode := 18
  const INSTANCES_FULL: RejectCode := 19
  const COMPOSITION_INVALID: RejectCode := 20

  datatype OperationType = OperationType(
    id: nat, rootAllowed: bool, childAllowed: bool, exclusive: bool, activity: Exclusive.Activity, paramsMax: nat,
    driver: Rt.Driver)

  const TYPES := 32

  /** `roles` is a bit mask; authority 0 means that no handshake took place. */
  datatype Grant = Grant(authority: nat, roles: Checksum.Byte)

  /** What the sources report during one admission; None for a source that is not attached. */
  datatype Gates = Gates(
    epoch: Option<nat>, window: Option<Window>, health: Option<Safety.Health>,
    provisioning: Option<Provisioning>)

  datatype AdmitOutcome = AdmitOutcome(accepted: bool, replay: bool, operationId: nat, reject: RejectCode)

  datatype State = State(ledger: Memory, rt: Rt.State, types: seq<OperationType>, grant: Grant)

  /** The runtime after an admission, the answer, and the entry stored in the ledger, if any. */
  datatype Verdict = Verdict(rt: Rt.State, outcome: AdmitOutcome, stored: Option<Entry>)

  function Refusal(c: RejectCode): AdmitOutcome {
    AdmitOutcome(false, false, 0, c)
  }

  function Acceptance(id: nat): AdmitOutcome {
    AdmitOutcome(true, false, id, UNKNOWN_OPERATION_TYPE)
  }

  // ---------------------------------------------------------------- operation types

  function FindType(types: seq<OperationType>, id: nat): (r: nat)
    ensures r <= |types|
    ensures forall i :: 0 <= i < r ==> types[i].id != id
    ensures r < |types| ==> types[r].id == id
  {
    if types == [] then 0 else if types[0].id == id then 0 else 1 + FindType(types[1..], id)
  }

  function Registered(types: seq<OperationType>, t: OperationType): seq<OperationType> {
    if FindType(types, t.id) < |types| || |types| >= TYPES then types else types + [t]
  }

  // ---------------------------------------------------------------- steps 1 to 4

  /** Every bit set in `a` is set in `b`. */
  predicate BitsWithin(a: nat, b: nat) {
    a == 0 || ((a % 2 == 1 ==> b % 2 == 1) && BitsWithin(a / 2, b / 2))
  }

  function Bit(n: nat, k: nat): bool {
    if k == 0 then n % 2 == 1 else Bit(n / 2, k - 1)
  }

  /** The mask test holds exactly when every role bit claimed is granted. */
  lemma BitsWithinIff(a: nat, b: nat)
    ensures BitsWithin(a, b) <==> forall k: nat :: Bit(a, k) ==> Bit(b, k)
  {
    if BitsWithin(a, b) {
      forall k: nat | Bit(a, k) ensures Bit(b, k) {
        WithinHasBit(a, b, k);
      }
    } else {
      var k := MissingBit(a, b);
      assert Bit(a, k) && !Bit(b, k);
    }
  }

  lemma {:induction false} WithinHasBit(a: nat, b: nat, k: nat)
    requires BitsWithin(a, b) && Bit(a, k)
    ensures Bit(b, k)
    decreases k
  {
    if a == 0 {
      NoBits(k);
      assert false;
    }
    if k > 0 { WithinHasBit(a / 2, b / 2, k - 1); }
  }

  lemma {:induction false} MissingBit(a: nat, b: nat) returns (k: nat)
    requires !BitsWithin(a, b)
    ensures Bit(a, k) && !Bit(b, k)
    decreases a
  {
    if a % 2 == 1 && b % 2 == 0 {
      k := 0;
    } else {
      k := MissingBit(a / 2, b / 2);
      k := k + 1;
    }
  }

  lemma {:induction false} NoBits(k: nat)
    ensures !Bit(0, k)
  {
    if k > 0 { NoBits(k - 1); }
  }

  predicate RoleAllowed(g: Grant, role: Checksum.Byte) {
    role != 0 && BitsWithin(role, g.roles)
  }

  function TypeReject(t: OperationType, r: OperationRequest): Option<RejectCode> {
    if r.parent == 0 && !t.rootAllowed then Some(COMPOSITION_INVALID)
    else if |r.params| > t.paramsMax then Some(INVALID_PARAMETERS)
    else if r.parent != 0 && !t.childAllowed then Some(COMPOSITION_INVALID)
    else None
  }

  /** The checks that precede the ledger; what they refuse is not remembered. */
  function StaticReject(s: State, g: Gates, r: OperationRequest): Option<RejectCode> {
    if g.epoch.None? || r.controllerEpoch != g.epoch.value then Some(EPOCH_MISMATCH)
    else if s.grant.authority == 0 then Some(HANDSHAKE_REQUIRED)
    else if r.authorityId != s.grant.authority then Some(UNAUTHORIZED)
    else if !RoleAllowed(s.grant, r.role) then Some(ROLE_ESCALATION)
    else
      var t := FindType(s.types, r.operationType);
      if t == |s.types| then Some(UNKNOWN_OPERATION_TYPE) else TypeReject(s.types[t], r)
  }

  // ---------------------------------------------------------------- step 6

  ghost predicate IsActive(rt: Rt.State, id: nat) {
    IsId(id) &&
    var p := Find(Rt.Shape(rt.insts), id); p >= 0 && Rt.IsLive(rt.insts[p].state)
  }

  predicate IsId(n: nat) {
    n <= Rt.MAX_ID
  }

  predicate SlotHeld(rt: Rt.State) {
    rt.slot.Some? && rt.slot.value != Exclusive.Idle
  }

  function ExclusiveReject(rt: Rt.State, g: Gates): Option<RejectCode> {
    if g.window.Some? && g.window.value != Serving then Some(WRONG_WINDOW)
    else if g.health.Some? && g.health.value == Safety.Fault then Some(HEALTH_GATE)
    else if g.provisioning.Some? && g.provisioning.value != Provisioned then Some(PROVISIONING_GATE)
    else if SlotHeld(rt) then Some(RESOURCE_CONFLICT)
    else None
  }

  ghost function ResourceReject(rt: Rt.State, g: Gates, t: OperationType, r: OperationRequest): Option<RejectCode> {
    if r.parent == 0 then
      if t.exclusive then ExclusiveReject(rt, g)
      else if g.window.Some? && g.window.value == Boot then Some(WRONG_WINDOW)
      else None
    else if !IsActive(rt, r.parent) then Some(RESOURCE_CONFLICT)
    else None
  }

  // ---------------------------------------------------------------- step 7

  function InstanceRequest(s: State, t: OperationType, r: OperationRequest): Rt.CreateRequest
    requires IsId(r.parent)
  {
    Rt.CreateRequest(r.operationType, s.grant.authority, r.parent, t.driver,
                        if t.exclusive then t.activity else Exclusive.Idle)
  }

  ghost function Create(s: State, t: OperationType, r: OperationRequest): Rt.Creation
    requires IsId(r.parent)
  {
    if r.parent == 0 then Rt.CreateRoot(s.rt, InstanceRequest(s, t, r))
    else Rt.CreateChild(s.rt, InstanceRequest(s, t, r))
  }

  function CreationReject(c: Rt.CreateResult): RejectCode {
    match c
    case InstancesFull => INSTANCES_FULL
    case ExclusiveBusy => RESOURCE_CONFLICT
    case ParentMissing => RESOURCE_CONFLICT
    case _ => COMPOSITION_INVALID
  }

  // ---------------------------------------------------------------- the whole pipeline

  function RejectEntry(r: OperationRequest, c: RejectCode): Entry
    requires WellSized(r)
  {
    Entry(r.requestId, Fingerprint(r), c, 1)
  }

  function Replayed(e: Entry): AdmitOutcome {
    AdmitOutcome(e.kind == 0, true, if e.kind == 0 then e.outcome else 0,
                 if e.kind == 0 then UNKNOWN_OPERATION_TYPE else e.outcome)
  }

  /** Step 5: the answer the ledger already holds. */
  function Recalled(l: Lookup): Option<AdmitOutcome> {
    match l
    case SameResult(e) => Some(Replayed(e))
    case Conflict => Some(Refusal(CONFLICT))
    case Miss => None
  }

  /** Steps 6 and 7. */
  ghost function Decide(s: State, g: Gates, t: OperationType, r: OperationRequest): Verdict
    requires WellSized(r)
  {
    var refused := ResourceReject(s.rt, g, t, r);
    if refused.Some? then Verdict(s.rt, Refusal(refused.value), Some(RejectEntry(r, refused.value)))
    else
      var c := Create(s, t, r);
      if c.result == Rt.Created then
        Verdict(c.state, Acceptance(c.id), Some(Entry(r.requestId, Fingerprint(r), c.id, 0)))
      else
        Verdict(c.state, Refusal(CreationReject(c.result)), Some(RejectEntry(r, CreationReject(c.result))))
  }

  /** Steps 5 to 7. */
  ghost function AdmitKnown(s: State, g: Gates, r: OperationRequest): Verdict
    requires WellSized(r) && FindType(s.types, r.operationType) < |s.types|
  {
    match Recalled(LookupIn(s.ledger, r.controllerEpoch, s.grant.authority, r.requestId, Fingerprint(r)))
    case Some(known) => Verdict(s.rt, known, None)
    case None => Decide(s, g, s.types[FindType(s.types, r.operationType)], r)
  }

  lemma KnownIs(s: State, g: Gates, r: OperationRequest)
    requires WellSized(r) && FindType(s.types, r.operationType) < |s.types|
    ensures var l := LookupIn(s.ledger, r.controllerEpoch, s.grant.authority, r.requestId, Fingerprint(r));
            var v := AdmitKnown(s, g, r);
            if Recalled(l).Some? then v.outcome == Recalled(l).value && Settle(s, r, v) == s
            else v == Decide(s, g, s.types[FindType(s.types, r.operationType)], r)
  {
  }

  ghost function Admit(s: State, g: Gates, r: OperationRequest): Verdict
    requires WellSized(r)
  {
    var refused := StaticReject(s, g, r);
    if refused.Some? then Verdict(s.rt, Refusal(refused.value), None) else AdmitKnown(s, g, r)
  }

  function Settle(s: State, r: OperationRequest, v: Verdict): State {
    s.(rt := v.rt,
       ledger := if v.stored.Some? then StoreIn(s.ledger, r.controllerEpoch, s.grant.authority, v.stored.value)
                        else s.ledger)
  }

  ghost function After(s: State, g: Gates, r: OperationRequest): State
    requires WellSized(r)
  {
    Settle(s, r, Admit(s, g, r))
  }

  // ---------------------------------------------------------------- the invariant

  /** No request is remembered twice. */
  ghost predicate UniqueKeys(ring: seq<Slot>) {
    forall i, j :: 0 <= i < j < |ring| ==> !HasKey(ring[j], ring[i].epoch, ring[i].entry.requestId)
  }

  ghost predicate RingSound(ring: seq<Slot>) {
    |ring| <= DEPTH && UniqueKeys(ring)
  }

  ghost predicate TypesSound(types: seq<OperationType>) {
    |types| <= TYPES && forall i, j :: 0 <= i < j < |types| ==> types[i].id != types[j].id
  }

  ghost predicate Inv(s: State) {
    && Rt.Inv(s.rt)
    && TypesSound(s.types)
    && forall a :: 0 <= a < PRINCIPALS ==> RingSound(s.ledger[a])
  }

  // ---------------------------------------------------------------- one admission

  /** A request that creates nothing reserves nothing: unless it is accepted anew, the runtime (instances,
      exclusive slot, id counter, event log) is exactly as before. A new acceptance adds one instance, last
      in the array, under the requested parent, owned by the granted authority, with an id no live operation has. */
  lemma RefusedReservesNothing(s: State, g: Gates, r: OperationRequest)
    requires Inv(s) && WellSized(r)
    ensures var v := Admit(s, g, r); var o := v.outcome;
            && Rt.Inv(v.rt)
            && (if o.accepted && !o.replay then
                  && v.rt.insts == s.rt.insts + [v.rt.insts[|s.rt.insts|]]
                  && var x := v.rt.insts[|s.rt.insts|];
                     && x.opId == o.operationId && x.opId !in Ids(Rt.Shape(s.rt.insts)) + {0}
                     && x.parent == r.parent && x.authority == s.grant.authority && x.typeId == r.operationType
                     && x.state == Rt.Accepted && v.rt.log == s.rt.log + [Rt.Started(x.opId, x.parent, x.typeId)]
                else v.rt == s.rt)
  {
    if StaticReject(s, g, r).None? &&
           LookupIn(s.ledger, g.epoch.value, s.grant.authority, r.requestId, Fingerprint(r)).Miss? {
      CreationAdds(s, s.types[FindType(s.types, r.operationType)], r);
    }
  }

  lemma CreationAdds(s: State, t: OperationType, r: OperationRequest)
    requires Inv(s) && IsId(r.parent)
    ensures var c := Create(s, t, r);
            && Rt.Inv(c.state)
            && (if c.result == Rt.Created then
                  && |c.state.insts| == |s.rt.insts| + 1
                  && c.state.insts == s.rt.insts + [c.state.insts[|s.rt.insts|]]
                  && var x := c.state.insts[|s.rt.insts|];
                     && x.opId == c.id && x.opId !in Ids(Rt.Shape(s.rt.insts)) + {0}
                     && x.parent == r.parent && x.authority == s.grant.authority && x.typeId == r.operationType
                     && x.state == Rt.Accepted && c.state.log == s.rt.log + [Rt.Started(x.opId, x.parent, x.typeId)]
                else c.state == s.rt)
  {
    var q := InstanceRequest(s, t, r);
    if r.parent == 0 {
      RtRuns.CreateRootKeepsInv(s.rt, q);
    } else {
      RtRuns.CreateChildKeepsInv(s.rt, q);
    }
    if Create(s, t, r).result == Rt.Created {
      FreshId(s.rt);
    }
  }

  lemma FreshId(rt: Rt.State)
    requires Rt.Inv(rt)
    ensures Rt.FirstFree(rt.lastId, Ids(Rt.Shape(rt.insts))) !in Ids(Rt.Shape(rt.insts)) + {0}
  {
    IdsBound(Rt.Shape(rt.insts));
    var k := Rt.FirstFreeAt(rt.lastId, Ids(Rt.Shape(rt.insts)));
  }

  /** An exclusive root is accepted only in the Serving window, healthy, provisioned and with the slot free,
      as far as those are known, and takes the slot exactly when its type has an activity other than Idle. */
  lemma ExclusiveRootTakesSlot(s: State, g: Gates, r: OperationRequest)
    requires Inv(s) && WellSized(r) && r.parent == 0
    requires Admit(s, g, r).outcome.accepted && !Admit(s, g, r).outcome.replay
    ensures FindType(s.types, r.operationType) < |s.types|
    ensures var t := s.types[FindType(s.types, r.operationType)];
            t.exclusive ==>
              && (g.window.Some? ==> g.window.value == Serving)
              && (g.health.Some? ==> g.health.value != Safety.Fault)
              && (g.provisioning.Some? ==> g.provisioning.value == Provisioned)
              && (s.rt.slot.Some? ==>
                    && s.rt.slot.value == Exclusive.Idle
                    && (forall i :: 0 <= i < |s.rt.insts| ==> s.rt.insts[i].activity == Exclusive.Idle)
                    && Admit(s, g, r).rt.slot == Some(t.activity)
                    && (SlotHeld(Admit(s, g, r).rt) <==> t.activity != Exclusive.Idle))
  {
    if s.rt.slot.Some? && s.rt.slot.value == Exclusive.Idle {
      assert Rt.SlotMatches(s.rt.insts, s.rt.slot);
    }
  }

  /** Two exclusive roots with activities never run together: while the first holds the slot, no request for
      another is newly accepted, whoever sends it and whatever the gates say. */
  lemma SecondExclusiveRoot(s: State, g: Gates, r: OperationRequest, held: Rt.State, g2: Gates, r2: OperationRequest)
    requires Inv(s) && WellSized(r) && r.parent == 0 && s.rt.slot.Some?
    requires Admit(s, g, r).outcome.accepted && !Admit(s, g, r).outcome.replay
    requires var i := FindType(s.types, r.operationType);
             i < |s.types| ==> s.types[i].exclusive && s.types[i].activity != Exclusive.Idle
    requires Rt.Inv(held) && held.slot == Admit(s, g, r).rt.slot
    requires WellSized(r2) && r2.parent == 0
    requires var i := FindType(s.types, r2.operationType); i < |s.types| ==> s.types[i].exclusive
    ensures var o := Admit(After(s, g, r).(rt := held), g2, r2).outcome; !o.accepted || o.replay
  {
    ExclusiveRootTakesSlot(s, g, r);
    AdmitKeepsInv(s, g, r);
    var t := After(s, g, r).(rt := held);
    if Admit(t, g2, r2).outcome.accepted && !Admit(t, g2, r2).outcome.replay {
      ExclusiveRootTakesSlot(t, g2, r2);
      assert false;
    }
  }

  /** Nothing is started that is not allowed: a newly accepted request has the current epoch, comes from the
      principal the handshake granted and claims granted roles only, asks for a known type in a place and with
      parameters that type allows, outside the Boot window if it is a root, and under a live parent if not. */
  lemma AcceptedIsAllowed(s: State, g: Gates, r: OperationRequest)
    requires Inv(s) && WellSized(r)
    requires Admit(s, g, r).outcome.accepted && !Admit(s, g, r).outcome.replay
    ensures g.epoch == Some(r.controllerEpoch) && r.authorityId == s.grant.authority != 0
    ensures r.role != 0 && forall k: nat :: Bit(r.role, k) ==> Bit(s.grant.roles, k)
    ensures var i := FindType(s.types, r.operationType);
            && i < |s.types| && |r.params| <= s.types[i].paramsMax
            && (if r.parent == 0 then s.types[i].rootAllowed && g.window != Some(Boot)
                else s.types[i].childAllowed && IsActive(s.rt, r.parent))
  {
    BitsWithinIff(r.role, s.grant.roles);
  }

  lemma StoreKeepsRing(ring: seq<Slot>, x: Slot)
    requires RingSound(ring) && FirstWithKey(ring, x.epoch, x.entry.requestId) == |ring|
    ensures RingSound(Newest(ring + [x], DEPTH))
  {
    var all := ring + [x];
    assert UniqueKeys(all);
    var d := |all| - |Newest(all, DEPTH)|;
    assert forall i :: 0 <= i < |Newest(all, DEPTH)| ==> Newest(all, DEPTH)[i] == all[d + i];
  }

  lemma AdmitKeepsInv(s: State, g: Gates, r: OperationRequest)
    requires Inv(s) && WellSized(r)
    ensures Inv(After(s, g, r))
  {
    RefusedReservesNothing(s, g, r);
    StoredIsNew(s, g, r);
    SettleKeepsInv(s, r, Admit(s, g, r));
  }

  /** Only what the ledger does not know is stored. */
  lemma StoredIsNew(s: State, g: Gates, r: OperationRequest)
    requires WellSized(r)
    ensures var v := Admit(s, g, r); var a := s.grant.authority;
            v.stored.Some? && a < PRINCIPALS ==>
              v.stored.value.requestId == r.requestId
              && FirstWithKey(s.ledger[a], r.controllerEpoch, r.requestId) == |s.ledger[a]|
  {
  }

  lemma SettleKeepsInv(s: State, r: OperationRequest, v: Verdict)
    requires Inv(s) && Rt.Inv(v.rt)
    requires v.stored.Some? && s.grant.authority < PRINCIPALS ==>
               FirstWithKey(s.ledger[s.grant.authority], r.controllerEpoch, v.stored.value.requestId)
                 == |s.ledger[s.grant.authority]|
    ensures Inv(Settle(s, r, v))
  {
    var a := s.grant.authority;
    if v.stored.Some? && a < PRINCIPALS {
      StoreKeepsRing(s.ledger[a], Slot(r.controllerEpoch, v.stored.value));
    }
  }

  /** A request that passed the static checks is answered from the ledger or decided. */
  lemma AdmitIs(s: State, g: Gates, r: OperationRequest)
    requires WellSized(r) && StaticReject(s, g, r).None?
    ensures var l := LookupIn(s.ledger, r.controllerEpoch, s.grant.authority, r.requestId, Fingerprint(r));
            var i := FindType(s.types, r.operationType);
            && i < |s.types|
            && (if Recalled(l).Some? then Admit(s, g, r).outcome == Recalled(l).value && After(s, g, r) == s
                else Admit(s, g, r) == Decide(s, g, s.types[i], r))
  {
  }

  // ---------------------------------------------------------------- conflict

  /** A request is answered Conflict exactly when its key is remembered with another fingerprint. */
  lemma ConflictIff(s: State, g: Gates, r: OperationRequest)
    requires Inv(s) && WellSized(r) && StaticReject(s, g, r).None?
    ensures var a := s.grant.authority;
            Admit(s, g, r).outcome == Refusal(CONFLICT) <==>
            a < PRINCIPALS &&
            exists i :: 0 <= i < |s.ledger[a]| && s.ledger[a][i].epoch == r.controllerEpoch
                        && s.ledger[a][i].entry.requestId == r.requestId
                        && s.ledger[a][i].entry.fingerprint != Fingerprint(r)
  {
    var a := s.grant.authority;
    if a < PRINCIPALS {
      var ring := s.ledger[a];
      assert RingSound(ring);
      var k := FirstWithKey(ring, r.controllerEpoch, r.requestId);
      forall i | 0 <= i < |ring| && ring[i].epoch == r.controllerEpoch && ring[i].entry.requestId == r.requestId
        ensures i == k
      {
        assert HasKey(ring[i], r.controllerEpoch, r.requestId);
      }
    }
  }
}
