/** The type registry and the admission pipeline, over the Operation Runtime and the ledger. */
module Admission {
  import opened Options
  import opened Ledger
  import opened Codec
  import opened AdmissionModel
  import Checksum
  import Exclusive = Slot
  import Rt = RuntimeModel
  import Safety = SafetyModel
  import opened OperationRuntime

  class TypeRegistry {
    const types: array<OperationType>
    var count: nat

    ghost predicate Valid()
      reads this, types
    {
      types.Length == TYPES && count <= TYPES && TypesSound(types[..count])
    }

    ghost function View(): seq<OperationType>
      requires count <= types.Length
      reads this, types
    {
      types[..count]
    }

    constructor ()
      ensures Valid() && View() == [] && fresh(types)
    {
      types := new OperationType[TYPES](_ =>
        OperationType(0, true, false, false, Exclusive.Idle, MAX_PARAMS, Rt.NoDriver));
      count := 0;
    }

    /** The index of the type with this id, or the number of types when there is none. */
    method Find(id: nat) returns (r: nat)
      requires Valid()
      ensures r == FindType(View(), id)
    {
      for i := 0 to count
        invariant forall j :: 0 <= j < i ==> types[j].id != id
      {
        if types[i].id == id {
          return i;
        }
      }
      return count;
    }

    method Register(t: OperationType) returns (ok: bool)
      requires Valid()
      modifies this, types
      ensures Valid() && View() == Registered(old(View()), t)
      ensures ok <==> (forall x :: x in old(View()) ==> x.id != t.id) && |old(View())| < 32
      ensures View() == if ok then old(View()) + [t] else old(View())
    {
      var at := Find(t.id);
      if at < count {
        assert View()[at] in View();
        return false;
      }
      if count >= TYPES {
        return false;
      }
      types[count] := t;
      count := count + 1;
      assert View() == old(View()) + [t];
      return true;
    }
  }

  class SemanticContract {
    const runtime: Runtime
    const registry: TypeRegistry
    const ledger: IdempotencyLedger
    var grant: Grant

    ghost predicate Shaped()
      reads ledger.heads, ledger.counts, registry, registry.types, runtime`count
    {
      ledger.Valid() && registry.Valid() && runtime.Shaped()
    }

    ghost function View(): State
      requires Shaped()
      reads this, runtime, runtime.instances, runtime.slot, registry, registry.types,
            ledger.rings, ledger.heads, ledger.counts
    {
      State(ledger.View(), runtime.View(), registry.View(), grant)
    }

    ghost predicate Valid()
      reads this, runtime, runtime.instances, runtime.slot, registry, registry.types,
            ledger.rings, ledger.heads, ledger.counts
    {
      Shaped() && Inv(View())
    }

    constructor (runtime: Runtime, registry: TypeRegistry, grant: Grant)
      requires runtime.Valid() && registry.Valid()
      ensures Valid() && this.runtime == runtime && this.registry == registry
      ensures View() == State(seq(PRINCIPALS, _ => []), runtime.View(), registry.View(), grant)
    {
      this.runtime := runtime;
      this.registry := registry;
      this.grant := grant;
      ledger := new IdempotencyLedger();
    }

    method RoleIsAllowed(role: Checksum.Byte) returns (ok: bool)
      ensures ok <==> RoleAllowed(grant, role)
    {
      if role == 0 {
        return false;
      }
      return BitsWithin(role, grant.roles);
    }

    /** Steps 1 to 4. */
    method CheckStatic(g: Gates, r: OperationRequest) returns (refused: Option<RejectCode>)
      requires Shaped()
      ensures refused == StaticReject(View(), g, r)
    {
      if g.epoch.None? || r.controllerEpoch != g.epoch.value {
        return Some(EPOCH_MISMATCH);
      }
      if grant.authority == 0 {
        return Some(HANDSHAKE_REQUIRED);
      }
      if r.authorityId != grant.authority {
        return Some(UNAUTHORIZED);
      }
      var allowed := RoleIsAllowed(r.role);
      if !allowed {
        return Some(ROLE_ESCALATION);
      }
      var at := registry.Find(r.operationType);
      if at == registry.count {
        return Some(UNKNOWN_OPERATION_TYPE);
      }
      var t := registry.types[at];
      if r.parent == 0 && !t.rootAllowed {
        return Some(COMPOSITION_INVALID);
      }
      if |r.params| > t.paramsMax {
        return Some(INVALID_PARAMETERS);
      }
      if r.parent != 0 && !t.childAllowed {
        return Some(COMPOSITION_INVALID);
      }
      return None;
    }

    /** Step 6. */
    method CheckResources(g: Gates, t: OperationType, r: OperationRequest) returns (refused: Option<RejectCode>)
      requires runtime.Valid() && WellSized(r)
      ensures refused == ResourceReject(runtime.View(), g, t, r)
    {
      if r.parent == 0 {
        if t.exclusive {
          if g.window.Some? && g.window.value != Serving {
            return Some(WRONG_WINDOW);
          }
          if g.health.Some? && g.health.value == Safety.Fault {
            return Some(HEALTH_GATE);
          }
          if g.provisioning.Some? && g.provisioning.value != Provisioned {
            return Some(PROVISIONING_GATE);
          }
          var held := runtime.SlotHeld();
          if held {
            return Some(RESOURCE_CONFLICT);
          }
        } else if g.window.Some? && g.window.value == Boot {
          return Some(WRONG_WINDOW);
        }
      } else {
        var active := runtime.IsActive(r.parent);
        if !active {
          return Some(RESOURCE_CONFLICT);
        }
      }
      return None;
    }

    method Remember(r: OperationRequest, e: Entry)
      requires Shaped()
      modifies ledger.rings, ledger.heads, ledger.counts
      ensures Shaped()
      ensures View() == old(View()).(ledger := StoreIn(old(View()).ledger, r.controllerEpoch, grant.authority, e))
    {
      ledger.Store(r.controllerEpoch, grant.authority, e);
    }

    method StoreReject(r: OperationRequest, c: RejectCode)
      requires Shaped() && WellSized(r)
      modifies ledger.rings, ledger.heads, ledger.counts
      ensures Shaped()
      ensures View() == old(View()).(ledger :=
                StoreIn(old(View()).ledger, r.controllerEpoch, grant.authority, RejectEntry(r, c)))
    {
      var fp := RequestFingerprint(r);
      Remember(r, Entry(r.requestId, fp, c, 1));
    }

    /** Step 7. */
    method CreateInstance(t: OperationType, r: OperationRequest) returns (res: Rt.CreateResult, id: nat)
      requires Shaped() && runtime.Valid() && WellSized(r)
      modifies runtime, runtime.instances, runtime.slot
      ensures Shaped() && (id <= Rt.MAX_ID)
      ensures Rt.Creation(runtime.View(), res, id) == Create(old(View()), t, r)
      ensures View() == old(View()).(rt := runtime.View())
    {
      var q := Rt.CreateRequest(r.operationType, grant.authority, r.parent, t.driver,
                                if t.exclusive then t.activity else Exclusive.Idle);
      if r.parent == 0 {
        res, id := runtime.CreateRoot(q);
      } else {
        res, id := runtime.CreateChild(q);
      }
    }

    /** Steps 6 and 7, remembering what comes out. */
    method Resolve(g: Gates, t: OperationType, r: OperationRequest, fp: seq<bool>) returns (out: AdmitOutcome)
      requires Shaped() && runtime.Valid() && WellSized(r) && fp == Fingerprint(r)
      modifies runtime, runtime.instances, runtime.slot, ledger.rings, ledger.heads, ledger.counts
      ensures Shaped()
      ensures var v := Decide(old(View()), g, t, r); out == v.outcome && View() == Settle(old(View()), r, v)
    {
      var refused := CheckResources(g, t, r);
      if refused.Some? {
        StoreReject(r, refused.value);
        return Refusal(refused.value);
      }
      var res, id := CreateInstance(t, r);
      if res != Rt.Created {
        StoreReject(r, CreationReject(res));
        return Refusal(CreationReject(res));
      }
      Remember(r, Entry(r.requestId, fp, id, 0));
      return Acceptance(id);
    }

    method AdmitRequest(g: Gates, r: OperationRequest) returns (out: AdmitOutcome)
      requires Valid() && WellSized(r)
      modifies runtime, runtime.instances, runtime.slot, ledger.rings, ledger.heads, ledger.counts
      ensures Valid() && out == Admit(old(View()), g, r).outcome && View() == After(old(View()), g, r)
    {
      AdmitKeepsInv(View(), g, r);
      out := Process(g, r);
    }

    method Process(g: Gates, r: OperationRequest) returns (out: AdmitOutcome)
      requires Shaped() && runtime.Valid() && WellSized(r)
      modifies runtime, runtime.instances, runtime.slot, ledger.rings, ledger.heads, ledger.counts
      ensures Shaped() && out == Admit(old(View()), g, r).outcome && View() == After(old(View()), g, r)
    {
      var refused := CheckStatic(g, r);
      if refused.Some? {
        return Refusal(refused.value);
      }
      out := ProcessKnown(g, r);
    }

    /** Steps 5 to 7. */
    method ProcessKnown(g: Gates, r: OperationRequest) returns (out: AdmitOutcome)
      requires Shaped() && runtime.Valid() && WellSized(r)
      requires FindType(View().types, r.operationType) < |View().types|
      modifies runtime, runtime.instances, runtime.slot, ledger.rings, ledger.heads, ledger.counts
      ensures Shaped()
      ensures var v := AdmitKnown(old(View()), g, r); out == v.outcome && View() == Settle(old(View()), r, v)
    {
      KnownIs(View(), g, r);
      var fp := RequestFingerprint(r);
      var known := Recall(r, fp);
      if known.Some? {
        return known.value;
      }
      out := ProcessNew(g, r, fp);
    }

    method ProcessNew(g: Gates, r: OperationRequest, fp: seq<bool>) returns (out: AdmitOutcome)
      requires Shaped() && runtime.Valid() && WellSized(r) && fp == Fingerprint(r)
      requires FindType(View().types, r.operationType) < |View().types|
      modifies runtime, runtime.instances, runtime.slot, ledger.rings, ledger.heads, ledger.counts
      ensures Shaped()
      ensures var s := old(View()); var v := Decide(s, g, s.types[FindType(s.types, r.operationType)], r);
              out == v.outcome && View() == Settle(s, r, v)
    {
      var at := registry.Find(r.operationType);
      out := Resolve(g, registry.types[at], r, fp);
    }

    /** Step 5: what the ledger already decides. */
    method Recall(r: OperationRequest, fp: seq<bool>) returns (known: Option<AdmitOutcome>)
      requires Shaped()
      ensures known == Recalled(LookupIn(View().ledger, r.controllerEpoch, grant.authority, r.requestId, fp))
    {
      var found := ledger.Find(r.controllerEpoch, grant.authority, r.requestId, fp);
      match found {
        case SameResult(e) =>
          return Some(Replayed(e));
        case Conflict =>
          return Some(Refusal(CONFLICT));
        case Miss =>
          return None;
      }
    }
  }
}
