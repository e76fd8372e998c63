/** The Operation Runtime itself: a fixed array of instances, appended and shifted in place. Every method
    is proved to do to this state exactly what its counterpart in RuntimeModel does to its value. */
module OperationRuntime {
  import opened Options
  import opened Forest
  import opened Slot
  import opened RuntimeModel
  import Runs = RuntimeRuns

  /** The operation halted first, then those it owns. */
  lemma HaltedIsStopped(s: seq<Instance>, t: seq<Instance>, idx: nat, id: Id)
    requires IsForest(Shape(s)) && idx == Find(Shape(s), id) && idx < |s| == |t|
    requires var h := s[idx := Halted(s[idx])];
             forall j :: 0 <= j < |t| ==> t[j] == if Descends(Shape(s), j, id) then Halted(h[j]) else h[j]
    ensures t == Stopped(s, id)
  {
    forall j | 0 <= j < |s| ensures t[j] == Stopped(s, id)[j] {
      FindUnique(Shape(s), j);
    }
  }

  /** The first `n` operations looked at: those owned by `id` are halted. */
  ghost function Marked(s: seq<Instance>, id: Id, n: nat): (r: seq<Instance>)
    ensures |r| == |s|
    ensures forall j :: 0 <= j < |s| ==> r[j] == if j < n && Descends(Shape(s), j, id) then Halted(s[j]) else s[j]
  {
    seq(|s|, j requires 0 <= j < |s| => if j < n && Descends(Shape(s), j, id) then Halted(s[j]) else s[j])
  }

  lemma MarkedNext(s: seq<Instance>, id: Id, i: nat)
    requires i < |s|
    ensures Shape(Marked(s, id, i)) == Shape(s) && Marked(s, id, i)[i] == s[i]
    ensures Marked(s, id, i + 1) ==
            if Descends(Shape(s), i, id) then Marked(s, id, i)[i := Halted(s[i])] else Marked(s, id, i)
    ensures Halted(s[i]) == s[i] ==> Marked(s, id, i + 1) == Marked(s, id, i)
  {
    assert Shape(Marked(s, id, i)) == Shape(s);
    var m := Marked(s, id, i);
    if Descends(Shape(s), i, id) {
      assert Marked(s, id, i + 1) == m[i := Halted(s[i])];
    } else {
      assert Marked(s, id, i + 1) == m;
    }
    assert m[i := s[i]] == m;
  }

  class Runtime {
    const instances: array<Instance>
    var count: nat
    var lastId: Id
    const slot: ExclusiveSlot?
    /** Events handed to the sink so far. */
    var log: seq<Event>

    ghost predicate Shaped()
      reads `count
    {
      instances.Length == MAX_INSTANCES && count <= MAX_INSTANCES
    }

    ghost function Contents(): (s: seq<Instance>)
      reads `count, instances
      requires Shaped()
      ensures |s| == count
    {
      instances[..count]
    }

    ghost function View(): State
      reads this, instances, slot
      requires Shaped()
    {
      State(Contents(), lastId, if slot == null then None else Some(slot.current), log)
    }

    ghost predicate Valid()
      reads this, instances, slot
    {
      Shaped() && Inv(View())
    }

    constructor (slot: ExclusiveSlot?)
      requires slot != null ==> slot.current == Idle
      ensures Valid() && this.slot == slot && fresh(instances)
      ensures View() == Runs.Initial(if slot == null then None else Some(Idle))
    {
      var blank := Instance(0, 0, 0, 0, Accepted, Idle, false, false,
                                  Outcome(0, 0), NoDriver, false, Accepted, Outcome(0, 0));
      instances := new Instance[MAX_INSTANCES](_ => blank);
      count := 0;
      lastId := 0;
      this.slot := slot;
      log := [];
    }

    // -------------------------------------------------------------- lookups

    method FindIndex(id: Id) returns (r: int)
      requires Shaped()
      ensures r == Find(Shape(Contents()), id)
    {
      for i := 0 to count
        invariant forall j :: 0 <= j < i ==> instances[j].opId != id
      {
        if instances[i].opId == id {
          return i;
        }
      }
      return -1;
    }

    /** Walks the owner chain of the instance at `i` looking for `id`. */
    method IsOwnedBy(i: nat, id: Id) returns (owned: bool)
      requires Shaped() && i < count && IsForest(Shape(Contents()))
      ensures owned <==> Descends(Shape(Contents()), i, id)
    {
      ghost var f := Shape(Contents());
      ghost var cur: nat := i;
      var a := instances[i].parent;
      while a != 0
        invariant 0 <= cur < count && a == f[cur].parent
        invariant Descends(f, i, id) <==> Descends(f, cur, id)
        decreases cur
      {
        if a == id {
          return true;
        }
        var p := FindIndex(a);
        assert OwnerBefore(f, cur);
        if p < 0 {
          break;
        }
        a := instances[p].parent;
        cur := p;
      }
      return false;
    }

    /** The number of ancestors of a live operation; the walk guard never cuts it short. */
    method DepthOf(id: Id) returns (depth: nat)
      requires Shaped() && IsForest(Shape(Contents()))
      ensures var i := Find(Shape(Contents()), id);
              depth == if i < 0 then 0 else |Ancestors(Shape(Contents()), i)|
    {
      ghost var f := Shape(Contents());
      depth := 0;
      var idx := FindIndex(id);
      ghost var start := idx;
      while idx >= 0
        invariant -1 <= idx < count
        invariant idx < 0 ==> start < 0
        invariant start >= 0 ==> 0 <= idx && depth + |Ancestors(f, idx)| == |Ancestors(f, start)|
        invariant start < 0 ==> idx < 0 && depth == 0
        decreases idx
      {
        AncestorsExact(f, idx);
        AncestorsExact(f, start);
        if instances[idx].parent == 0 {
          return;
        }
        ghost var was := idx;
        idx := FindIndex(instances[idx].parent);
        assert OwnerBefore(f, was);
        depth := depth + 1;
        AncestorsExact(f, idx);
        if depth >= MAX_TREE_DEPTH {
          return;
        }
      }
    }

    method HasActiveDescendants(id: Id) returns (b: bool)
      requires Shaped() && IsForest(Shape(Contents()))
      requires forall i :: 0 <= i < count ==> IsLive(instances[i].state)
      ensures b <==> HasDescendant(Shape(Contents()), id)
    {
      ghost var f := Shape(Contents());
      for i := 0 to count
        invariant forall j :: 0 <= j < i ==> !Descends(f, j, id)
      {
        if instances[i].opId == id {
          if Descends(f, i, id) {
            AncestorBefore(f, i, id);
            FindUnique(f, i);
          }
          continue;
        }
        if !IsLive(instances[i].state) {
          continue;
        }
        var owned := IsOwnedBy(i, id);
        if owned {
          return true;
        }
      }
      return false;
    }

    method StepId()
      modifies this`lastId
      ensures lastId == NextCandidate(old(lastId))
    {
      lastId := if lastId == MAX_ID then 0 else lastId + 1;
      if lastId == 0 {
        lastId := 1;
      }
    }

    /** Issues the next id no live operation uses, also across the 32-bit wrap. At most one more id is
        tried than there are live operations. */
    method NextOpId() returns (id: Id, ghost tries: nat)
      requires Shaped()
      modifies this`lastId
      ensures id == lastId == FirstFree(old(lastId), Ids(Shape(Contents())))
      ensures tries <= count + 1
    {
      ghost var start, ids := lastId, Ids(Shape(Contents()));
      ghost var tried: set<Id> := {};
      tries := 0;
      IdsBound(Shape(Contents()));
      SearchStart(start, ids);
      while true
        invariant Contents() == old(Contents()) && ids == Ids(Shape(Contents()))
        invariant Searching(start, ids, tries, tried, lastId)
        invariant tries <= |ids| <= count
        decreases |ids| - tries
      {
        SearchNext(start, ids, tries, tried, lastId);
        StepId();
        tries := tries + 1;
        var at := FindIndex(lastId);
        IdsBound(Shape(Contents()));
        if at < 0 {
          return lastId, tries;
        }
        tried := tried + {lastId};
      }
    }

    // -------------------------------------------------------------- creation

    method Append(x: Instance)
      requires Shaped() && count < MAX_INSTANCES
      modifies this`count, this`log, instances
      ensures Shaped() && Contents() == old(Contents()) + [x]
      ensures log == old(log) + [Started(x.opId, x.parent, x.typeId)]
    {
      instances[count] := x;
      count := count + 1;
      log := log + [Started(x.opId, x.parent, x.typeId)];
    }

    method AddInstance(r: CreateRequest, parent: Id, activity: Activity) returns (id: Id)
      requires Shaped() && count < MAX_INSTANCES
      modifies this, instances
      ensures Shaped()
      ensures Creation(View(), Created, id) == Add(old(View()), r, parent, activity, old(View()).slot)
    {
      ghost var tries;
      id, tries := NextOpId();
      Append(NewInstance(id, r, parent, activity));
    }

    method CreateRoot(r: CreateRequest) returns (res: CreateResult, id: Id)
      requires Valid()
      modifies this, instances, slot
      ensures Valid()
      ensures Creation(View(), res, id) == RuntimeModel.CreateRoot(old(View()), r)
    {
      Runs.CreateRootKeepsInv(View(), r);
      id := 0;
      if r.parent != 0 || r.driver == NoDriver {
        return EdgeDenied, id;
      }
      if count >= MAX_INSTANCES {
        return InstancesFull, id;
      }
      if r.exclusiveClass != Idle && slot != null {
        var ok := slot.TryClaim(r.exclusiveClass);
        if !ok {
          return ExclusiveBusy, id;
        }
      }
      assert Contents() == old(Contents());
      id := AddInstance(r, 0, r.exclusiveClass);
      return Created, id;
    }

    method CreateChild(r: CreateRequest) returns (res: CreateResult, id: Id)
      requires Valid()
      modifies this, instances
      ensures Valid()
      ensures Creation(View(), res, id) == RuntimeModel.CreateChild(old(View()), r)
    {
      Runs.CreateChildKeepsInv(View(), r);
      id := 0;
      if r.parent == 0 || r.driver == NoDriver {
        return EdgeDenied, id;
      }
      var p := FindIndex(r.parent);
      if p < 0 {
        return ParentMissing, id;
      }
      if IsTerminal(instances[p].state) {
        return ParentMissing, id;
      }
      if count >= MAX_INSTANCES {
        return InstancesFull, id;
      }
      var depth := DepthOf(r.parent);
      if depth + 1 > MAX_TREE_DEPTH {
        return DepthExceeded, id;
      }
      id := AddInstance(r, r.parent, Idle);
      return Created, id;
    }

    // -------------------------------------------------------------- termination

    /** Takes instance `idx` out, keeping insertion order. */
    method ShiftOut(idx: nat)
      requires Shaped() && idx < count
      modifies this`count, instances
      ensures Shaped() && Contents() == RemoveAt(old(Contents()), idx)
    {
      var k := idx;
      while k + 1 < count
        invariant idx <= k < count == old(count)
        invariant forall j :: 0 <= j < idx ==> instances[j] == old(instances[j])
        invariant forall j :: idx <= j < k ==> instances[j] == old(instances[j + 1])
        invariant forall j :: k < j < count ==> instances[j] == old(instances[j])
      {
        instances[k] := instances[k + 1];
        k := k + 1;
      }
      count := count - 1;
    }

    method Finalize(idx: nat, final: OpState, o: Outcome)
      requires Shaped() && idx < count && Leaving(View(), idx)
      modifies this, instances, slot
      ensures Shaped() && View() == RuntimeModel.Finalize(old(View()), idx, o)
      decreases count, 0, 0
    {
      RemovedKeepsInv(View(), idx, o);
      var x := instances[idx];
      instances[idx] := x.(state := final, parked := false);
      if x.activity != Idle && slot != null {
        slot.Release(x.activity);
      }
      assert Contents() == old(Contents())[idx := instances[idx]];
      ShiftOut(idx);
      assert Contents() == RemoveAt(old(Contents()), idx);
      log := log + [Ended(x.opId, x.typeId, o.code)];
      assert View() == Removed(old(View()), idx, o);
      NotifyParent(x.parent, o);
    }

    method NotifyParent(parent: Id, o: Outcome)
      requires Shaped() && InvBut(View(), parent)
      modifies this, instances, slot
      ensures Shaped() && View() == RuntimeModel.NotifyParent(old(View()), parent, o)
      decreases count, 1, 0
    {
      if parent == 0 {
        return;
      }
      var p := FindIndex(parent);
      if p < 0 {
        return;
      }
      DeliveredState(View(), p, o);
      Deliver(p, o);
      if instances[p].pending {
        Settle(p);
      }
    }

    /** Resolves a deferred terminal once nothing it owns is live. */
    method Settle(p: nat)
      requires Shaped() && p < count && InvBut(View(), instances[p].opId) && instances[p].pending
      modifies this, instances, slot
      ensures Shaped()
      ensures var s := old(View()); var x := s.insts[p];
              View() == if HasDescendant(Shape(s.insts), x.opId) then s
                        else RuntimeModel.Finalize(s.(insts := s.insts[p := x.(pending := false)]), p, x.pendingOutcome)
      decreases count, 0, 1
    {
      var waiting := HasActiveDescendants(instances[p].opId);
      if !waiting {
        ResolvedState(View(), p);
        Put(p, instances[p].(pending := false));
        FindUnique(Shape(Contents()), p);
        var p2 := FindIndex(instances[p].opId);
        if p2 >= 0 {
          Finalize(p2, instances[p].pendingState, instances[p].pendingOutcome);
        }
      }
    }

    method Deliver(p: nat, o: Outcome)
      requires Shaped() && p < count
      modifies instances
      ensures Shaped() && View() == old(View()).(insts := old(Contents())[p := Delivered(old(instances[p]), o)])
    {
      instances[p] := instances[p].(childTerminal := true, childOutcome := o);
      if !instances[p].pending {
        instances[p] := instances[p].(parked := false);
      }
      assert Contents() == old(Contents())[p := Delivered(old(instances[p]), o)];
    }

    method Terminate(idx: nat, final: OpState, o: Outcome)
      requires Valid() && idx < count && IsTerminal(final)
      modifies this, instances, slot
      ensures Shaped() && View() == RuntimeModel.Terminate(old(View()), idx, final, o)
    {
      assert Shape(Contents())[idx].id == instances[idx].opId;
      var busy := HasActiveDescendants(instances[idx].opId);
      if busy {
        instances[idx] := instances[idx].(state := Stopping, parked := true, pending := true,
                                          pendingState := final, pendingOutcome := o);
        return;
      }
      ChildIffDescendant(Shape(Contents()), instances[idx].opId);
      Finalize(idx, final, o);
    }

    // -------------------------------------------------------------- advance

    /** At most one due operation is driven per call, the oldest first. */
    method Advance(now: int, drive: DriverAnswers)
      requires Valid()
      modifies this, instances, slot
      ensures Valid() && View() == RuntimeModel.Advance(old(View()), now, drive)
    {
      Runs.AdvanceKeepsInv(View(), now, drive);
      var i := FindDue();
      if i < count {
        var x := instances[i];
        ReplaceKeepsInv(View(), i, x.(childTerminal := false), 0);
        Put(i, x.(childTerminal := false));
        var ev := drive(x.driver, EnvOf(x, now));
        Apply(ev, i);
      }
    }

    method FindDue() returns (i: nat)
      requires Shaped()
      ensures i == FirstDue(Contents())
    {
      i := 0;
      while i < count
        invariant i <= count
        invariant forall j :: 0 <= j < i ==> !IsDue(instances[j])
      {
        var x := instances[i];
        if IsLive(x.state) && x.driver != NoDriver && !(x.pending || (x.parked && !x.childTerminal)) {
          return;
        }
        i := i + 1;
      }
    }

    method Put(i: nat, x: Instance)
      requires Shaped() && i < count
      modifies instances
      ensures Shaped() && View() == old(View()).(insts := old(Contents())[i := x])
    {
      instances[i] := x;
      assert Contents() == old(Contents())[i := x];
    }

    method Apply(ev: DriverEvent, idx: nat)
      requires Valid() && idx < count && !instances[idx].pending
      modifies this, instances, slot
      ensures Shaped() && View() == ApplyEvent(old(View()), idx, ev)
    {
      var x := instances[idx];
      match ev {
        case Continue =>
          Put(idx, x.(state := Begun(x.state), parked := false));
        case Yield =>
          Put(idx, x.(state := Begun(x.state), parked := Begun(x.state) != Stopping));
        case Spawn(spawnType, child) =>
          ApplySpawn(spawnType, child, idx);
        case Complete(o) =>
          Terminate(idx, Succeeded, o);
        case Fail(o) =>
          Terminate(idx, Failed, o);
        case Cancel(o) =>
          if x.state == Stopping {
            Terminate(idx, Cancelled, o);
          }
      }
    }

    /** A stopping operation starts nothing new; a refused spawn shows up as a failed child. */
    method ApplySpawn(spawnType: int, child: Driver, idx: nat)
      requires Valid() && idx < count && !instances[idx].pending
      modifies this, instances
      ensures Shaped() && View() == ApplyEvent(old(View()), idx, Spawn(spawnType, child))
    {
      var x := instances[idx];
      if x.state == Stopping {
        return;
      }
      ReplaceKeepsInv(View(), idx, x.(state := Begun(x.state)), 0);
      Put(idx, x.(state := Begun(x.state)));
      SpawnChild(idx,
                 CreateRequest(spawnType, x.authority, x.opId, if child != NoDriver then child else x.driver, Idle));
    }

    method SpawnChild(idx: nat, r: CreateRequest)
      requires Valid() && idx < count
      modifies this, instances
      ensures Shaped() && View() == Spawned(old(View()), idx, r)
    {
      Runs.CreateChildKeepsInv(View(), r);
      var res, id := CreateChild(r);
      if res != Created {
        Put(idx, instances[idx].(childTerminal := true, childOutcome := Outcome(FAILED_GENERIC, ResultCode(res))));
      }
    }

    // -------------------------------------------------------------- stop and fault

    /** Returns whether the operation was known. */
    method Stop(id: Id) returns (known: bool)
      requires Valid()
      modifies instances
      ensures Valid() && View() == RuntimeModel.Stop(old(View()), id)
      ensures known <==> Find(Shape(old(Contents())), id) >= 0
    {
      Runs.StopKeepsInv(View(), id);
      known := StopKnown(id);
    }

    method StopKnown(id: Id) returns (known: bool)
      requires Shaped() && IsForest(Shape(Contents()))
      modifies instances
      ensures Shaped() && View() == RuntimeModel.Stop(old(View()), id)
      ensures known <==> Find(Shape(old(Contents())), id) >= 0
    {
      var idx := FindIndex(id);
      if idx < 0 {
        return false;
      }
      if instances[idx].state == Accepted || instances[idx].state == Running {
        StopTree(idx, id);
      }
      return true;
    }

    method StopTree(idx: nat, id: Id)
      requires Shaped() && IsForest(Shape(Contents())) && idx == Find(Shape(Contents()), id)
      modifies instances
      ensures Shaped() && View() == old(View()).(insts := Stopped(old(Contents()), id))
    {
      ghost var s := Contents();
      Halt(idx);
      MarkStoppingRecursive(id);
      HaltedIsStopped(s, Contents(), idx, id);
    }

    method Halt(i: nat)
      requires Shaped() && i < count
      modifies instances
      ensures Contents() == old(Contents())[i := Halted(old(Contents())[i])]
      ensures Shape(Contents()) == Shape(old(Contents()))
    {
      if instances[i].state == Accepted || instances[i].state == Running {
        instances[i] := instances[i].(state := Stopping, parked := false);
      }
      assert Contents() == old(Contents())[i := Halted(old(Contents())[i])];
    }

    method MarkStoppingRecursive(id: Id)
      requires Shaped() && IsForest(Shape(Contents()))
      modifies instances
      ensures forall j :: 0 <= j < count ==>
                instances[j] == if Descends(Shape(old(Contents())), j, id)
                                then Halted(old(instances[j])) else old(instances[j])
    {
      ghost var s := Contents();
      assert s == Marked(s, id, 0);
      for i := 0 to count
        invariant Contents() == Marked(s, id, i)
      {
        MarkedNext(s, id, i);
        if instances[i].state != Accepted && instances[i].state != Running {
          continue;
        }
        var owned := IsOwnedBy(i, id);
        if owned {
          Halt(i);
        }
      }
      assert forall j :: 0 <= j < count ==> instances[j] == Contents()[j] && s[j] == old(instances[j]);
    }

    method FaultCascade()
      requires Valid()
      modifies instances
      ensures Valid() && View() == RuntimeModel.FaultCascade(old(View()))
    {
      Runs.CascadeKeepsInv(View());
      HaltEach();
    }

    method HaltEach()
      requires Shaped()
      modifies instances
      ensures Shaped() && View() == RuntimeModel.FaultCascade(old(View()))
    {
      for i := 0 to count
        invariant forall j :: 0 <= j < i ==> instances[j] == Halted(old(instances[j]))
        invariant forall j :: i <= j < count ==> instances[j] == old(instances[j])
      {
        if instances[i].state == Accepted || instances[i].state == Running {
          instances[i] := instances[i].(state := Stopping, parked := false);
        }
      }
      assert Contents() == HaltAll(old(Contents()));
    }

    // -------------------------------------------------------------- queries for admission

    method SlotHeld() returns (held: bool)
      requires Shaped()
      ensures held <==> View().slot.Some? && View().slot.value != Idle
    {
      return slot != null && slot.current != Idle;
    }

    method IsActive(id: Id) returns (active: bool)
      requires Valid()
      ensures active <==> Find(Shape(Contents()), id) >= 0
    {
      var idx := FindIndex(id);
      if idx < 0 {
        return false;
      }
      return IsLive(instances[idx].state);
    }
  }
}
