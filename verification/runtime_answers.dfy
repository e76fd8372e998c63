/** What the calls of the runtime do, operation by operation: creations, the answers of drivers, and whose answer
    it is that a terminal event reports. */
module RuntimeAnswers {
  import opened Options
  import opened Forest
  import opened Slot
  import opened RuntimeModel
  import opened RuntimeRuns
  import opened Sequences

  // ---------------------------------------------------------------- creation

  /** What a new operation starts as. */
  predicate IsNew(x: Instance, r: CreateRequest) {
    && x.typeId == r.typeId && x.authority == r.authority && x.driver == r.driver && x.state == Accepted
    && !x.parked && !x.childTerminal && x.childOutcome == Outcome(0, 0) && !x.pending
  }

  /** `t` is `s` with one more operation, of a new id, last in the array. */
  ghost predicate Grown(s: State, t: State, r: CreateRequest, parent: Id, activity: Activity) {
    && |t.insts| == |s.insts| + 1 && t.insts[..|s.insts|] == s.insts
    && var x := t.insts[|s.insts|];
       && IsNew(x, r) && x.parent == parent && x.activity == activity
       && x.opId != 0 && x.opId == t.lastId && (forall i :: 0 <= i < |s.insts| ==> s.insts[i].opId != x.opId)
       && t.log == s.log + [Started(x.opId, parent, r.typeId)]
  }

  /** A root is refused for a parent or a missing driver, else when eight operations live, else when it claims a
      slot that is taken; otherwise it is created and its claim shown in the slot. */
  lemma RootVerdict(s: State, r: CreateRequest)
    requires Inv(s)
    ensures var c := CreateRoot(s, r);
            if r.parent != 0 || r.driver == NoDriver then c == Creation(s, EdgeDenied, 0)
            else if |s.insts| == 8 then c == Creation(s, InstancesFull, 0)
            else if r.exclusiveClass != Idle && s.slot.Some? && s.slot != Some(Idle) then
              c == Creation(s, ExclusiveBusy, 0)
            else
              && c.result == Created && c.id == c.state.lastId && Grown(s, c.state, r, 0, r.exclusiveClass)
              && c.state.slot == if s.slot.Some? && r.exclusiveClass != Idle then Some(r.exclusiveClass) else s.slot
  {
    if CreateRoot(s, r).result == Created { AddIsNew(s, r, 0, r.exclusiveClass, CreateRoot(s, r).state.slot); }
  }

  /** A child is refused for a missing parent id or driver, else when the parent does not live, else when eight
      operations live; otherwise it is created without a claim. */
  lemma ChildVerdict(s: State, r: CreateRequest)
    requires Inv(s)
    ensures var c := CreateChild(s, r);
            if r.parent == 0 || r.driver == NoDriver then c == Creation(s, EdgeDenied, 0)
            else if forall i :: 0 <= i < |s.insts| ==> s.insts[i].opId != r.parent then
              c == Creation(s, ParentMissing, 0)
            else if |s.insts| == 8 then c == Creation(s, InstancesFull, 0)
            else
              && c.result == Created && c.id == c.state.lastId && c.state.slot == s.slot
              && Grown(s, c.state, r, r.parent, Idle)
  {
    CreateChildKeepsInv(s, r);
    var p := Find(Shape(s.insts), r.parent);
    if p >= 0 {
      assert s.insts[p].opId == r.parent && Sound(s.insts[p]);
    } else {
      assert forall i :: 0 <= i < |s.insts| ==> Shape(s.insts)[i].id == s.insts[i].opId;
    }
    if CreateChild(s, r).result == Created { AddIsNew(s, r, r.parent, Idle, s.slot); }
  }

  lemma AddIsNew(s: State, r: CreateRequest, parent: Id, activity: Activity, slot: Option<Activity>)
    requires Inv(s)
    ensures Grown(s, Add(s, r, parent, activity, slot).state, r, parent, activity)
  {
    var ids := Ids(Shape(s.insts));
    var id := FirstFree(s.lastId, ids);
    IdsBound(Shape(s.insts));
    var k := FirstFreeAt(s.lastId, ids);
    forall i | 0 <= i < |s.insts| ensures s.insts[i].opId != id {
      assert Shape(s.insts)[i].id in ids;
    }
  }

  // ---------------------------------------------------------------- one answer

  /** Operation `i` is the oldest that is live with a driver, not deferred, and not waiting for a child. */
  ghost predicate OldestDue(s: State, i: nat) {
    && i < |s.insts| && CanBeDriven(s.insts[i])
    && forall j :: 0 <= j < i ==> !CanBeDriven(s.insts[j])
  }

  predicate CanBeDriven(x: Instance) {
    && (x.state == Accepted || x.state == Running || x.state == Stopping)
    && x.driver != NoDriver && !x.pending && (!x.parked || x.childTerminal)
  }

  /** What the driver of `x` is shown. */
  function Shown(x: Instance, now: int): OperationEnv {
    OperationEnv(now, x.opId, x.parent, x.authority, x.state == Stopping, x.childTerminal, x.childOutcome)
  }

  lemma OldestIsFirst(s: State, i: nat)
    requires OldestDue(s, i)
    ensures FirstDue(s.insts) == i
  {
    assert forall j :: 0 <= j < |s.insts| ==> (CanBeDriven(s.insts[j]) <==> IsDue(s.insts[j]));
  }

  /** Nothing happens while nothing can be driven. */
  lemma NothingDue(s: State, now: int, drive: DriverAnswers)
    requires forall j :: 0 <= j < |s.insts| ==> !CanBeDriven(s.insts[j])
    ensures Advance(s, now, drive) == s
  {
    assert forall j :: 0 <= j < |s.insts| ==> (CanBeDriven(s.insts[j]) <==> IsDue(s.insts[j]));
  }

  /** The operation driven runs from now on and has consumed its child's outcome. */
  function Driven(x: Instance): Instance {
    x.(state := if x.state == Accepted then Running else x.state, childTerminal := false)
  }

  /** The oldest due operation is driven, shown the child outcome delivered to it. Continue leaves it due, Yield
      parks it unless it is stopping, and a Cancel outside a stop only consumes the outcome. */
  lemma StaysLive(s: State, now: int, drive: DriverAnswers, i: nat)
    requires OldestDue(s, i)
    ensures var x := s.insts[i]; var y := x.(childTerminal := false);
            match drive(x.driver, Shown(x, now))
            case Continue => Advance(s, now, drive) == s.(insts := s.insts[i := Driven(x).(parked := false)])
            case Yield =>
              Advance(s, now, drive) == s.(insts := s.insts[i := Driven(x).(parked := x.state != Stopping)])
            case Cancel(_) => x.state != Stopping ==> Advance(s, now, drive) == s.(insts := s.insts[i := y])
            case Spawn(_, _) => x.state == Stopping ==> Advance(s, now, drive) == s.(insts := s.insts[i := y])
            case _ => true
  {
    OldestIsFirst(s, i);
    var x := s.insts[i];
    assert s.insts[i := x.(childTerminal := false)][i := Driven(x).(parked := false)]
           == s.insts[i := Driven(x).(parked := false)];
  }

  /** The child is created with the driver the spawn names, or else the spawning operation's own. */
  function SpawnRequest(x: Instance, ev: DriverEvent): CreateRequest
    requires ev.Spawn?
  {
    CreateRequest(ev.spawnType, x.authority, x.opId, if ev.child != NoDriver then ev.child else x.driver, Idle)
  }

  /** A spawn starts one child under the operation; when eight live already, it is shown a failed child. */
  lemma SpawnStartsChild(s: State, now: int, drive: DriverAnswers, i: nat)
    requires Inv(s) && OldestDue(s, i) && s.insts[i].state != Stopping
    requires drive(s.insts[i].driver, Shown(s.insts[i], now)).Spawn?
    ensures var x := s.insts[i]; var r := SpawnRequest(x, drive(x.driver, Shown(x, now)));
            var t := Advance(s, now, drive);
            if |s.insts| < 8 then
              t.slot == s.slot && Grown(s.(insts := s.insts[i := Driven(x)]), t, r, x.opId, Idle)
            else
              t == s.(insts := s.insts[i := Driven(x).(childTerminal := true, childOutcome := Outcome(2, 1))])
  {
    var x := s.insts[i];
    var ev := drive(x.driver, Shown(x, now));
    var r := SpawnRequest(x, ev);
    AdvanceSpawns(s, now, drive, i);
    ReplaceKeepsInv(s, i, Driven(x), 0);
    SpawnVerdict(s.(insts := s.insts[i := Driven(x)]), i, r);
  }

  lemma AdvanceSpawns(s: State, now: int, drive: DriverAnswers, i: nat)
    requires OldestDue(s, i) && s.insts[i].state != Stopping
    requires drive(s.insts[i].driver, Shown(s.insts[i], now)).Spawn?
    ensures var x := s.insts[i]; var ev := drive(x.driver, Shown(x, now));
            Advance(s, now, drive) == Spawned(s.(insts := s.insts[i := Driven(x)]), i, SpawnRequest(x, ev))
  {
    OldestIsFirst(s, i);
    var x := s.insts[i];
    assert s.insts[i := x.(childTerminal := false)][i := Driven(x)] == s.insts[i := Driven(x)];
  }

  lemma SpawnVerdict(s: State, i: nat, r: CreateRequest)
    requires Inv(s) && i < |s.insts| && r.parent == s.insts[i].opId && r.driver != NoDriver
    ensures if |s.insts| < 8 then Spawned(s, i, r).slot == s.slot && Grown(s, Spawned(s, i, r), r, r.parent, Idle)
            else Spawned(s, i, r)
                 == s.(insts := s.insts[i := s.insts[i].(childTerminal := true, childOutcome := Outcome(2, 1))])
  {
    ChildVerdict(s, r);
    assert Shape(s.insts)[i].id == r.parent;
  }

  /** Some live operation has the operation `op` as its owner. */
  ghost predicate OwnsSomething(insts: seq<Instance>, op: Id) {
    exists j :: 0 <= j < |insts| && insts[j].parent == op
  }

  /** The final state a terminal answer asks for; a Cancel is one only for a stopping operation. */
  function Final(x: Instance, ev: DriverEvent): Option<OpState> {
    match ev
    case Complete(_) => Some(Succeeded)
    case Fail(_) => Some(Failed)
    case Cancel(_) => if x.state == Stopping then Some(Cancelled) else None
    case _ => None
  }

  lemma OwnsIff(s: State, op: Id)
    requires Inv(s) && op != 0
    ensures HasDescendant(Shape(s.insts), op) <==> OwnsSomething(s.insts, op)
  {
    ChildIffDescendant(Shape(s.insts), op);
    if HasChild(Shape(s.insts), op) {
      var j :| 0 <= j < |s.insts| && Shape(s.insts)[j].parent == op;
      assert s.insts[j].parent == op;
    }
    if j :| 0 <= j < |s.insts| && s.insts[j].parent == op {
      assert Shape(s.insts)[j].parent == op;
    }
  }

  lemma TerminalIsTerminate(s: State, now: int, drive: DriverAnswers, i: nat)
    requires OldestDue(s, i)
    ensures var x := s.insts[i]; var ev := drive(x.driver, Shown(x, now));
            Final(x, ev).Some? ==>
              Advance(s, now, drive)
                == Terminate(s.(insts := s.insts[i := x.(childTerminal := false)]), i, Final(x, ev).value, ev.outcome)
  {
    OldestIsFirst(s, i);
  }

  /** A terminal answer of an operation that owns something live is deferred with exactly the outcome answered;
      the operation stops, and nothing else changes. Without, it is the first terminal event reported, with the
      code answered, and the operation is gone. */
  lemma TerminalAnswer(s: State, now: int, drive: DriverAnswers, i: nat)
    requires Inv(s) && OldestDue(s, i) && Final(s.insts[i], drive(s.insts[i].driver, Shown(s.insts[i], now))).Some?
    ensures var x := s.insts[i]; var ev := drive(x.driver, Shown(x, now)); var t := Advance(s, now, drive);
            if OwnsSomething(s.insts, x.opId) then
              t == s.(insts := s.insts[i := x.(childTerminal := false, state := Stopping, parked := true,
                                               pending := true, pendingState := Final(x, ev).value,
                                               pendingOutcome := ev.outcome)])
            else
              && s.log < t.log && t.log[|s.log|] == Ended(x.opId, x.typeId, ev.outcome.code)
              && t.lastId == s.lastId
  {
    var x := s.insts[i];
    var ev := drive(x.driver, Shown(x, now));
    var y := x.(childTerminal := false);
    TerminalIsTerminate(s, now, drive, i);
    OwnsIff(s, x.opId);
    assert Shape(s.insts[i := y]) == Shape(s.insts) && Shape(s.insts)[i].id == x.opId;
    TerminateIs(s.(insts := s.insts[i := y]), i, Final(x, ev).value, ev.outcome);
    UpdatedTwice(s.insts, i, y, y.(state := Stopping, parked := true, pending := true,
                                   pendingState := Final(x, ev).value, pendingOutcome := ev.outcome));
  }

  lemma UpdatedTwice<T>(s: seq<T>, i: nat, y: T, z: T)
    requires i < |s|
    ensures s[i := y][i := z] == s[i := z]
  {
  }

  lemma TerminateIs(s: State, i: nat, final: OpState, o: Outcome)
    requires i < |s.insts|
    ensures var x := s.insts[i]; var t := Terminate(s, i, final, o);
            if HasDescendant(Shape(s.insts), x.opId) then
              t == s.(insts := s.insts[i := x.(state := Stopping, parked := true, pending := true,
                                               pendingState := final, pendingOutcome := o)])
            else s.log < t.log && t.log[|s.log|] == Ended(x.opId, x.typeId, o.code) && t.lastId == s.lastId
  {
    if !HasDescendant(Shape(s.insts), s.insts[i].opId) { FinalizeLogs(s, i, o); }
  }

  lemma {:induction false} FinalizeLogs(s: State, i: nat, o: Outcome)
    requires i < |s.insts|
    ensures var t := Finalize(s, i, o); var x := s.insts[i];
            s.log < t.log && t.log[|s.log|] == Ended(x.opId, x.typeId, o.code) && t.lastId == s.lastId
    decreases |s.insts|, 0
  {
    var t := Removed(s, i, o);
    NotifyLogs(t, s.insts[i].parent, o);
    assert t.log[|s.log|] == Ended(s.insts[i].opId, s.insts[i].typeId, o.code);
  }

  lemma {:induction false} NotifyLogs(s: State, parent: Id, o: Outcome)
    ensures s.log <= NotifyParent(s, parent, o).log && NotifyParent(s, parent, o).lastId == s.lastId
    decreases |s.insts|, 1
  {
    var p := Find(Shape(s.insts), parent);
    if parent != 0 && p >= 0 {
      var y := Delivered(s.insts[p], o);
      if y.pending && !HasDescendant(Shape(s.insts), parent) {
        FinalizeLogs(s.(insts := s.insts[p := y.(pending := false)]), p, y.pendingOutcome);
      }
    }
  }

  /** When the owner is not itself waiting to end, the end of an operation takes it out of the array, frees the
      slot it held, reports it and hands its outcome to the owner, which becomes due; nothing else changes. */
  lemma EndsAlone(s: State, now: int, drive: DriverAnswers, i: nat, p: int)
    requires Inv(s) && OldestDue(s, i) && Final(s.insts[i], drive(s.insts[i].driver, Shown(s.insts[i], now))).Some?
    requires !OwnsSomething(s.insts, s.insts[i].opId) && p == Find(Shape(s.insts), s.insts[i].parent)
    requires s.insts[i].parent != 0 ==> 0 <= p < |s.insts| && !s.insts[p].pending
    ensures var x := s.insts[i]; var o := drive(x.driver, Shown(x, now)).outcome;
            && (x.parent == 0 || 0 <= p < i)
            && Advance(s, now, drive)
               == State(if x.parent == 0 then RemoveAt(s.insts, i)
                        else RemoveAt(s.insts, i)[p := s.insts[p].(childTerminal := true, childOutcome := o,
                                                                   parked := false)],
                        s.lastId, if x.activity != Idle && s.slot.Some? then Some(Idle) else s.slot,
                        s.log + [Ended(x.opId, x.typeId, o.code)])
  {
    var x := s.insts[i];
    var o := drive(x.driver, Shown(x, now)).outcome;
    var s0 := s.(insts := s.insts[i := x.(childTerminal := false)]);
    TerminalIsTerminate(s, now, drive, i);
    assert Shape(s0.insts) == Shape(s.insts) && Shape(s.insts)[i].id == x.opId;
    OwnsIff(s, x.opId);
    assert RemoveAt(s0.insts, i) == RemoveAt(s.insts, i);
    ReleasedIs(s, i);
    if x.parent == 0 { FinalizedRoot(s0, i, o); } else { FinalizedUnder(s0, i, o, p); }
  }

  lemma ReleasedIs(s: State, i: nat)
    requires Inv(s) && i < |s.insts|
    ensures var a := s.insts[i].activity;
            Released(s.slot, a) == if a != Idle && s.slot.Some? then Some(Idle) else s.slot
  {
    assert SlotMatches(s.insts, s.slot);
  }

  lemma FinalizedRoot(s: State, i: nat, o: Outcome)
    requires i < |s.insts| && s.insts[i].parent == 0
    ensures Finalize(s, i, o) == Removed(s, i, o)
  {
  }

  lemma FinalizedUnder(s: State, i: nat, o: Outcome, p: nat)
    requires IsForest(Shape(s.insts)) && i < |s.insts| && s.insts[i].parent != 0
    requires p == Find(Shape(s.insts), s.insts[i].parent) && p < |s.insts| && !s.insts[p].pending
    ensures p < i
    ensures var x := s.insts[p].(childTerminal := true, childOutcome := o, parked := false);
            Finalize(s, i, o) == Removed(s, i, o).(insts := RemoveAt(s.insts, i)[p := x])
  {
    var f := Shape(s.insts);
    assert OwnerBefore(f, i);
    var t := Removed(s, i, o);
    assert Shape(t.insts) == RemoveAt(f, i);
    FindAfterRemove(f, i, s.insts[i].parent);
    assert t.insts[p] == s.insts[p];
  }

  // ---------------------------------------------------------------- stop and fault

  /** A fault stops and unparks every operation that was not stopping yet and touches nothing else. */
  lemma FaultStops(s: State)
    ensures var t := FaultCascade(s);
            && t == s.(insts := t.insts) && |t.insts| == |s.insts|
            && forall i :: 0 <= i < |s.insts| ==>
                 t.insts[i] == if s.insts[i].state == Accepted || s.insts[i].state == Running
                               then s.insts[i].(state := Stopping, parked := false) else s.insts[i]
  {
  }

  // ---------------------------------------------------------------- whose answer a terminal event reports

  /** What happens in a run: an operation's driver gives a terminal answer, or an event is logged. */
  datatype Item = Answered(op: Id, code: int) | Logged(e: Event)

  function Items(es: seq<Event>): (r: seq<Item>)
    ensures |r| == |es| && forall i :: 0 <= i < |r| ==> r[i] == Logged(es[i])
  {
    seq(|es|, i requires 0 <= i < |es| => Logged(es[i]))
  }

  /** The terminal answer given in a call, if any. */
  ghost function AnswerIn(s: State, c: Call): seq<Item> {
    if !c.AdvanceCall? || FirstDue(s.insts) == |s.insts| then []
    else
      var x := s.insts[FirstDue(s.insts)];
      var ev := c.drive(x.driver, Shown(x, c.now));
      if Final(x, ev).Some? then [Answered(x.opId, ev.outcome.code)] else []
  }

  ghost function ItemsOf(s: State, c: Call): seq<Item> {
    var t := Step(s, c);
    AnswerIn(s, c) + if s.log <= t.log then Items(t.log[|s.log|..]) else []
  }

  ghost function Trace(s: State, calls: seq<Call>): seq<Item>
    decreases |calls|
  {
    if calls == [] then [] else ItemsOf(s, calls[0]) + Trace(Step(s, calls[0]), calls[1..])
  }

  predicate Concerns(it: Item, op: Id) {
    (it.Answered? && it.op == op) || (it.Logged? && it.e.Started? && it.e.op == op)
  }

  /** The latest thing in `tr` that `op` started or answered is the terminal answer with `code`. */
  ghost predicate HasAnswered(tr: seq<Item>, op: Id, code: int) {
    exists a :: 0 <= a < |tr| && tr[a] == Answered(op, code) && forall k :: a < k < |tr| ==> !Concerns(tr[k], op)
  }

  /** Every terminal event reports the code its own operation's driver last answered. */
  ghost predicate Honest(tr: seq<Item>) {
    forall t :: 0 <= t < |tr| && tr[t].Logged? && tr[t].e.Ended? ==> HasAnswered(tr[..t], tr[t].e.op, tr[t].e.code)
  }

  ghost predicate Promised(insts: seq<Instance>, tr: seq<Item>) {
    forall j :: 0 <= j < |insts| && insts[j].pending ==> HasAnswered(tr, insts[j].opId, insts[j].pendingOutcome.code)
  }

  lemma AnsweredStays(tr: seq<Item>, it: Item, op: Id, code: int)
    requires HasAnswered(tr, op, code) && !Concerns(it, op)
    ensures HasAnswered(tr + [it], op, code)
  {
    var a :| 0 <= a < |tr| && tr[a] == Answered(op, code) && forall k :: a < k < |tr| ==> !Concerns(tr[k], op);
    assert (tr + [it])[a] == Answered(op, code);
  }

  lemma HonestSnoc(tr: seq<Item>, it: Item)
    requires Honest(tr) && (it.Logged? && it.e.Ended? ==> HasAnswered(tr, it.e.op, it.e.code))
    ensures Honest(tr + [it])
  {
    forall t | 0 <= t < |tr + [it]| && (tr + [it])[t].Logged? && (tr + [it])[t].e.Ended?
      ensures HasAnswered((tr + [it])[..t], (tr + [it])[t].e.op, (tr + [it])[t].e.code)
    {
      if t < |tr| {
        assert (tr + [it])[..t] == tr[..t];
      } else {
        assert (tr + [it])[..t] == tr;
      }
    }
  }

  lemma PromisedSnoc(insts: seq<Instance>, tr: seq<Item>, it: Item)
    requires Promised(insts, tr)
    requires forall j :: 0 <= j < |insts| && insts[j].pending ==> !Concerns(it, insts[j].opId)
    ensures Promised(insts, tr + [it])
  {
    forall j | 0 <= j < |insts| && insts[j].pending
      ensures HasAnswered(tr + [it], insts[j].opId, insts[j].pendingOutcome.code)
    {
      AnsweredStays(tr, it, insts[j].opId, insts[j].pendingOutcome.code);
    }
  }

  /** What the trace looks like when `s` has become `t`. */
  ghost predicate Kept(s: State, t: State, tr: seq<Item>) {
    && s.log <= t.log && Honest(tr + Items(t.log[|s.log|..])) && Promised(t.insts, tr + Items(t.log[|s.log|..]))
  }

  lemma KeptNothingLogged(s: State, t: State, tr: seq<Item>)
    requires t.log == s.log && Honest(tr) && Promised(t.insts, tr)
    ensures Kept(s, t, tr)
  {
    assert Items(t.log[|s.log|..]) == [];
    assert tr + [] == tr;
  }

  lemma KeptAfter(s: State, t: State, u: State, e: Event, tr: seq<Item>)
    requires t.log == s.log + [e] && Kept(t, u, tr + [Logged(e)])
    ensures Kept(s, u, tr)
  {
    assert u.log[|s.log|..] == [e] + u.log[|t.log|..];
    assert Items(u.log[|s.log|..]) == [Logged(e)] + Items(u.log[|t.log|..]);
    assert tr + ([Logged(e)] + Items(u.log[|t.log|..])) == tr + [Logged(e)] + Items(u.log[|t.log|..]);
  }

  lemma {:induction false} FinalizeKept(s: State, i: nat, o: Outcome, tr: seq<Item>)
    requires i < |s.insts| && Honest(tr) && HasAnswered(tr, s.insts[i].opId, o.code)
    requires Promised(RemoveAt(s.insts, i), tr)
    ensures Kept(s, Finalize(s, i, o), tr)
    decreases |s.insts|, 0
  {
    var x := s.insts[i];
    var t := Removed(s, i, o);
    var e := Ended(x.opId, x.typeId, o.code);
    HonestSnoc(tr, Logged(e));
    PromisedSnoc(t.insts, tr, Logged(e));
    NotifyKept(t, x.parent, o, tr + [Logged(e)]);
    KeptAfter(s, t, Finalize(s, i, o), e, tr);
  }

  lemma {:induction false} NotifyKept(s: State, parent: Id, o: Outcome, tr: seq<Item>)
    requires Honest(tr) && Promised(s.insts, tr)
    ensures Kept(s, NotifyParent(s, parent, o), tr)
    decreases |s.insts|, 1
  {
    var p := Find(Shape(s.insts), parent);
    if parent == 0 || p < 0 {
      KeptNothingLogged(s, s, tr);
    } else {
      var y := Delivered(s.insts[p], o);
      if y.pending && !HasDescendant(Shape(s.insts), parent) {
        var s1 := s.(insts := s.insts[p := y.(pending := false)]);
        PromisedRemoved(s.insts, s1.insts, p, tr);
        FinalizeKept(s1, p, y.pendingOutcome, tr);
      } else {
        PromisedReplaced(s.insts, p, y, tr);
        KeptNothingLogged(s, s.(insts := s.insts[p := y]), tr);
      }
    }
  }

  lemma PromisedRemoved(s: seq<Instance>, t: seq<Instance>, p: nat, tr: seq<Item>)
    requires p < |s| == |t| && Promised(s, tr) && forall j :: 0 <= j < |s| && j != p ==> t[j] == s[j]
    ensures Promised(RemoveAt(t, p), tr)
  {
    forall j | 0 <= j < |t| - 1 && RemoveAt(t, p)[j].pending
      ensures HasAnswered(tr, RemoveAt(t, p)[j].opId, RemoveAt(t, p)[j].pendingOutcome.code)
    {
      var k := if j < p then j else j + 1;
      assert RemoveAt(t, p)[j] == s[k];
    }
  }

  lemma PromisedReplaced(s: seq<Instance>, p: nat, y: Instance, tr: seq<Item>)
    requires p < |s| && Promised(s, tr)
    requires y.pending ==> HasAnswered(tr, y.opId, y.pendingOutcome.code)
    ensures Promised(s[p := y], tr)
  {
    var t := s[p := y];
    forall j | 0 <= j < |t| && t[j].pending ensures HasAnswered(tr, t[j].opId, t[j].pendingOutcome.code) {
      if j != p { assert t[j] == s[j]; }
    }
  }

  lemma KeptGrown(s: State, t: State, r: CreateRequest, parent: Id, activity: Activity, tr: seq<Item>)
    requires Grown(s, t, r, parent, activity) && Honest(tr) && Promised(s.insts, tr)
    ensures Kept(s, t, tr)
  {
    var x := t.insts[|s.insts|];
    var e := Started(x.opId, parent, r.typeId);
    HonestSnoc(tr, Logged(e));
    PromisedSnoc(s.insts, tr, Logged(e));
    forall j | 0 <= j < |t.insts| && t.insts[j].pending
      ensures HasAnswered(tr + [Logged(e)], t.insts[j].opId, t.insts[j].pendingOutcome.code)
    {
      assert t.insts[j] == t.insts[..|s.insts|][j];
    }
    KeptNothingLogged(t, t, tr + [Logged(e)]);
    KeptAfter(s, t, t, e, tr);
  }

  lemma KeptHalted(s: State, t: State, tr: seq<Item>)
    requires t.log == s.log && |t.insts| == |s.insts| && Honest(tr) && Promised(s.insts, tr)
    requires forall j :: 0 <= j < |s.insts| ==> t.insts[j] == s.insts[j] || t.insts[j] == Halted(s.insts[j])
    ensures Kept(s, t, tr)
  {
    forall j | 0 <= j < |t.insts| && t.insts[j].pending
      ensures HasAnswered(tr, t.insts[j].opId, t.insts[j].pendingOutcome.code)
    {
      assert s.insts[j].pending;
    }
    KeptNothingLogged(s, t, tr);
  }

  lemma KeptReplaced(s: State, i: nat, y: Instance, tr: seq<Item>)
    requires i < |s.insts| && !y.pending && Honest(tr) && Promised(s.insts, tr)
    ensures Kept(s, s.(insts := s.insts[i := y]), tr)
  {
    PromisedReplaced(s.insts, i, y, tr);
    KeptNothingLogged(s, s.(insts := s.insts[i := y]), tr);
  }

  lemma KeptSpawned(s: State, i: nat, r: CreateRequest, tr: seq<Item>)
    requires Inv(s) && i < |s.insts| && !s.insts[i].pending && r.parent == s.insts[i].opId && r.driver != NoDriver
    requires Honest(tr) && Promised(s.insts, tr)
    ensures Kept(s, Spawned(s, i, r), tr)
  {
    SpawnVerdict(s, i, r);
    if |s.insts| < 8 {
      KeptGrown(s, Spawned(s, i, r), r, r.parent, Idle, tr);
    } else {
      KeptReplaced(s, i, s.insts[i].(childTerminal := true, childOutcome := Outcome(2, 1)), tr);
    }
  }

  /** A terminal answer, once noted, is what is reported now or later. */
  lemma KeptTerminated(s: State, i: nat, final: OpState, o: Outcome, tr: seq<Item>)
    requires Inv(s) && i < |s.insts| && !s.insts[i].pending && Honest(tr) && Promised(s.insts, tr)
    ensures Kept(s, Terminate(s, i, final, o), tr + [Answered(s.insts[i].opId, o.code)])
  {
    var x := s.insts[i];
    var tr1 := tr + [Answered(x.opId, o.code)];
    HonestSnoc(tr, Answered(x.opId, o.code));
    NoOtherPending(s, i);
    PromisedSnoc(s.insts, tr, Answered(x.opId, o.code));
    assert tr1[|tr|] == Answered(x.opId, o.code);
    assert HasAnswered(tr1, x.opId, o.code);
    if HasDescendant(Shape(s.insts), x.opId) {
      var y := x.(state := Stopping, parked := true, pending := true, pendingState := final, pendingOutcome := o);
      PromisedReplaced(s.insts, i, y, tr1);
      KeptNothingLogged(s, s.(insts := s.insts[i := y]), tr1);
    } else {
      PromisedRemoved(s.insts, s.insts, i, tr1);
      FinalizeKept(s, i, o, tr1);
    }
  }

  lemma NoOtherPending(s: State, i: nat)
    requires Inv(s) && i < |s.insts| && !s.insts[i].pending
    ensures forall j :: 0 <= j < |s.insts| && s.insts[j].pending ==> s.insts[j].opId != s.insts[i].opId
  {
    FindUnique(Shape(s.insts), i);
    forall j | 0 <= j < |s.insts| && s.insts[j].pending ensures s.insts[j].opId != s.insts[i].opId {
      FindUnique(Shape(s.insts), j);
    }
  }

  lemma KeptApplied(s: State, i: nat, ev: DriverEvent, tr: seq<Item>)
    requires Inv(s) && i < |s.insts| && !s.insts[i].pending && Honest(tr) && Promised(s.insts, tr)
    ensures Kept(s, ApplyEvent(s, i, ev),
                 tr + if Final(s.insts[i], ev).Some? then [Answered(s.insts[i].opId, ev.outcome.code)] else [])
  {
    var x := s.insts[i];
    assert tr + [] == tr;
    match ev
    case Continue => KeptReplaced(s, i, x.(state := Begun(x.state), parked := false), tr);
    case Yield => KeptReplaced(s, i, x.(state := Begun(x.state), parked := Begun(x.state) != Stopping), tr);
    case Spawn(_, _) =>
      if x.state == Stopping { KeptNothingLogged(s, s, tr); } else { KeptSpawn(s, i, ev, tr); }
    case Complete(o) => KeptTerminated(s, i, Succeeded, o, tr);
    case Fail(o) => KeptTerminated(s, i, Failed, o, tr);
    case Cancel(o) =>
      if x.state == Stopping { KeptTerminated(s, i, Cancelled, o, tr); } else { KeptNothingLogged(s, s, tr); }
  }

  lemma KeptSpawn(s: State, i: nat, ev: DriverEvent, tr: seq<Item>)
    requires Inv(s) && i < |s.insts| && !s.insts[i].pending && Honest(tr) && Promised(s.insts, tr)
    requires ev.Spawn? && s.insts[i].state != Stopping
    ensures Kept(s, ApplyEvent(s, i, ev), tr)
  {
    var x := s.insts[i];
    var y := x.(state := Begun(x.state));
    ReplaceKeepsInv(s, i, y, 0);
    PromisedReplaced(s.insts, i, y, tr);
    KeptSpawned(s.(insts := s.insts[i := y]), i, SpawnRequest(x, ev), tr);
  }

  lemma KeptAdvanced(s: State, now: int, drive: DriverAnswers, tr: seq<Item>)
    requires Inv(s) && Honest(tr) && Promised(s.insts, tr)
    ensures Kept(s, Advance(s, now, drive), tr + AnswerIn(s, AdvanceCall(now, drive)))
  {
    var i := FirstDue(s.insts);
    if i == |s.insts| {
      assert tr + [] == tr;
      KeptNothingLogged(s, s, tr);
    } else {
      var x := s.insts[i];
      var y := x.(childTerminal := false);
      ReplaceKeepsInv(s, i, y, 0);
      PromisedReplaced(s.insts, i, y, tr);
      KeptApplied(s.(insts := s.insts[i := y]), i, drive(x.driver, EnvOf(x, now)), tr);
    }
  }

  lemma StepIsKept(s: State, c: Call, tr: seq<Item>)
    requires Inv(s) && Honest(tr) && Promised(s.insts, tr)
    ensures Kept(s, Step(s, c), tr + AnswerIn(s, c))
  {
    if !c.AdvanceCall? { assert tr + [] == tr; }
    match c
    case CreateRootCall(r) =>
      RootVerdict(s, r);
      if CreateRoot(s, r).result == Created {
        KeptGrown(s, CreateRoot(s, r).state, r, 0, r.exclusiveClass, tr);
      } else {
        KeptNothingLogged(s, s, tr);
      }
    case CreateChildCall(r) =>
      ChildVerdict(s, r);
      if CreateChild(s, r).result == Created {
        KeptGrown(s, CreateChild(s, r).state, r, r.parent, Idle, tr);
      } else {
        KeptNothingLogged(s, s, tr);
      }
    case AdvanceCall(now, drive) => KeptAdvanced(s, now, drive, tr);
    case StopCall(id) => KeptHalted(s, Stop(s, id), tr);
    case FaultCascadeCall => KeptHalted(s, FaultCascade(s), tr);
  }

  lemma StepIsTraced(s: State, c: Call, tr: seq<Item>)
    requires Inv(s) && Honest(tr) && Promised(s.insts, tr)
    ensures Inv(Step(s, c)) && s.log <= Step(s, c).log
    ensures Honest(tr + ItemsOf(s, c)) && Promised(Step(s, c).insts, tr + ItemsOf(s, c))
  {
    StepKeepsInv(s, c);
    StepIsKept(s, c, tr);
    Regroup(tr, AnswerIn(s, c), Items(Step(s, c).log[|s.log|..]));
  }

  lemma {:induction false} TraceIsHonest(s: State, calls: seq<Call>, tr: seq<Item>)
    requires Inv(s) && Honest(tr) && Promised(s.insts, tr)
    ensures Honest(tr + Trace(s, calls))
    ensures s.log + Events(Trace(s, calls)) == Run(s, calls).log
    decreases |calls|
  {
    if calls == [] {
      assert tr + [] == tr;
    } else {
      StepIsTraced(s, calls[0], tr);
      TraceIsHonest(Step(s, calls[0]), calls[1..], tr + ItemsOf(s, calls[0]));
      Regroup(tr, ItemsOf(s, calls[0]), Trace(Step(s, calls[0]), calls[1..]));
      EventsJoin(ItemsOf(s, calls[0]), Trace(Step(s, calls[0]), calls[1..]));
      ItemsLogged(s, calls[0]);
      Regroup(s.log, Events(ItemsOf(s, calls[0])), Events(Trace(Step(s, calls[0]), calls[1..])));
    }
  }

  function Events(tr: seq<Item>): seq<Event> {
    if tr == [] then [] else Events(tr[..|tr| - 1]) + if tr[|tr| - 1].Logged? then [tr[|tr| - 1].e] else []
  }

  lemma {:induction false} EventsJoin(a: seq<Item>, b: seq<Item>)
    ensures Events(a + b) == Events(a) + Events(b)
    decreases |b|
  {
    if b == [] {
      assert a + b == a;
    } else {
      assert (a + b)[..|a + b| - 1] == a + b[..|b| - 1];
      EventsJoin(a, b[..|b| - 1]);
    }
  }

  lemma {:induction false} EventsOfItems(es: seq<Event>)
    ensures Events(Items(es)) == es
    decreases |es|
  {
    if es != [] {
      assert Items(es)[..|es| - 1] == Items(es[..|es| - 1]);
      EventsOfItems(es[..|es| - 1]);
    }
  }

  lemma ItemsLogged(s: State, c: Call)
    requires s.log <= Step(s, c).log
    ensures s.log + Events(ItemsOf(s, c)) == Step(s, c).log
  {
    var d := Step(s, c).log[|s.log|..];
    EventsJoin(AnswerIn(s, c), Items(d));
    EventsOfItems(d);
    AnswerLogsNothing(s, c);
  }

  lemma AnswerLogsNothing(s: State, c: Call)
    ensures Events(AnswerIn(s, c)) == []
  {
    assert forall x: Item :: [x][..0] == [];
  }

  /** Over every run from start-up, the events logged are those of the trace, and the code a terminal event reports
      is the one the driver of that very operation answered, in that call or when the end was deferred, and its
      last answer since it started. */
  lemma ReportedIsAnswered(slot: Option<Activity>, calls: seq<Call>)
    requires slot == None || slot == Some(Idle)
    ensures var tr := Trace(Initial(slot), calls);
            && Events(tr) == Run(Initial(slot), calls).log
            && forall t :: 0 <= t < |tr| && tr[t].Logged? && tr[t].e.Ended? ==>
                 HasAnswered(tr[..t], tr[t].e.op, tr[t].e.code)
  {
    TraceIsHonest(Initial(slot), calls, []);
    assert [] + Trace(Initial(slot), calls) == Trace(Initial(slot), calls);
    assert [] + Events(Trace(Initial(slot), calls)) == Events(Trace(Initial(slot), calls));
  }
}
