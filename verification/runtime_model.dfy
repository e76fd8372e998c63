/** What one call of the Operation Runtime does to its state, as functions on values, and the
    invariant every call keeps. A driver is an arbitrary function of its environment, chosen anew
    for each `advance`, so nothing here assumes anything about driver behaviour. */
module RuntimeModel {
  import opened Options
  import opened Forest
  import opened Slot

  const MAX_INSTANCES := 8
  const MAX_TREE_DEPTH := 8
  const MAX_ID: Id := 0xFFFF_FFFF
  const FAILED_GENERIC := 2

  datatype OpState = Accepted | Running | Stopping | Succeeded | Cancelled | Failed

  datatype Outcome = Outcome(code: int, context: int)

  /** A driver function with its context; `NoDriver` is the null function pointer. */
  datatype Driver = NoDriver | Driver(fn: int, ctx: int)

  datatype OperationEnv = OperationEnv(
    now: int, opId: Id, parent: Id, authority: int,
    stopRequested: bool, childTerminal: bool, childOutcome: Outcome)

  datatype DriverEvent =
    | Continue
    | Yield
    | Spawn(spawnType: int, child: Driver)
    | Complete(outcome: Outcome)
    | Fail(outcome: Outcome)
    | Cancel(outcome: Outcome)

  type DriverAnswers = (Driver, OperationEnv) -> DriverEvent

  datatype CreateRequest = CreateRequest(
    typeId: int, authority: int, parent: Id, driver: Driver, exclusiveClass: Activity)

  datatype CreateResult =
    Created | InstancesFull | TreeCycle | DepthExceeded | ParentMissing | EdgeDenied | ExclusiveBusy

  function ResultCode(r: CreateResult): int {
    match r
    case Created => 0
    case InstancesFull => 1
    case TreeCycle => 2
    case DepthExceeded => 3
    case ParentMissing => 4
    case EdgeDenied => 5
    case ExclusiveBusy => 6
  }

  datatype Instance = Instance(
    opId: Id, parent: Id, typeId: int, authority: int, state: OpState, activity: Activity,
    parked: bool, childTerminal: bool, childOutcome: Outcome, driver: Driver,
    pending: bool, pendingState: OpState, pendingOutcome: Outcome)

  /** Events emitted to the runtime event sink, in order. The sink is told the operation and type; the
      owner is recorded beside them so that nesting can be stated over the log alone. */
  datatype Event =
    | Started(op: Id, owner: Id, typeId: int)
    | Ended(op: Id, typeId: int, code: int)

  /** `slot` is None when no slot is attached. */
  datatype State = State(insts: seq<Instance>, lastId: Id, slot: Option<Activity>, log: seq<Event>)

  datatype Creation = Creation(state: State, result: CreateResult, id: Id)

  function Shape(s: seq<Instance>): (f: seq<Node>)
    ensures |f| == |s| && forall i :: 0 <= i < |s| ==> f[i] == Node(s[i].opId, s[i].parent)
  {
    seq(|s|, i requires 0 <= i < |s| => Node(s[i].opId, s[i].parent))
  }

  predicate IsLive(st: OpState) {
    st == Accepted || st == Running || st == Stopping
  }

  // ---------------------------------------------------------------- operation ids

  /** The id counter skips 0 when it wraps. */
  function NextCandidate(last: Id): Id {
    if last == MAX_ID then 1 else last + 1
  }

  /** The first id after `last`, in wrapping order, that no live operation uses. */
  function FirstFree(last: Id, ids: set<Id>): Id
    decreases |ids|
  {
    var c := NextCandidate(last);
    if c in ids then FirstFree(c, ids - {c}) else c
  }

  // ---------------------------------------------------------------- creation

  function NewInstance(id: Id, r: CreateRequest, parent: Id, activity: Activity): Instance {
    Instance(id, parent, r.typeId, r.authority, Accepted, activity, false, false, Outcome(0, 0),
             r.driver, false, Accepted, Outcome(0, 0))
  }

  ghost function Add(s: State, r: CreateRequest, parent: Id, activity: Activity, slot: Option<Activity>): Creation {
    var id := FirstFree(s.lastId, Ids(Shape(s.insts)));
    Creation(State(s.insts + [NewInstance(id, r, parent, activity)], id, slot, s.log + [Started(id, parent, r.typeId)]),
             Created, id)
  }

  ghost function CreateRoot(s: State, r: CreateRequest): Creation {
    if r.parent != 0 || r.driver == NoDriver then Creation(s, EdgeDenied, 0)
    else if |s.insts| >= MAX_INSTANCES then Creation(s, InstancesFull, 0)
    else if r.exclusiveClass != Idle && s.slot.Some? && s.slot.value != Idle then Creation(s, ExclusiveBusy, 0)
    else
      Add(s, r, 0, r.exclusiveClass,
          if r.exclusiveClass != Idle && s.slot.Some? then Some(r.exclusiveClass) else s.slot)
  }

  /** Number of ancestors of the live operation at index `i`. */
  ghost function Depth(s: seq<Instance>, i: nat): nat
    requires i < |s|
  {
    |Ancestors(Shape(s), i)|
  }

  ghost function CreateChild(s: State, r: CreateRequest): Creation {
    if r.parent == 0 || r.driver == NoDriver then Creation(s, EdgeDenied, 0)
    else
      var p := Find(Shape(s.insts), r.parent);
      if p < 0 || !IsLive(s.insts[p].state) then Creation(s, ParentMissing, 0)
      else if |s.insts| >= MAX_INSTANCES then Creation(s, InstancesFull, 0)
      else if Depth(s.insts, p) + 1 > MAX_TREE_DEPTH then Creation(s, DepthExceeded, 0)
      else Add(s, r, r.parent, Idle, s.slot)
  }

  // ---------------------------------------------------------------- termination

  function Released(slot: Option<Activity>, a: Activity): Option<Activity> {
    if a != Idle && slot == Some(a) then Some(Idle) else slot
  }

  /** The state once operation `i` has left the array, its slot is free and its end is reported. */
  function Removed(s: State, i: nat, o: Outcome): State
    requires i < |s.insts|
  {
    var x := s.insts[i];
    State(RemoveAt(s.insts, i), s.lastId, Released(s.slot, x.activity), s.log + [Ended(x.opId, x.typeId, o.code)])
  }

  /** Delivers a child outcome; a live driver is woken, a deferred terminal stays parked. */
  function Delivered(x: Instance, o: Outcome): Instance {
    x.(childTerminal := true, childOutcome := o, parked := if x.pending then x.parked else false)
  }

  ghost function Finalize(s: State, i: nat, o: Outcome): State
    requires i < |s.insts|
    decreases |s.insts|, 0
  {
    NotifyParent(Removed(s, i, o), s.insts[i].parent, o)
  }

  ghost function NotifyParent(s: State, parent: Id, o: Outcome): State
    decreases |s.insts|, 1
  {
    var p := Find(Shape(s.insts), parent);
    if parent == 0 || p < 0 then s
    else
      var x := Delivered(s.insts[p], o);
      if x.pending && !HasDescendant(Shape(s.insts), parent) then
        Finalize(s.(insts := s.insts[p := x.(pending := false)]), p, x.pendingOutcome)
      else s.(insts := s.insts[p := x])
  }

  ghost function Terminate(s: State, i: nat, final: OpState, o: Outcome): State
    requires i < |s.insts|
  {
    var x := s.insts[i];
    if HasDescendant(Shape(s.insts), x.opId) then
      s.(insts := s.insts[i := x.(state := Stopping, parked := true, pending := true,
                                  pendingState := final, pendingOutcome := o)])
    else Finalize(s, i, o)
  }

  // ---------------------------------------------------------------- advance

  predicate IsDue(x: Instance) {
    IsLive(x.state) && x.driver != NoDriver && !x.pending && (x.parked ==> x.childTerminal)
  }

  function FirstDue(s: seq<Instance>): (r: nat)
    ensures r <= |s|
    ensures forall j :: 0 <= j < r ==> !IsDue(s[j])
    ensures r < |s| ==> IsDue(s[r])
  {
    if s == [] then 0 else if IsDue(s[0]) then 0 else 1 + FirstDue(s[1..])
  }

  function EnvOf(x: Instance, now: int): OperationEnv {
    OperationEnv(now, x.opId, x.parent, x.authority, x.state == Stopping, x.childTerminal, x.childOutcome)
  }

  function Begun(st: OpState): OpState {
    if st == Accepted then Running else st
  }

  ghost function ApplyEvent(s: State, i: nat, ev: DriverEvent): State
    requires i < |s.insts|
  {
    var x := s.insts[i];
    match ev
    case Continue => s.(insts := s.insts[i := x.(state := Begun(x.state), parked := false)])
    case Yield =>
      var st := Begun(x.state);
      s.(insts := s.insts[i := x.(state := st, parked := st != Stopping)])
    case Spawn(t, child) =>
      if x.state == Stopping then s
      else
        var s1 := s.(insts := s.insts[i := x.(state := Begun(x.state))]);
        var d := if child != NoDriver then child else x.driver;
        Spawned(s1, i, CreateRequest(t, x.authority, x.opId, d, Idle))
    case Complete(o) => Terminate(s, i, Succeeded, o)
    case Fail(o) => Terminate(s, i, Failed, o)
    case Cancel(o) => if x.state == Stopping then Terminate(s, i, Cancelled, o) else s
  }

  /** A refused spawn shows up as a failed child. */
  ghost function Spawned(s: State, i: nat, r: CreateRequest): State
    requires i < |s.insts|
  {
    var c := CreateChild(s, r);
    if c.result == Created then c.state else SpawnRefused(s, i, c.result)
  }

  function SpawnRefused(s: State, i: nat, r: CreateResult): State
    requires i < |s.insts|
  {
    s.(insts := s.insts[i := s.insts[i].(childTerminal := true,
                                         childOutcome := Outcome(FAILED_GENERIC, ResultCode(r)))])
  }

  ghost function Advance(s: State, now: int, drive: DriverAnswers): State {
    var i := FirstDue(s.insts);
    if i == |s.insts| then s
    else
      var x := s.insts[i];
      ApplyEvent(s.(insts := s.insts[i := x.(childTerminal := false)]), i, drive(x.driver, EnvOf(x, now)))
  }

  // ---------------------------------------------------------------- stop and fault

  function Halted(x: Instance): Instance {
    if x.state == Accepted || x.state == Running then x.(state := Stopping, parked := false) else x
  }

  /** The operation and everything it owns, directly or not, is asked to stop. */
  ghost function Stopped(s: seq<Instance>, id: Id): (r: seq<Instance>)
    ensures |r| == |s|
    ensures forall i :: 0 <= i < |s| ==>
              r[i] == if s[i].opId == id || Descends(Shape(s), i, id) then Halted(s[i]) else s[i]
  {
    seq(|s|, i requires 0 <= i < |s| =>
      if s[i].opId == id || Descends(Shape(s), i, id) then Halted(s[i]) else s[i])
  }

  ghost function Stop(s: State, id: Id): State {
    var i := Find(Shape(s.insts), id);
    if i >= 0 && (s.insts[i].state == Accepted || s.insts[i].state == Running)
    then s.(insts := Stopped(s.insts, id)) else s
  }

  function HaltAll(s: seq<Instance>): (r: seq<Instance>)
    ensures |r| == |s| && forall i :: 0 <= i < |s| ==> r[i] == Halted(s[i])
  {
    seq(|s|, i requires 0 <= i < |s| => Halted(s[i]))
  }

  function FaultCascade(s: State): State {
    s.(insts := HaltAll(s.insts))
  }

  // ---------------------------------------------------------------- the invariant

  predicate IsTerminal(st: OpState) {
    st == Succeeded || st == Cancelled || st == Failed
  }

  /** What holds of one live instance: its terminal is deferred exactly when it is Stopping and parked. */
  predicate Sound(x: Instance) {
    && IsLive(x.state)
    && x.driver != NoDriver
    && (x.pending <==> x.state == Stopping && x.parked)
    && (x.pending ==> IsTerminal(x.pendingState))
    && (x.parent != 0 ==> x.activity == Idle)
  }

  ghost predicate AllSound(s: seq<Instance>) {
    forall i :: 0 <= i < |s| ==> Sound(s[i])
  }

  /** Every deferred terminal other than that of `except` is waiting for something it owns. */
  ghost predicate DeferredWait(s: seq<Instance>, except: Id) {
    forall i :: 0 <= i < |s| && s[i].pending && s[i].opId != except ==> HasChild(Shape(s), s[i].opId)
  }

  /** The slot shows exactly the activity of the one live instance that claimed it. */
  ghost predicate SlotMatches(s: seq<Instance>, slot: Option<Activity>) {
    slot.Some? ==>
      && (forall i :: 0 <= i < |s| && s[i].activity != Idle ==> slot.value == s[i].activity)
      && (slot.value != Idle ==> exists i :: 0 <= i < |s| && s[i].activity == slot.value)
      && (forall i, j :: 0 <= i < j < |s| ==> s[i].activity == Idle || s[j].activity == Idle)
  }

  /** Live operations and their owners after replaying an event log. */
  function LiveAfter(log: seq<Event>): map<Id, Id> {
    if log == [] then map[]
    else
      var m := LiveAfter(log[..|log| - 1]);
      match log[|log| - 1]
      case Started(op, owner, _) => m[op := owner]
      case Ended(op, _, _) => m - {op}
  }

  /** An operation starts under a live owner and ends while it is live and owns nothing live. */
  ghost predicate WellNested(log: seq<Event>) {
    log == [] ||
    (var m := LiveAfter(log[..|log| - 1]);
     && WellNested(log[..|log| - 1])
     && match log[|log| - 1]
        case Started(op, owner, _) => op != 0 && op !in m && (owner == 0 || owner in m)
        case Ended(op, _, _) => op in m && forall c :: c in m ==> m[c] != op)
  }

  ghost predicate LogMatches(f: seq<Node>, log: seq<Event>) {
    && WellNested(log)
    && LiveAfter(log).Keys == Ids(f)
    && forall i :: 0 <= i < |f| ==> LiveAfter(log)[f[i].id] == f[i].parent
  }

  ghost predicate InvBut(s: State, except: Id) {
    && |s.insts| <= MAX_INSTANCES
    && IsForest(Shape(s.insts))
    && AllSound(s.insts)
    && DeferredWait(s.insts, except)
    && SlotMatches(s.insts, s.slot)
    && LogMatches(Shape(s.insts), s.log)
  }

  ghost predicate Inv(s: State) {
    InvBut(s, 0)
  }

  /** The state in which operation `i` is about to leave: it may itself be in an odd state. */
  ghost predicate Leaving(s: State, i: nat)
    requires i < |s.insts|
  {
    && |s.insts| <= MAX_INSTANCES
    && IsForest(Shape(s.insts))
    && (forall j :: 0 <= j < |s.insts| && j != i ==> Sound(s.insts[j]))
    && DeferredWait(s.insts, s.insts[i].opId)
    && SlotMatches(s.insts, s.slot)
    && LogMatches(Shape(s.insts), s.log)
    && !HasChild(Shape(s.insts), s.insts[i].opId)
  }

  // ---------------------------------------------------------------- preservation

  lemma {:induction false} FirstFreeAt(last: Id, ids: set<Id>) returns (k: nat)
    requires |ids| < MAX_ID
    ensures 1 <= k <= |ids| + 1 && FirstFree(last, ids) == Nth(last, k)
    ensures forall j :: 1 <= j < k ==> Nth(last, j) in ids
    ensures FirstFree(last, ids) !in ids
    decreases |ids|
  {
    var c := NextCandidate(last);
    if c !in ids {
      k := 1;
    } else {
      var q := FirstFreeAt(c, ids - {c});
      k := q + 1;
      forall j | 1 <= j < k ensures Nth(last, j) in ids {
        if j > 1 { NthNext(last, j - 1); }
      }
      NthNext(last, q);
      NthDistinct(last, 1, k);
    }
  }

  /** The `k`-th id tried after `last`. */
  function Nth(last: Id, k: nat): Id
    requires 1 <= k <= MAX_ID
  {
    if last + k <= MAX_ID then last + k else last + k - MAX_ID
  }

  lemma NthNext(last: Id, k: nat)
    requires 1 <= k < MAX_ID
    ensures Nth(last, k + 1) == Nth(NextCandidate(last), k) == NextCandidate(Nth(last, k))
  {
  }

  lemma NthDistinct(last: Id, j: nat, k: nat)
    requires 1 <= j < k <= MAX_ID
    ensures Nth(last, j) != Nth(last, k)
  {
  }

  lemma SlotUnmoved(s: seq<Instance>, t: seq<Instance>, slot: Option<Activity>)
    requires SlotMatches(s, slot) && |t| == |s|
    requires forall i :: 0 <= i < |t| ==> t[i].activity == s[i].activity
    ensures SlotMatches(t, slot)
  {
    if slot.Some? && slot.value != Idle {
      var j :| 0 <= j < |s| && s[j].activity == slot.value;
      assert t[j].activity == slot.value;
    }
  }

  lemma WaitUnmoved(s: seq<Instance>, t: seq<Instance>, i: nat, except: Id)
    requires DeferredWait(s, except) && i < |s| == |t| && Shape(s) == Shape(t)
    requires forall j :: 0 <= j < |s| && j != i ==> t[j] == s[j]
    requires t[i].pending && t[i].opId != except ==> HasChild(Shape(s), t[i].opId)
    ensures DeferredWait(t, except)
  {
  }

  /** `tried` holds the first `k` ids after `start`; all of them are taken. */
  ghost predicate Searching(start: Id, ids: set<Id>, k: nat, tried: set<Id>, last: Id) {
    && |tried| == k < MAX_ID && tried <= ids
    && last == (if k == 0 then start else Nth(start, k))
    && (forall t :: t in tried ==> exists j :: 1 <= j <= k && t == Nth(start, j))
    && FirstFree(last, ids - tried) == FirstFree(start, ids)
  }

  lemma SearchStart(start: Id, ids: set<Id>)
    ensures Searching(start, ids, 0, {}, start)
  {
    assert ids - {} == ids;
  }

  /** The next id is new; it is the answer, or one more taken id. */
  lemma SearchNext(start: Id, ids: set<Id>, k: nat, tried: set<Id>, last: Id)
    requires Searching(start, ids, k, tried, last) && |ids| < MAX_ID
    ensures k <= |ids|
    ensures var c := NextCandidate(last);
            && c == Nth(start, k + 1)
            && (c !in ids ==> c == FirstFree(start, ids))
            && (c in ids ==> Searching(start, ids, k + 1, tried + {c}, c) && k < |ids|)
  {
    CardSubset(tried, ids);
    var c := NextCandidate(last);
    if k > 0 { NthNext(start, k); }
    forall t | t in tried ensures t != c {
      var j :| 1 <= j <= k && t == Nth(start, j);
      NthDistinct(start, j, k + 1);
    }
    if c in ids {
      var more := tried + {c};
      assert ids - more == ids - tried - {c};
      CardSubset(more, ids);
      assert Nth(start, k + 1) == c;
    }
  }

  /** Changing one instance without touching id, owner or activity keeps everything but its own soundness. */
  lemma ReplaceKeepsInv(s: State, i: nat, x: Instance, except: Id)
    requires InvBut(s, except) && i < |s.insts|
    requires x.opId == s.insts[i].opId && x.parent == s.insts[i].parent && x.activity == s.insts[i].activity
    requires Sound(x)
    requires x.pending && x.opId != except ==> HasChild(Shape(s.insts), x.opId)
    ensures Shape(s.insts[i := x]) == Shape(s.insts)
    ensures InvBut(s.(insts := s.insts[i := x]), except)
  {
    var t := s.insts[i := x];
    assert Shape(t) == Shape(s.insts);
    SlotUnmoved(s.insts, t, s.slot);
    WaitUnmoved(s.insts, t, i, except);
  }

  lemma ReplaceKeepsLeaving(s: State, i: nat, x: Instance)
    requires i < |s.insts| && InvBut(s, s.insts[i].opId) && !HasChild(Shape(s.insts), s.insts[i].opId)
    requires x.opId == s.insts[i].opId && x.parent == s.insts[i].parent && x.activity == s.insts[i].activity
    ensures Shape(s.insts[i := x]) == Shape(s.insts)
    ensures Leaving(s.(insts := s.insts[i := x]), i)
  {
    var t := s.insts[i := x];
    assert Shape(t) == Shape(s.insts);
    SlotUnmoved(s.insts, t, s.slot);
    WaitUnmoved(s.insts, t, i, x.opId);
  }

  lemma AddKeepsInv(s: State, r: CreateRequest, parent: Id, activity: Activity, slot: Option<Activity>)
    requires Inv(s) && |s.insts| < MAX_INSTANCES && r.driver != NoDriver
    requires parent == 0 || Find(Shape(s.insts), parent) >= 0
    requires parent != 0 ==> activity == Idle
    requires if activity != Idle && s.slot.Some? then s.slot == Some(Idle) && slot == Some(activity) else slot == s.slot
    ensures Inv(Add(s, r, parent, activity, slot).state)
    ensures Add(s, r, parent, activity, slot).id !in Ids(Shape(s.insts)) + {0}
  {
    var f := Shape(s.insts);
    IdsBound(f);
    var k := FirstFreeAt(s.lastId, Ids(f));
    var id := FirstFree(s.lastId, Ids(f));
    AppendKeepsInv(s, NewInstance(id, r, parent, activity), id, slot);
  }

  lemma AppendKeepsInv(s: State, x: Instance, lastId: Id, slot: Option<Activity>)
    requires Inv(s) && |s.insts| < MAX_INSTANCES && Sound(x) && !x.pending
    requires x.opId != 0 && Find(Shape(s.insts), x.opId) < 0
    requires x.parent == 0 || Find(Shape(s.insts), x.parent) >= 0
    requires if x.activity != Idle && s.slot.Some? then s.slot == Some(Idle) && slot == Some(x.activity)
             else slot == s.slot
    ensures Inv(State(s.insts + [x], lastId, slot, s.log + [Started(x.opId, x.parent, x.typeId)]))
  {
    var f := Shape(s.insts);
    var n := Node(x.opId, x.parent);
    AppendKeepsForest(f, n);
    assert Shape(s.insts + [x]) == f + [n];
    AddedLog(f, n, s.log, x.typeId);
    AddedSlot(s, x, slot);
    AddedWait(s.insts, x);
    assert AllSound(s.insts + [x]);
  }

  lemma AddedWait(s: seq<Instance>, x: Instance)
    requires DeferredWait(s, 0) && !x.pending
    ensures DeferredWait(s + [x], 0)
  {
    var t := s + [x];
    forall i | 0 <= i < |t| && t[i].pending && t[i].opId != 0 ensures HasChild(Shape(t), t[i].opId) {
      assert HasChild(Shape(s), s[i].opId);
      var c :| 0 <= c < |s| && Shape(s)[c].parent == s[i].opId;
      assert Shape(t)[c].parent == t[i].opId;
    }
  }

  lemma AddedLog(f: seq<Node>, n: Node, log: seq<Event>, typeId: int)
    requires LogMatches(f, log) && n.id != 0 && Find(f, n.id) < 0
    requires n.parent == 0 || Find(f, n.parent) >= 0
    ensures LogMatches(f + [n], log + [Started(n.id, n.parent, typeId)])
  {
    IdsBound(f);
    IdsAppend(f, n);
    assert (log + [Started(n.id, n.parent, typeId)])[..|log|] == log;
  }

  lemma AddedSlot(s: State, x: Instance, slot: Option<Activity>)
    requires SlotMatches(s.insts, s.slot)
    requires if x.activity != Idle && s.slot.Some? then s.slot == Some(Idle) && slot == Some(x.activity)
             else slot == s.slot
    ensures SlotMatches(s.insts + [x], slot)
  {
    var t := s.insts + [x];
    if slot.Some? && slot.value != Idle {
      if x.activity == Idle {
        var j :| 0 <= j < |s.insts| && s.insts[j].activity == slot.value;
        assert t[j].activity == slot.value;
      } else {
        assert t[|s.insts|].activity == slot.value;
      }
    }
  }

  /** Taking an operation that owns nothing out of the array keeps everything, except that its owner's
      deferred terminal may now have nothing left to wait for. */
  lemma RemovedKeepsInv(s: State, i: nat, o: Outcome)
    requires i < |s.insts| && Leaving(s, i)
    ensures InvBut(Removed(s, i, o), s.insts[i].parent)
  {
    var f := Shape(s.insts);
    var x := s.insts[i];
    var t := Removed(s, i, o);
    var g := RemoveAt(f, i);
    RemoveLeafKeepsForest(f, i);
    assert Shape(t.insts) == g;
    RemovedWait(s.insts, i);
    assert forall j :: 0 <= j < |t.insts| ==> t.insts[j] == s.insts[Shift(i, j)];
    assert AllSound(t.insts);
    RemovedLog(f, i, s.log, Ended(x.opId, x.typeId, o.code));
    RemovedSlot(s.insts, s.slot, i);
  }

  lemma RemovedWait(s: seq<Instance>, i: nat)
    requires i < |s| && DeferredWait(s, s[i].opId) && IsForest(Shape(s))
    ensures DeferredWait(RemoveAt(s, i), s[i].parent)
  {
    var t := RemoveAt(s, i);
    forall j | 0 <= j < |t| && t[j].pending && t[j].opId != s[i].parent
      ensures HasChild(Shape(t), t[j].opId)
    {
      var q := Shift(i, j);
      assert s[q] == t[j];
      assert Shape(s)[q].id != Shape(s)[i].id;
      assert HasChild(Shape(s), s[q].opId);
      var c :| 0 <= c < |s| && Shape(s)[c].parent == t[j].opId;
      assert Shape(t)[if c < i then c else c - 1].parent == t[j].opId;
    }
  }

  lemma RemovedLog(f: seq<Node>, i: nat, log: seq<Event>, e: Event)
    requires i < |f| && IsForest(f) && !HasChild(f, f[i].id) && LogMatches(f, log)
    requires e.Ended? && e.op == f[i].id
    ensures LogMatches(RemoveAt(f, i), log + [e])
  {
    var g := RemoveAt(f, i);
    var m := LiveAfter(log);
    assert (log + [e])[..|log|] == log;
    forall c | c in m ensures m[c] != e.op {
      var j :| 0 <= j < |f| && f[j].id == c;
      assert f[j].parent != f[i].id;
    }
    IdsRemove(f, i);
    forall j | 0 <= j < |g| ensures (m - {e.op})[g[j].id] == g[j].parent {
      assert g[j] == f[Shift(i, j)];
      assert g[j].id in Ids(g);
    }
  }

  lemma RemovedSlot(s: seq<Instance>, slot: Option<Activity>, i: nat)
    requires i < |s| && SlotMatches(s, slot)
    ensures SlotMatches(RemoveAt(s, i), Released(slot, s[i].activity))
  {
    var t := RemoveAt(s, i);
    assert forall j :: 0 <= j < |t| ==> t[j] == s[Shift(i, j)];
    if slot.Some? && slot.value != Idle {
      var j :| 0 <= j < |s| && s[j].activity == slot.value;
      forall k | 0 <= k < |s| && k != j ensures s[k].activity == Idle {
        assert k < j || j < k;
      }
      if i != j {
        assert t[if j < i then j else j - 1].activity == slot.value;
      }
    }
  }

  /** Resolving a chain of deferred terminals restores the full invariant. */
  lemma {:induction false} FinalizeKeepsInv(s: State, i: nat, o: Outcome)
    requires i < |s.insts| && Leaving(s, i)
    ensures Inv(Finalize(s, i, o))
    decreases |s.insts|, 0
  {
    RemovedKeepsInv(s, i, o);
    NotifyKeepsInv(Removed(s, i, o), s.insts[i].parent, o);
  }

  /** After a child outcome is delivered to operation `p`, only `p` may be waiting for nothing. */
  lemma DeliveredState(s: State, p: nat, o: Outcome)
    requires p < |s.insts| && InvBut(s, s.insts[p].opId)
    ensures var t := s.(insts := s.insts[p := Delivered(s.insts[p], o)]);
            InvBut(t, s.insts[p].opId) && Shape(t.insts) == Shape(s.insts)
  {
    ReplaceKeepsInv(s, p, Delivered(s.insts[p], o), s.insts[p].opId);
  }

  /** A deferred owner left with nothing to wait for is ready to leave. */
  lemma ResolvedState(s: State, p: nat)
    requires p < |s.insts| && InvBut(s, s.insts[p].opId)
    requires !HasDescendant(Shape(s.insts), s.insts[p].opId)
    ensures var t := s.insts[p := s.insts[p].(pending := false)];
            Leaving(s.(insts := t), p) && Shape(t) == Shape(s.insts)
  {
    assert Shape(s.insts)[p].id == s.insts[p].opId;
    ChildIffDescendant(Shape(s.insts), s.insts[p].opId);
    ReplaceKeepsLeaving(s, p, s.insts[p].(pending := false));
  }

  lemma {:induction false} NotifyKeepsInv(s: State, parent: Id, o: Outcome)
    requires InvBut(s, parent)
    ensures Inv(NotifyParent(s, parent, o))
    decreases |s.insts|, 1
  {
    var f := Shape(s.insts);
    var p := Find(f, parent);
    if parent != 0 && p >= 0 {
      var x := Delivered(s.insts[p], o);
      DeliveredState(s, p, o);
      var t := s.(insts := s.insts[p := x]);
      if x.pending && !HasDescendant(f, parent) {
        ResolvedState(t, p);
        assert t.insts[p := x.(pending := false)] == s.insts[p := x.(pending := false)];
        FinalizeKeepsInv(s.(insts := s.insts[p := x.(pending := false)]), p, x.pendingOutcome);
      } else {
        ChildIffDescendant(f, parent);
      }
    }
  }
}
