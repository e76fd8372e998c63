/** What holds of the Operation Runtime over every run: any sequence of calls, any drivers. */
module RuntimeRuns {
  import opened Options
  import opened Forest
  import opened Slot
  import opened RuntimeModel

  datatype Call =
    | CreateRootCall(r: CreateRequest)
    | CreateChildCall(r: CreateRequest)
    | AdvanceCall(now: int, drive: DriverAnswers)
    | StopCall(id: Id)
    | FaultCascadeCall

  ghost function Step(s: State, c: Call): State {
    match c
    case CreateRootCall(r) => CreateRoot(s, r).state
    case CreateChildCall(r) => CreateChild(s, r).state
    case AdvanceCall(now, drive) => Advance(s, now, drive)
    case StopCall(id) => Stop(s, id)
    case FaultCascadeCall => FaultCascade(s)
  }

  ghost function Run(s: State, calls: seq<Call>): State
    decreases |calls|
  {
    if calls == [] then s else Run(Step(s, calls[0]), calls[1..])
  }

  function Initial(slot: Option<Activity>): State {
    State([], 0, slot, [])
  }

  // ---------------------------------------------------------------- every call keeps the invariant

  lemma CreateRootKeepsInv(s: State, r: CreateRequest)
    requires Inv(s)
    ensures Inv(CreateRoot(s, r).state)
    ensures CreateRoot(s, r).result != Created ==> CreateRoot(s, r).state == s
  {
    if CreateRoot(s, r).result == Created {
      AddKeepsInv(s, r, 0, r.exclusiveClass,
                  if r.exclusiveClass != Idle && s.slot.Some? then Some(r.exclusiveClass) else s.slot);
    }
  }

  /** A child is never refused for depth: eight live operations cannot form a deeper chain. */
  lemma CreateChildKeepsInv(s: State, r: CreateRequest)
    requires Inv(s)
    ensures Inv(CreateChild(s, r).state)
    ensures CreateChild(s, r).result != DepthExceeded && CreateChild(s, r).result != TreeCycle
    ensures CreateChild(s, r).result != Created ==> CreateChild(s, r).state == s
  {
    var p := Find(Shape(s.insts), r.parent);
    if p >= 0 {
      AncestorsExact(Shape(s.insts), p);
    }
    if CreateChild(s, r).result == Created {
      AddKeepsInv(s, r, r.parent, Idle, s.slot);
    }
  }

  lemma TerminateKeepsInv(s: State, i: nat, final: OpState, o: Outcome)
    requires Inv(s) && i < |s.insts| && IsTerminal(final)
    ensures Inv(Terminate(s, i, final, o))
  {
    var x := s.insts[i];
    assert Shape(s.insts)[i].id == x.opId;
    ChildIffDescendant(Shape(s.insts), x.opId);
    if HasDescendant(Shape(s.insts), x.opId) {
      ReplaceKeepsInv(s, i, x.(state := Stopping, parked := true, pending := true,
                               pendingState := final, pendingOutcome := o), 0);
    } else {
      FinalizeKeepsInv(s, i, o);
    }
  }

  lemma ApplyKeepsInv(s: State, i: nat, ev: DriverEvent)
    requires Inv(s) && i < |s.insts| && !s.insts[i].pending
    ensures Inv(ApplyEvent(s, i, ev))
  {
    var x := s.insts[i];
    match ev
    case Continue => ReplaceKeepsInv(s, i, x.(state := Begun(x.state), parked := false), 0);
    case Yield =>
      var st := Begun(x.state);
      ReplaceKeepsInv(s, i, x.(state := st, parked := st != Stopping), 0);
    case Spawn(t, child) =>
      if x.state != Stopping {
        var s1 := s.(insts := s.insts[i := x.(state := Begun(x.state))]);
        ReplaceKeepsInv(s, i, x.(state := Begun(x.state)), 0);
        var r := CreateRequest(t, x.authority, x.opId, if child != NoDriver then child else x.driver, Idle);
        CreateChildKeepsInv(s1, r);
        var c := CreateChild(s1, r);
        if c.result != Created {
          ReplaceKeepsInv(s1, i, s1.insts[i].(childTerminal := true,
                                              childOutcome := Outcome(FAILED_GENERIC, ResultCode(c.result))), 0);
        }
      }
    case Complete(o) => TerminateKeepsInv(s, i, Succeeded, o);
    case Fail(o) => TerminateKeepsInv(s, i, Failed, o);
    case Cancel(o) =>
      if x.state == Stopping { TerminateKeepsInv(s, i, Cancelled, o); }
  }

  lemma AdvanceKeepsInv(s: State, now: int, drive: DriverAnswers)
    requires Inv(s)
    ensures Inv(Advance(s, now, drive))
  {
    var i := FirstDue(s.insts);
    if i < |s.insts| {
      var x := s.insts[i];
      ReplaceKeepsInv(s, i, x.(childTerminal := false), 0);
      ApplyKeepsInv(s.(insts := s.insts[i := x.(childTerminal := false)]), i, drive(x.driver, EnvOf(x, now)));
    }
  }

  /** Asking any set of live operations to stop keeps the invariant. */
  lemma HaltKeepsInv(s: State, t: seq<Instance>)
    requires Inv(s) && |t| == |s.insts|
    requires forall i :: 0 <= i < |t| ==> t[i] == s.insts[i] || t[i] == Halted(s.insts[i])
    ensures Inv(s.(insts := t))
    ensures Shape(t) == Shape(s.insts)
  {
    assert Shape(t) == Shape(s.insts);
    assert forall i :: 0 <= i < |t| ==> t[i].activity == s.insts[i].activity;
    SlotUnmoved(s.insts, t, s.slot);
    assert AllSound(t);
    forall i | 0 <= i < |t| && t[i].pending && t[i].opId != 0 ensures HasChild(Shape(t), t[i].opId) {
      assert s.insts[i].pending;
    }
  }

  lemma StopKeepsInv(s: State, id: Id)
    requires Inv(s)
    ensures Inv(Stop(s, id))
  {
    HaltKeepsInv(s, Stop(s, id).insts);
  }

  lemma CascadeKeepsInv(s: State)
    requires Inv(s)
    ensures Inv(FaultCascade(s))
  {
    HaltKeepsInv(s, FaultCascade(s).insts);
  }

  lemma StepKeepsInv(s: State, c: Call)
    requires Inv(s)
    ensures Inv(Step(s, c))
  {
    match c
    case CreateRootCall(r) => CreateRootKeepsInv(s, r);
    case CreateChildCall(r) => CreateChildKeepsInv(s, r);
    case AdvanceCall(now, drive) => AdvanceKeepsInv(s, now, drive);
    case StopCall(id) => StopKeepsInv(s, id);
    case FaultCascadeCall => CascadeKeepsInv(s);
  }

  /** From start-up with a free slot (or none), every run of calls keeps the whole invariant. */
  lemma {:induction false} RunKeepsInv(s: State, calls: seq<Call>)
    requires Inv(s)
    ensures Inv(Run(s, calls))
    decreases |calls|
  {
    if calls != [] {
      StepKeepsInv(s, calls[0]);
      RunKeepsInv(Step(s, calls[0]), calls[1..]);
    }
  }

  // ---------------------------------------------------------------- conservation and nesting

  function Starts(log: seq<Event>): nat {
    if log == [] then 0 else Starts(log[..|log| - 1]) + if log[|log| - 1].Started? then 1 else 0
  }

  function Ends(log: seq<Event>): nat {
    if log == [] then 0 else Ends(log[..|log| - 1]) + if log[|log| - 1].Ended? then 1 else 0
  }

  lemma {:induction false} LogBalance(log: seq<Event>)
    requires WellNested(log)
    ensures Starts(log) == Ends(log) + |LiveAfter(log)|
    decreases |log|
  {
    if log != [] {
      LogBalance(log[..|log| - 1]);
      var m := LiveAfter(log[..|log| - 1]);
      match log[|log| - 1]
      case Started(op, owner, _) => assert m[op := owner].Keys == m.Keys + {op};
      case Ended(op, _, _) => assert (m - {op}).Keys == m.Keys - {op};
    }
  }

  lemma {:induction false} DistinctIdsCount(f: seq<Node>)
    requires forall i, j :: 0 <= i < j < |f| ==> f[i].id != f[j].id
    ensures |Ids(f)| == |f|
    decreases |f|
  {
    if f != [] {
      var g := f[..|f| - 1];
      DistinctIdsCount(g);
      IdsAppend(g, f[|f| - 1]);
      assert f == g + [f[|f| - 1]];
      assert f[|f| - 1].id !in Ids(g);
    }
  }

  /** Over every run, started events minus terminal events is the number of live operations. */
  lemma Conservation(slot: Option<Activity>, calls: seq<Call>)
    requires slot == None || slot == Some(Idle)
    ensures var t := Run(Initial(slot), calls); Starts(t.log) - Ends(t.log) == |t.insts|
  {
    RunKeepsInv(Initial(slot), calls);
    var t := Run(Initial(slot), calls);
    LogBalance(t.log);
    DistinctIdsCount(Shape(t.insts));
    assert |LiveAfter(t.log)| == |LiveAfter(t.log).Keys|;
  }

  lemma {:induction false} WellNestedPrefix(log: seq<Event>, n: nat)
    requires WellNested(log) && n <= |log|
    ensures WellNested(log[..n])
    decreases |log|
  {
    if n == |log| {
      assert log[..n] == log;
    } else {
      WellNestedPrefix(log[..|log| - 1], n);
      assert log[..|log| - 1][..n] == log[..n];
    }
  }

  ghost predicate EndsWithin(log: seq<Event>, op: Id, lo: int, hi: int)
    requires 0 <= lo && hi <= |log|
  {
    exists u :: lo <= u < hi && log[u].Ended? && log[u].op == op
  }

  /** A started operation stays live under the same owner until its terminal event. */
  lemma {:induction false} LiveUntilEnded(log: seq<Event>, c: nat, t: nat)
    requires WellNested(log) && c < t <= |log| && log[c].Started?
    requires !EndsWithin(log, log[c].op, c + 1, t)
    ensures log[c].op in LiveAfter(log[..t]) && LiveAfter(log[..t])[log[c].op] == log[c].owner
    decreases t
  {
    assert log[..t][..t - 1] == log[..t - 1];
    WellNestedPrefix(log, t);
    if t > c + 1 {
      LiveUntilEnded(log, c, t - 1);
    }
  }

  /** An owner's terminal event comes after the terminal event of everything it started. */
  lemma OwnerEndsLast(log: seq<Event>, c: nat, t: nat)
    requires WellNested(log) && c < t < |log|
    requires log[c].Started? && log[t].Ended? && log[c].owner == log[t].op
    ensures EndsWithin(log, log[c].op, c + 1, t)
  {
    WellNestedPrefix(log, t + 1);
    assert log[..t + 1][..t] == log[..t];
    if !EndsWithin(log, log[c].op, c + 1, t) {
      LiveUntilEnded(log, c, t);
    }
  }

  /** The start at `c` belongs to the life of an operation owned, through any number of owners, by `p`:
      each owner on the way is the one most recently started under its id. */
  ghost predicate StartedUnder(log: seq<Event>, c: nat, p: Id)
    requires c < |log| && log[c].Started?
    decreases c
  {
    log[c].owner == p ||
    exists b :: 0 <= b < c && IsLatestStart(log, b, c) && StartedUnder(log, b, p)
  }

  /** The start at `b` began the current life of the owner named by the start at `c`. */
  ghost predicate IsLatestStart(log: seq<Event>, b: nat, c: nat)
    requires b < c < |log| && log[c].Started?
  {
    log[b].Started? && log[b].op == log[c].owner &&
    forall k :: b < k < c && log[k].Started? ==> log[k].op != log[c].owner
  }

  /** A terminal event of `p` comes after the terminal event of every operation started beneath it. */
  lemma {:induction false} DescendantsEndFirst(log: seq<Event>, c: nat, t: nat, p: Id)
    requires WellNested(log) && c < t < |log|
    requires log[c].Started? && StartedUnder(log, c, p) && p != 0
    requires log[t].Ended? && log[t].op == p
    ensures EndsWithin(log, log[c].op, c + 1, t)
    decreases c
  {
    if log[c].owner == p {
      OwnerEndsLast(log, c, t);
    } else {
      var b :| 0 <= b < c && IsLatestStart(log, b, c) && StartedUnder(log, b, p);
      DescendantsEndFirst(log, b, t, p);
      var u :| b + 1 <= u < t && log[u].Ended? && log[u].op == log[b].op;
      if u < c {
        NotRestarted(log, u, c);
        assert false;
      }
      OwnerEndsLast(log, c, u);
    }
  }

  /** An ended operation is not live again before a new start of the same id. */
  lemma {:induction false} NotRestarted(log: seq<Event>, u: nat, c: nat)
    requires WellNested(log) && u < c < |log| && log[u].Ended? && log[c].Started?
    requires forall k :: u < k < c && log[k].Started? ==> log[k].op != log[u].op
    ensures log[c].owner != log[u].op
  {
    AbsentAfter(log, u, c);
    WellNestedPrefix(log, c + 1);
    WellNestedPrefix(log, u + 1);
    assert log[..c + 1][..c] == log[..c];
    assert log[..u + 1][..u] == log[..u];
    EndedIdIsNotZero(log[..u + 1]);
  }

  lemma {:induction false} EndedIdIsNotZero(log: seq<Event>)
    requires WellNested(log)
    ensures 0 !in LiveAfter(log)
    ensures log != [] && log[|log| - 1].Ended? ==> log[|log| - 1].op != 0
    decreases |log|
  {
    if log != [] {
      EndedIdIsNotZero(log[..|log| - 1]);
    }
  }

  lemma {:induction false} AbsentAfter(log: seq<Event>, u: nat, c: nat)
    requires u < c <= |log| && log[u].Ended?
    requires forall k :: u < k < c && log[k].Started? ==> log[k].op != log[u].op
    ensures log[u].op !in LiveAfter(log[..c])
    decreases c
  {
    assert log[..c][..c - 1] == log[..c - 1];
    if c > u + 1 {
      AbsentAfter(log, u, c - 1);
    }
  }

  // ---------------------------------------------------------------- stop

  /** `stop` on an Accepted or Running operation leaves it and everything it owns Stopping, whatever the
      states in between, and changes nothing else. */
  lemma StopClosure(s: State, id: Id)
    requires Inv(s) && id != 0 && Find(Shape(s.insts), id) >= 0
    requires s.insts[Find(Shape(s.insts), id)].state in {Accepted, Running}
    ensures var t := Stop(s, id).insts;
            && |t| == |s.insts| && Shape(t) == Shape(s.insts)
            && (forall j :: 0 <= j < |t| && (t[j].opId == id || Descends(Shape(s.insts), j, id)) ==>
                             t[j].state == Stopping)
            && (forall j :: 0 <= j < |t| && t[j].opId != id && !Descends(Shape(s.insts), j, id) ==> t[j] == s.insts[j])
  {
    HaltKeepsInv(s, Stop(s, id).insts);
  }

  ghost predicate AllOwnedStopping(s: seq<Instance>, id: Id) {
    forall j :: 0 <= j < |s| && Descends(Shape(s), j, id) ==> s[j].state == Stopping
  }

  /** A stop reaches every descendant exactly when it finds the operation not yet Stopping, or finds
      nothing left to stop: a repeated stop does not cascade again. */
  lemma StopReachesAllIff(s: State, id: Id)
    requires Inv(s) && id != 0 && Find(Shape(s.insts), id) >= 0
    ensures AllOwnedStopping(Stop(s, id).insts, id) <==>
            s.insts[Find(Shape(s.insts), id)].state in {Accepted, Running} || AllOwnedStopping(s.insts, id)
  {
    HaltKeepsInv(s, Stop(s, id).insts);
    if s.insts[Find(Shape(s.insts), id)].state in {Accepted, Running} {
      StopClosure(s, id);
    }
  }
}
