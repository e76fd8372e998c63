/** How operations end: deferred terminals, the exclusive slot, and the bounded drain after a fault. */
module RuntimeTermination {
  import opened Options
  import opened Forest
  import opened Slot
  import opened RuntimeModel
  import opened RuntimeRuns

  // ---------------------------------------------------------------- deferred terminals

  predicate SameDeferral(x: Instance, y: Instance) {
    y.opId == x.opId && y.typeId == x.typeId && y.pending &&
    y.pendingState == x.pendingState && y.pendingOutcome == x.pendingOutcome
  }

  ghost predicate StillDeferred(s: seq<Instance>, x: Instance) {
    exists j :: 0 <= j < |s| && SameDeferral(x, s[j])
  }

  ghost predicate EndedAs(log: seq<Event>, from: nat, op: Id, typeId: int, code: int) {
    exists k :: from <= k < |log| && log[k] == Ended(op, typeId, code)
  }

  ghost predicate Fate(t: State, from: nat, x: Instance) {
    StillDeferred(t.insts, x) || EndedAs(t.log, from, x.opId, x.typeId, x.pendingOutcome.code)
  }

  /** A finalized operation is reported with its own outcome; a deferred one is kept as it is or
      reported with the outcome recorded when it was deferred. */
  lemma {:induction false} FinalizeFate(s: State, i: nat, o: Outcome, x: Instance)
    requires i < |s.insts|
    ensures s.log <= Finalize(s, i, o).log
    ensures EndedAs(Finalize(s, i, o).log, |s.log|, s.insts[i].opId, s.insts[i].typeId, o.code)
    ensures (exists j :: 0 <= j < |s.insts| && j != i && SameDeferral(x, s.insts[j]))
            ==> Fate(Finalize(s, i, o), |s.log|, x)
    decreases |s.insts|, 0
  {
    var t := Removed(s, i, o);
    NotifyFate(t, s.insts[i].parent, o, x);
    var u := Finalize(s, i, o);
    assert t.log <= u.log;
    assert u.log[|s.log|] == t.log[|s.log|];
    if j :| 0 <= j < |s.insts| && j != i && SameDeferral(x, s.insts[j]) {
      assert t.insts[if j < i then j else j - 1] == s.insts[j];
      assert StillDeferred(t.insts, x);
    }
  }

  lemma {:induction false} NotifyFate(s: State, parent: Id, o: Outcome, x: Instance)
    ensures s.log <= NotifyParent(s, parent, o).log
    ensures StillDeferred(s.insts, x) ==> Fate(NotifyParent(s, parent, o), |s.log|, x)
    decreases |s.insts|, 1
  {
    var p := Find(Shape(s.insts), parent);
    if parent != 0 && p >= 0 {
      var y := Delivered(s.insts[p], o);
      if y.pending && !HasDescendant(Shape(s.insts), parent) {
        var s1 := s.(insts := s.insts[p := y.(pending := false)]);
        FinalizeFate(s1, p, y.pendingOutcome, x);
        if j :| 0 <= j < |s.insts| && SameDeferral(x, s.insts[j]) {
          assert j != p ==> SameDeferral(x, s1.insts[j]);
        }
      } else if j :| 0 <= j < |s.insts| && SameDeferral(x, s.insts[j]) {
        assert SameDeferral(x, s.insts[p := y][j]);
      }
    }
  }

  lemma ApplyFate(s: State, i: nat, ev: DriverEvent, j: nat)
    requires i < |s.insts| && j < |s.insts| && i != j && s.insts[j].pending
    ensures Fate(ApplyEvent(s, i, ev), |s.log|, s.insts[j])
  {
    var x := s.insts[j];
    match ev
    case Continue => assert SameDeferral(x, ApplyEvent(s, i, ev).insts[j]);
    case Yield => assert SameDeferral(x, ApplyEvent(s, i, ev).insts[j]);
    case Spawn(_, _) => assert SameDeferral(x, ApplyEvent(s, i, ev).insts[j]);
    case Complete(o) => TerminateFate(s, i, Succeeded, o, j);
    case Fail(o) => TerminateFate(s, i, Failed, o, j);
    case Cancel(o) =>
      if s.insts[i].state == Stopping {
        TerminateFate(s, i, Cancelled, o, j);
      } else {
        assert SameDeferral(x, s.insts[j]);
      }
  }

  lemma TerminateFate(s: State, i: nat, final: OpState, o: Outcome, j: nat)
    requires i < |s.insts| && j < |s.insts| && i != j && s.insts[j].pending
    ensures Fate(Terminate(s, i, final, o), |s.log|, s.insts[j])
  {
    assert SameDeferral(s.insts[j], s.insts[j]);
    if HasDescendant(Shape(s.insts), s.insts[i].opId) {
      assert SameDeferral(s.insts[j], Terminate(s, i, final, o).insts[j]);
    } else {
      FinalizeFate(s, i, o, s.insts[j]);
    }
  }

  lemma StepFate(s: State, c: Call, j: nat)
    requires Inv(s) && j < |s.insts| && s.insts[j].pending
    ensures Fate(Step(s, c), |s.log|, s.insts[j])
  {
    match c
    case CreateRootCall(r) => CreationFate(s, CreateRoot(s, r), j);
    case CreateChildCall(r) => CreationFate(s, CreateChild(s, r), j);
    case AdvanceCall(now, drive) => AdvanceFate(s, now, drive, j);
    case StopCall(id) => HaltedFate(s, Stop(s, id), j);
    case FaultCascadeCall => HaltedFate(s, FaultCascade(s), j);
  }

  lemma HaltedFate(s: State, t: State, j: nat)
    requires j < |s.insts| && j < |t.insts| && s.insts[j].pending
    requires t.insts[j] == s.insts[j] || t.insts[j] == Halted(s.insts[j])
    ensures Fate(t, |s.log|, s.insts[j])
  {
    assert SameDeferral(s.insts[j], t.insts[j]);
  }

  lemma CreationFate(s: State, c: Creation, j: nat)
    requires j < |s.insts| && s.insts[j].pending && s.insts <= c.state.insts
    ensures Fate(c.state, |s.log|, s.insts[j])
  {
    assert SameDeferral(s.insts[j], c.state.insts[j]);
  }

  lemma AdvanceFate(s: State, now: int, drive: DriverAnswers, j: nat)
    requires j < |s.insts| && s.insts[j].pending
    ensures Fate(Advance(s, now, drive), |s.log|, s.insts[j])
  {
    var i := FirstDue(s.insts);
    if i < |s.insts| {
      var s1 := s.(insts := s.insts[i := s.insts[i].(childTerminal := false)]);
      assert i != j && s1.insts[j] == s.insts[j];
      ApplyFate(s1, i, drive(s.insts[i].driver, EnvOf(s.insts[i], now)), j);
    } else {
      assert SameDeferral(s.insts[j], s.insts[j]);
    }
  }

  /** The end of a child wakes its owner: unless the owner's own terminal is deferred, it has the child's
      outcome at hand, is due to be driven, and nothing else ends in that call. */
  lemma OwnerIsWoken(s: State, i: nat, o: Outcome)
    requires i < |s.insts| && Leaving(s, i) && s.insts[i].parent != 0
    requires var p := Find(Shape(s.insts), s.insts[i].parent); p >= 0 && !s.insts[p].pending
    ensures var t := Finalize(s, i, o); var x := s.insts[i]; var p := Find(Shape(s.insts), x.parent);
            && 0 <= p < |t.insts| && t.insts[p].opId == x.parent && IsDue(t.insts[p])
            && t.insts[p].childTerminal && t.insts[p].childOutcome == o
            && t.log == s.log + [Ended(x.opId, x.typeId, o.code)]
  {
    var f := Shape(s.insts);
    var p := Find(f, f[i].parent);
    assert OwnerBefore(f, i);
    FindAfterRemove(f, i, f[i].parent);
    assert Shape(Removed(s, i, o).insts) == RemoveAt(f, i);
    assert Removed(s, i, o).insts[p] == s.insts[p];
  }

  /** A deferred terminal is never lost: each call either leaves it recorded and waiting for a live
      descendant, or reports it with exactly the outcome recorded at deferral. When its last descendant
      goes, only the second is possible. */
  lemma DeferredFate(s: State, c: Call, j: nat)
    requires Inv(s) && j < |s.insts| && s.insts[j].pending
    ensures var t := Step(s, c); var x := s.insts[j];
            && Fate(t, |s.log|, x)
            && (StillDeferred(t.insts, x) ==> HasDescendant(Shape(t.insts), x.opId))
            && (!HasDescendant(Shape(t.insts), x.opId) ==>
                  EndedAs(t.log, |s.log|, x.opId, x.typeId, x.pendingOutcome.code))
  {
    StepFate(s, c, j);
    StepKeepsInv(s, c);
    StillDeferredWaits(Step(s, c), s.insts[j]);
  }

  lemma StillDeferredWaits(t: State, x: Instance)
    requires Inv(t)
    ensures StillDeferred(t.insts, x) ==> HasDescendant(Shape(t.insts), x.opId)
  {
    if k :| 0 <= k < |t.insts| && SameDeferral(x, t.insts[k]) {
      assert Shape(t.insts)[k].id == x.opId;
      ChildIffDescendant(Shape(t.insts), x.opId);
    }
  }

  ghost predicate IsDeferred(s: seq<Instance>, op: Id) {
    exists j :: 0 <= j < |s| && s[j].opId == op && s[j].pending
  }

  /** The driver of a deferred operation is never asked again: changing its answers changes nothing. */
  lemma DeferredNeverDriven(s: State, now: int, drive: DriverAnswers, other: DriverAnswers)
    requires Inv(s)
    requires forall d, e: OperationEnv :: !IsDeferred(s.insts, e.opId) ==> drive(d, e) == other(d, e)
    ensures Advance(s, now, drive) == Advance(s, now, other)
  {
    var i := FirstDue(s.insts);
    if i < |s.insts| {
      var x := s.insts[i];
      FindUnique(Shape(s.insts), i);
      forall j | 0 <= j < |s.insts| && s.insts[j].opId == x.opId ensures j == i {
        FindUnique(Shape(s.insts), j);
      }
      assert !IsDeferred(s.insts, EnvOf(x, now).opId);
    }
  }

  // ---------------------------------------------------------------- the exclusive slot

  ghost predicate ClaimantEnded(s: seq<Instance>, a: Activity, log: seq<Event>, from: nat) {
    exists i, k :: 0 <= i < |s| && from <= k < |log| && s[i].activity == a && log[k].Ended? && log[k].op == s[i].opId
  }

  lemma {:induction false} FinalizeSlot(s: State, i: nat, o: Outcome, a: Activity)
    requires i < |s.insts| && a != Idle && s.slot == Some(a)
    ensures var t := Finalize(s, i, o); t.slot == s.slot || ClaimantEnded(s.insts, a, t.log, |s.log|)
    decreases |s.insts|, 0
  {
    var r := Removed(s, i, o);
    var t := Finalize(s, i, o);
    NotifyFate(r, s.insts[i].parent, o, s.insts[i]);
    assert t.log[|s.log|] == r.log[|s.log|];
    if s.insts[i].activity != a {
      NotifySlot(r, s.insts[i].parent, o, a);
      if t.slot != s.slot {
        var j, k :| 0 <= j < |r.insts| && |r.log| <= k < |t.log|
                            && r.insts[j].activity == a && t.log[k].Ended? && t.log[k].op == r.insts[j].opId;
        assert s.insts[Shift(i, j)] == r.insts[j];
      }
    }
  }

  lemma {:induction false} NotifySlot(s: State, parent: Id, o: Outcome, a: Activity)
    requires a != Idle && s.slot == Some(a)
    ensures var t := NotifyParent(s, parent, o); t.slot == s.slot || ClaimantEnded(s.insts, a, t.log, |s.log|)
    decreases |s.insts|, 1
  {
    var p := Find(Shape(s.insts), parent);
    if parent != 0 && p >= 0 {
      var y := Delivered(s.insts[p], o);
      if y.pending && !HasDescendant(Shape(s.insts), parent) {
        var s1 := s.(insts := s.insts[p := y.(pending := false)]);
        var t := NotifyParent(s, parent, o);
        FinalizeSlot(s1, p, y.pendingOutcome, a);
        if t.slot != s.slot {
          var j, k :| 0 <= j < |s1.insts| && |s1.log| <= k < |t.log|
                              && s1.insts[j].activity == a && t.log[k].Ended? && t.log[k].op == s1.insts[j].opId;
          assert s.insts[j].activity == a && s.insts[j].opId == s1.insts[j].opId;
        }
      }
    }
  }

  /** The slot changes hands only with its claimant: a taken slot is freed only in the call that reports
      the end of the operation holding it, and no live operation carries an activity afterwards. */
  lemma SlotFreedWithClaimant(s: State, c: Call, a: Activity)
    requires Inv(s) && a != Idle && s.slot == Some(a) && Step(s, c).slot != s.slot
    ensures var t := Step(s, c);
            && t.slot == Some(Idle) && c.AdvanceCall?
            && ClaimantEnded(s.insts, a, t.log, |s.log|)
            && forall i :: 0 <= i < |t.insts| ==> t.insts[i].activity == Idle
  {
    StepKeepsInv(s, c);
    if c.AdvanceCall? {
      AdvanceSlot(s, c.now, c.drive, a);
    } else {
      OtherCallsKeepSlot(s, c, a);
    }
  }

  lemma OtherCallsKeepSlot(s: State, c: Call, a: Activity)
    requires a != Idle && s.slot == Some(a) && !c.AdvanceCall?
    ensures Step(s, c).slot == s.slot
  {
  }

  lemma AdvanceSlot(s: State, now: int, drive: DriverAnswers, a: Activity)
    requires a != Idle && s.slot == Some(a)
    ensures var t := Advance(s, now, drive);
            t.slot == s.slot || (t.slot == Some(Idle) && ClaimantEnded(s.insts, a, t.log, |s.log|))
  {
    var i := FirstDue(s.insts);
    if i < |s.insts| {
      var x := s.insts[i];
      var s1 := s.(insts := s.insts[i := x.(childTerminal := false)]);
      var t := Advance(s, now, drive);
      ApplySlot(s1, i, drive(x.driver, EnvOf(x, now)), a);
      if t.slot != s.slot {
        var j, k :| 0 <= j < |s1.insts| && |s.log| <= k < |t.log|
                            && s1.insts[j].activity == a && t.log[k].Ended? && t.log[k].op == s1.insts[j].opId;
        assert s.insts[j].activity == a && s.insts[j].opId == s1.insts[j].opId;
      }
    }
  }

  lemma ApplySlot(s: State, i: nat, ev: DriverEvent, a: Activity)
    requires i < |s.insts| && a != Idle && s.slot == Some(a)
    ensures var t := ApplyEvent(s, i, ev);
            t.slot == s.slot || (t.slot == Some(Idle) && ClaimantEnded(s.insts, a, t.log, |s.log|))
  {
    if ev.Complete? || ev.Fail? || ev.Cancel? {
      FinalizeSlot(s, i, ev.outcome, a);
      FinalizeSlotValue(s, i, ev.outcome);
    }
  }

  lemma {:induction false} FinalizeSlotValue(s: State, i: nat, o: Outcome)
    requires i < |s.insts|
    ensures Finalize(s, i, o).slot in {s.slot, Some(Idle)}
    decreases |s.insts|, 0
  {
    NotifySlotValue(Removed(s, i, o), s.insts[i].parent, o);
  }

  lemma {:induction false} NotifySlotValue(s: State, parent: Id, o: Outcome)
    ensures NotifyParent(s, parent, o).slot in {s.slot, Some(Idle)}
    decreases |s.insts|, 1
  {
    var p := Find(Shape(s.insts), parent);
    if parent != 0 && p >= 0 {
      var y := Delivered(s.insts[p], o);
      if y.pending && !HasDescendant(Shape(s.insts), parent) {
        FinalizeSlotValue(s.(insts := s.insts[p := y.(pending := false)]), p, y.pendingOutcome);
      }
    }
  }

  // ---------------------------------------------------------------- bounded drain

  function Weight(x: Instance): nat {
    if x.pending then 0 else 1
  }

  /** Live operations whose terminal is not deferred. */
  function Undeferred(s: seq<Instance>): nat {
    if s == [] then 0 else Undeferred(s[..|s| - 1]) + Weight(s[|s| - 1])
  }

  lemma {:induction false} UndeferredBound(s: seq<Instance>)
    ensures Undeferred(s) <= |s|
    decreases |s|
  {
    if s != [] { UndeferredBound(s[..|s| - 1]); }
  }

  lemma {:induction false} UndeferredReplace(s: seq<Instance>, i: nat, x: Instance)
    requires i < |s|
    ensures Undeferred(s[i := x]) == Undeferred(s) - Weight(s[i]) + Weight(x)
    ensures Undeferred(s) >= Weight(s[i])
    decreases |s|
  {
    var n := |s| - 1;
    if i == n {
      assert s[i := x][..n] == s[..n];
    } else {
      UndeferredReplace(s[..n], i, x);
      assert s[i := x][..n] == s[..n][i := x];
    }
  }

  lemma {:induction false} UndeferredRemove(s: seq<Instance>, i: nat)
    requires i < |s|
    ensures Undeferred(RemoveAt(s, i)) == Undeferred(s) - Weight(s[i])
    decreases |s|
  {
    var n := |s| - 1;
    if i == n {
      assert RemoveAt(s, i) == s[..n];
    } else {
      UndeferredRemove(s[..n], i);
      assert RemoveAt(s, i)[..n - 1] == RemoveAt(s[..n], i);
      assert RemoveAt(s, i)[n - 1] == s[n];
    }
  }

  ghost predicate AllStopping(s: seq<Instance>) {
    forall i :: 0 <= i < |s| ==> s[i].state == Stopping
  }

  /** Resolving deferred owners takes out only operations that were not counted. */
  lemma {:induction false} FinalizeCount(s: State, i: nat, o: Outcome)
    requires i < |s.insts| && (forall j :: 0 <= j < |s.insts| && j != i ==> s.insts[j].state == Stopping)
    ensures Undeferred(Finalize(s, i, o).insts) == Undeferred(s.insts) - Weight(s.insts[i])
    ensures AllStopping(Finalize(s, i, o).insts)
    decreases |s.insts|, 0
  {
    UndeferredRemove(s.insts, i);
    var r := Removed(s, i, o);
    assert forall j :: 0 <= j < |r.insts| ==> r.insts[j] == s.insts[Shift(i, j)];
    NotifyCount(r, s.insts[i].parent, o);
  }

  lemma {:induction false} NotifyCount(s: State, parent: Id, o: Outcome)
    requires AllStopping(s.insts)
    ensures Undeferred(NotifyParent(s, parent, o).insts) == Undeferred(s.insts)
    ensures AllStopping(NotifyParent(s, parent, o).insts)
    decreases |s.insts|, 1
  {
    var p := Find(Shape(s.insts), parent);
    if parent != 0 && p >= 0 {
      var y := Delivered(s.insts[p], o);
      if y.pending && !HasDescendant(Shape(s.insts), parent) {
        UndeferredReplace(s.insts, p, y.(pending := false));
        FinalizeCount(s.(insts := s.insts[p := y.(pending := false)]), p, y.pendingOutcome);
      } else {
        UndeferredReplace(s.insts, p, y);
      }
    }
  }

  /** Every driver answers a stop request with a terminal event. */
  ghost predicate Cooperative(drive: DriverAnswers) {
    forall d: Driver, e: OperationEnv :: e.stopRequested ==>
      drive(d, e).Complete? || drive(d, e).Fail? || drive(d, e).Cancel?
  }

  /** The newest live operation is never deferred, so something can always be driven. */
  lemma NewestIsUndeferred(s: State)
    requires Inv(s) && s.insts != []
    ensures !s.insts[|s.insts| - 1].pending && Undeferred(s.insts) > 0
  {
    var f := Shape(s.insts);
    LastIsLeaf(f);
    assert f[|f| - 1].id != 0;
  }

  /** While everything is stopping, one advance takes exactly one undeferred operation out of the count. */
  lemma DrainStep(s: State, now: int, drive: DriverAnswers)
    requires Inv(s) && AllStopping(s.insts) && Cooperative(drive) && s.insts != []
    ensures var t := Advance(s, now, drive);
            Inv(t) && AllStopping(t.insts) && Undeferred(t.insts) == Undeferred(s.insts) - 1
  {
    AdvanceKeepsInv(s, now, drive);
    NewestIsUndeferred(s);
    assert IsDue(s.insts[|s.insts| - 1]);
    var i := FirstDue(s.insts);
    var x := s.insts[i];
    var s1 := s.(insts := s.insts[i := x.(childTerminal := false)]);
    UndeferredReplace(s.insts, i, s1.insts[i]);
    StoppingAdvance(s, i, now, drive);
  }

  /** A stopping operation that answers terminally is terminated. */
  lemma StoppingAdvance(s: State, i: nat, now: int, drive: DriverAnswers)
    requires i == FirstDue(s.insts) < |s.insts| && AllStopping(s.insts) && Cooperative(drive)
    requires !s.insts[i].pending
    ensures var s1 := s.(insts := s.insts[i := s.insts[i].(childTerminal := false)]);
            Undeferred(Advance(s, now, drive).insts) == Undeferred(s1.insts) - 1
            && AllStopping(Advance(s, now, drive).insts)
  {
    var x := s.insts[i];
    var s1 := s.(insts := s.insts[i := x.(childTerminal := false)]);
    var ev := drive(x.driver, EnvOf(x, now));
    assert EnvOf(x, now).stopRequested;
    var final := if ev.Complete? then Succeeded else if ev.Fail? then Failed else Cancelled;
    assert Advance(s, now, drive) == Terminate(s1, i, final, ev.outcome);
    TerminateCount(s1, i, final, ev.outcome);
  }

  lemma TerminateCount(s: State, i: nat, final: OpState, o: Outcome)
    requires i < |s.insts| && AllStopping(s.insts) && !s.insts[i].pending
    ensures Undeferred(Terminate(s, i, final, o).insts) == Undeferred(s.insts) - 1
    ensures AllStopping(Terminate(s, i, final, o).insts)
  {
    var x := s.insts[i];
    if HasDescendant(Shape(s.insts), x.opId) {
      UndeferredReplace(s.insts, i, x.(state := Stopping, parked := true, pending := true,
                                       pendingState := final, pendingOutcome := o));
    } else {
      FinalizeCount(s, i, o);
    }
  }

  lemma {:induction false} DrainRun(s: State, advances: seq<Call>)
    requires Inv(s) && AllStopping(s.insts)
    requires forall k :: 0 <= k < |advances| ==> advances[k].AdvanceCall? && Cooperative(advances[k].drive)
    requires |advances| >= Undeferred(s.insts)
    ensures Inv(Run(s, advances)) && Run(s, advances).insts == []
    decreases |advances|
  {
    if s.insts != [] {
      NewestIsUndeferred(s);
    }
    if advances != [] {
      if s.insts != [] {
        DrainStep(s, advances[0].now, advances[0].drive);
      }
      DrainRun(Step(s, advances[0]), advances[1..]);
    }
  }

  /** After a fault, if every driver answers a stop with a terminal event, eight advances empty the
      runtime: every operation has ended, and the slot is free. */
  lemma BoundedDrain(slot: Option<Activity>, calls: seq<Call>, advances: seq<Call>)
    requires slot == None || slot == Some(Idle)
    requires forall k :: 0 <= k < |advances| ==> advances[k].AdvanceCall? && Cooperative(advances[k].drive)
    requires |advances| >= Undeferred(Run(Initial(slot), calls).insts)
    ensures Undeferred(Run(Initial(slot), calls).insts) <= MAX_INSTANCES
    ensures var t := Run(FaultCascade(Run(Initial(slot), calls)), advances);
            t.insts == [] && (t.slot == None || t.slot == Some(Idle)) && Starts(t.log) == Ends(t.log)
  {
    RunKeepsInv(Initial(slot), calls);
    DrainFrom(Run(Initial(slot), calls), advances);
  }

  lemma DrainFrom(s: State, advances: seq<Call>)
    requires Inv(s)
    requires forall k :: 0 <= k < |advances| ==> advances[k].AdvanceCall? && Cooperative(advances[k].drive)
    requires |advances| >= Undeferred(s.insts)
    ensures Undeferred(s.insts) <= MAX_INSTANCES
    ensures var t := Run(FaultCascade(s), advances);
            t.insts == [] && (t.slot == None || t.slot == Some(Idle)) && Starts(t.log) == Ends(t.log)
  {
    UndeferredBound(s.insts);
    FaultStopsAll(s);
    var u := FaultCascade(s);
    DrainRun(u, advances);
    EmptyIsSettled(Run(u, advances));
  }

  lemma FaultStopsAll(s: State)
    requires Inv(s)
    ensures var u := FaultCascade(s); Inv(u) && AllStopping(u.insts) && Undeferred(u.insts) == Undeferred(s.insts)
  {
    HaltKeepsInv(s, HaltAll(s.insts));
    HaltCount(s.insts, HaltAll(s.insts));
    HaltAllStops(s.insts);
  }

  lemma HaltAllStops(s: seq<Instance>)
    requires AllSound(s)
    ensures AllStopping(HaltAll(s))
  {
    forall i | 0 <= i < |s| ensures HaltAll(s)[i].state == Stopping {
      assert Sound(s[i]);
    }
  }

  lemma EmptyIsSettled(t: State)
    requires Inv(t) && t.insts == []
    ensures (t.slot == None || t.slot == Some(Idle)) && Starts(t.log) == Ends(t.log)
  {
    LogBalance(t.log);
    assert Shape(t.insts) == [];
    assert LiveAfter(t.log).Keys == {};
    assert |LiveAfter(t.log)| == |LiveAfter(t.log).Keys|;
  }

  lemma {:induction false} HaltCount(s: seq<Instance>, t: seq<Instance>)
    requires |s| == |t| && forall i :: 0 <= i < |s| ==> t[i] == Halted(s[i])
    ensures Undeferred(t) == Undeferred(s)
    decreases |s|
  {
    if s != [] { HaltCount(s[..|s| - 1], t[..|t| - 1]); }
  }

  // ---------------------------------------------------------------- a stop that does not cascade

  /** A child may be created under a stopping operation, and stopping that operation again does not
      reach it. */
  lemma RepeatedStopMissesNewChild(s: State, id: Id, r: CreateRequest)
    requires Inv(s) && id != 0 && Find(Shape(s.insts), id) >= 0
    requires s.insts[Find(Shape(s.insts), id)].state == Stopping
    requires |s.insts| < MAX_INSTANCES && r.parent == id && r.driver != NoDriver
    ensures var c := CreateChild(s, r);
            && c.result == Created && Stop(c.state, id) == c.state
            && var n := |s.insts|;
               Descends(Shape(c.state.insts), n, id) && c.state.insts[n].state == Accepted
  {
    var f := Shape(s.insts);
    var p := Find(f, id);
    AncestorsExact(f, p);
    var c := Add(s, r, id, Idle, s.slot);
    assert CreateChild(s, r) == c;
    ChildAppended(s, c.state.insts[|s.insts|], c.state.insts, id);
    AlreadyStopping(c.state, id);
  }

  lemma ChildAppended(s: State, x: Instance, t: seq<Instance>, id: Id)
    requires Inv(s) && id != 0 && Find(Shape(s.insts), id) >= 0
    requires t == s.insts + [x] && x.parent == id
    ensures Find(Shape(t), id) == Find(Shape(s.insts), id) && t[Find(Shape(t), id)] == s.insts[Find(Shape(s.insts), id)]
    ensures Descends(Shape(t), |s.insts|, id)
  {
    var f := Shape(s.insts);
    assert Shape(t) == f + [Node(x.opId, id)];
    FindAppend(f, Node(x.opId, id), id);
    NewChildDescends(f, Node(x.opId, id));
  }

  lemma AlreadyStopping(s: State, id: Id)
    requires Find(Shape(s.insts), id) >= 0 && s.insts[Find(Shape(s.insts), id)].state == Stopping
    ensures Stop(s, id) == s
  {
  }

  lemma NewChildDescends(f: seq<Node>, n: Node)
    requires n.parent != 0
    ensures Descends(f + [n], |f|, n.parent)
  {
    assert (f + [n])[|f|] == n;
  }

  /** The situation arises after two calls from start-up. */
  lemma StoppingRootIsReachable(d: Driver)
    requires d != NoDriver
    ensures var s := Run(Initial(None), [CreateRootCall(CreateRequest(1, 5, 0, d, Idle)), StopCall(1)]);
            Inv(s) && |s.insts| == 1 && Find(Shape(s.insts), 1) == 0 && s.insts[0].state == Stopping
  {
    var r := CreateRequest(1, 5, 0, d, Idle);
    var calls := [CreateRootCall(r), StopCall(1)];
    RunKeepsInv(Initial(None), calls);
    assert calls[1..] == [StopCall(1)];
    assert calls[1..][1..] == [];
    var s1 := CreateRoot(Initial(None), r).state;
    assert Ids(Shape([])) == {};
    assert s1.insts == [NewInstance(1, r, 0, Idle)];
    assert Find(Shape(s1.insts), 1) == 0;
    var s2 := Stop(s1, 1);
    assert s2.insts == [Halted(s1.insts[0])];
    assert Run(Initial(None), calls) == Run(s1, [StopCall(1)]) == s2;
  }
}
