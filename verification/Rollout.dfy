/**
 The aggregate derivation of an apply's state from its children
 (pkg/state/apply.go): `DeriveApplyState` over child states and
 `DeriveRolloutApplyState`, which delays a failed verdict according to each
 child's on_failure policy.
 */
module Rollout {
  import opened States

  // --- the base derivation -------------------------------------------------

  function FoldAll(states: seq<State>): (xs: seq<State>)
    ensures |xs| == |states|
    ensures forall i :: 0 <= i < |xs| ==> xs[i] == Folded(states[i])
  {
    seq(|states|, i requires 0 <= i < |states| => Folded(states[i]))
  }

  predicate Has(states: seq<State>, x: State) {
    x in FoldAll(states)
  }

  predicate All(states: seq<State>, x: State) {
    forall y <- FoldAll(states) :: y == x
  }

  predicate AllEither(states: seq<State>, x: State, y: State) {
    forall z <- FoldAll(states) :: z == x || z == y
  }

  // The documented priority order, stated by which child states occur.
  function DeriveApplyState(states: seq<State>): State {
    if |states| == 0 then Pending
    else if Has(states, Failed) then Failed
    else if Has(states, FailedRetryable) then FailedRetryable
    else if Has(states, Cancelled) then Cancelled
    else if Has(states, Stopped) then Stopped
    else if Has(states, Reverting) then Reverting
    else if Has(states, Reverted) then Reverted
    else if All(states, Completed) then Completed
    else if Has(states, Recovering) then Recovering
    else if Has(states, CuttingOver) then CuttingOver
    else if AllEither(states, WaitingForCutover, Completed) then WaitingForCutover
    else if AllEither(states, WaitingForDeploy, Completed) then WaitingForDeploy
    else if Has(states, RevertWindow) then RevertWindow
    else if Has(states, Running) then Running
    else Pending
  }

  lemma {:induction false} CountBothIff<T>(xs: seq<T>, x: T, y: T)
    ensures x != y ==> multiset(xs)[x] + multiset(xs)[y] <= |xs|
    ensures x != y ==> (multiset(xs)[x] + multiset(xs)[y] == |xs| <==> forall z <- xs :: z == x || z == y)
    ensures multiset(xs)[x] <= |xs|
    ensures multiset(xs)[x] == |xs| <==> forall z <- xs :: z == x
  {
    if |xs| == 0 {
    } else {
      var front, last := xs[..|xs| - 1], xs[|xs| - 1];
      assert xs == front + [last];
      CountBothIff(front, x, y);
      assert last in xs;
      assert forall z <- front :: z in xs;
    }
  }

  function Occurrences(counts: map<State, nat>, x: State): nat {
    if x in counts then counts[x] else 0
  }

  // The comparisons the source makes on the counts of `total` child states.
  function PickByCounts(counts: map<State, nat>, total: nat): State {
    if Occurrences(counts, Failed) > 0 then Failed
    else if Occurrences(counts, FailedRetryable) > 0 then FailedRetryable
    else if Occurrences(counts, Cancelled) > 0 then Cancelled
    else if Occurrences(counts, Stopped) > 0 then Stopped
    else if Occurrences(counts, Reverting) > 0 then Reverting
    else if Occurrences(counts, Reverted) > 0 then Reverted
    else if Occurrences(counts, Completed) == total then Completed
    else if Occurrences(counts, Recovering) > 0 then Recovering
    else if Occurrences(counts, CuttingOver) > 0 then CuttingOver
    else if Occurrences(counts, WaitingForCutover) + Occurrences(counts, Completed) == total
        && Occurrences(counts, WaitingForCutover) > 0 then WaitingForCutover
    else if Occurrences(counts, WaitingForDeploy) + Occurrences(counts, Completed) == total
        && Occurrences(counts, WaitingForDeploy) > 0 then WaitingForDeploy
    else if Occurrences(counts, RevertWindow) > 0 then RevertWindow
    else if Occurrences(counts, Running) > 0 then Running
    else Pending
  }

  lemma CountsDecide(states: seq<State>, counts: map<State, nat>)
    requires |states| > 0
    requires forall x :: Occurrences(counts, x) == multiset(FoldAll(states))[x]
    ensures PickByCounts(counts, |states|) == DeriveApplyState(states)
  {
    var xs := FoldAll(states);
    assert forall x :: Occurrences(counts, x) > 0 <==> Has(states, x);
    assert Occurrences(counts, Completed) == |xs| <==> All(states, Completed) by {
      CountBothIff(xs, Completed, Failed);
    }
    WaitingOrCompleted(states, WaitingForCutover);
    WaitingOrCompleted(states, WaitingForDeploy);
  }

  lemma WaitingOrCompleted(states: seq<State>, w: State)
    requires w != Completed
    ensures var n := multiset(FoldAll(states));
            n[w] + n[Completed] == |states| && n[w] > 0 <==> AllEither(states, w, Completed) && Has(states, w)
    ensures !All(states, Completed) && AllEither(states, w, Completed) ==> Has(states, w)
  {
    CountBothIff(FoldAll(states), w, Completed);
  }

  // The source counts folded child states in one pass and then compares counts.
  method DeriveByCounting(states: seq<State>) returns (r: State)
    ensures r == DeriveApplyState(states)
  {
    if |states| == 0 {
      return Pending;
    }
    var counts: map<State, nat> := map[];
    for i := 0 to |states|
      invariant forall x :: Occurrences(counts, x) == multiset(FoldAll(states)[..i])[x]
    {
      assert FoldAll(states)[..i + 1] == FoldAll(states)[..i] + [Folded(states[i])];
      var k := Folded(states[i]);
      counts := counts[k := Occurrences(counts, k) + 1];
    }
    assert FoldAll(states)[..|states|] == FoldAll(states);
    CountsDecide(states, counts);
    r := PickByCounts(counts, |states|);
  }

  // --- the policy-aware rollout projection ---------------------------------

  datatype Child = Child(state: State, continueOnFailure: bool, pauseOnFailure: bool)

  // How an operation row's captured on_failure policy reads in the projection:
  // a released pause behaves like continue.
  function PolicyChild(s: State, onFailure: OnFailure, released: bool): Child {
    Child(s,
          onFailure == Continue || (onFailure == Pause && released),
          onFailure == Pause && !released)
  }

  function ChildStates(children: seq<Child>): (s: seq<State>)
    ensures |s| == |children|
    ensures forall i :: 0 <= i < |s| ==> s[i] == children[i].state
  {
    seq(|children|, i requires 0 <= i < |children| => children[i].state)
  }

  // Fail closed: neither flag set, or both set by mistake.
  predicate HardFailure(c: Child) {
    c.state == Failed && c.continueOnFailure == c.pauseOnFailure
  }

  predicate LaterLiveWork(children: seq<Child>, i: nat) {
    exists k :: i < k < |children| && !IsTerminal(children[k].state)
  }

  predicate HoldsRollout(children: seq<Child>, i: nat)
    requires i < |children|
  {
    children[i].state == Failed && !children[i].continueOnFailure && children[i].pauseOnFailure &&
    LaterLiveWork(children, i)
  }

  predicate AnyHardFailure(children: seq<Child>) {
    exists i :: 0 <= i < |children| && HardFailure(children[i])
  }

  predicate AnyHold(children: seq<Child>) {
    exists i :: 0 <= i < |children| && HoldsRollout(children, i)
  }

  predicate AllTerminal(children: seq<Child>) {
    forall i :: 0 <= i < |children| ==> IsTerminal(children[i].state)
  }

  function RolloutState(children: seq<Child>): State {
    var base := DeriveApplyState(ChildStates(children));
    if base != Failed then base
    else if AnyHardFailure(children) then Failed
    else if AnyHold(children) then State.Paused
    else if AllTerminal(children) then Failed
    else RunningDegraded
  }

  method HasLaterNonTerminal(children: seq<Child>, failedIndex: nat) returns (r: bool)
    requires failedIndex < |children|
    ensures r == LaterLiveWork(children, failedIndex)
  {
    for later := failedIndex + 1 to |children|
      invariant forall k :: failedIndex < k < later ==> IsTerminal(children[k].state)
    {
      if !IsTerminal(children[later].state) {
        return true;
      }
    }
    return false;
  }

  // The source's single scan with three flags.
  method DeriveRolloutByScan(children: seq<Child>) returns (r: State)
    ensures r == RolloutState(children)
  {
    if |children| == 0 {
      return Pending;
    }
    var base := DeriveByCounting(ChildStates(children));
    if base != Failed {
      return base;
    }
    var allTerminal, hardFail, pausedHold := true, false, false;
    for i := 0 to |children|
      invariant allTerminal <==> forall k :: 0 <= k < i ==> IsTerminal(children[k].state)
      invariant hardFail <==> exists k :: 0 <= k < i && HardFailure(children[k])
      invariant pausedHold <==> exists k :: 0 <= k < i && HoldsRollout(children, k)
    {
      var c := children[i];
      if !IsTerminal(c.state) {
        allTerminal := false;
      }
      var later := HasLaterNonTerminal(children, i);
      ghost var held := HoldsRollout(children, i);
      if c.state == Failed {
        if c.continueOnFailure && c.pauseOnFailure {
          hardFail := true;
        } else if c.continueOnFailure {
        } else if c.pauseOnFailure && later {
          pausedHold := true;
        } else if c.pauseOnFailure {
        } else {
          hardFail := true;
        }
      }
    }
    if hardFail {
      return Failed;
    }
    if pausedHold {
      return State.Paused;
    }
    if allTerminal {
      return Failed;
    }
    return RunningDegraded;
  }

  // --- what the projection promises ----------------------------------------

  lemma BaseFailedIff(children: seq<Child>)
    ensures DeriveApplyState(ChildStates(children)) == Failed
            <==> exists i :: 0 <= i < |children| && children[i].state == Failed
  {
    var states := ChildStates(children);
    if DeriveApplyState(states) == Failed {
      var i :| 0 <= i < |states| && Folded(states[i]) == Failed;
      assert children[i].state == Failed;
    }
    if i :| 0 <= i < |children| && children[i].state == Failed {
      assert Folded(states[i]) == Failed;
      assert Has(states, Failed);
    }
  }

  // on_failure never decides the verdict, only when it is reached: with a failed
  // child the apply reads failed, paused or running_degraded and nothing else,
  // and it reads failed as soon as every child is terminal.
  lemma FailureVerdictIsOnlyDelayed(children: seq<Child>, f: nat)
    requires f < |children| && children[f].state == Failed
    ensures var r := RolloutState(children); r.Failed? || r.Paused? || r.RunningDegraded?
    ensures AllTerminal(children) ==> RolloutState(children) == Failed
    ensures RolloutState(children) == Failed <==> AnyHardFailure(children) || AllTerminal(children)
  {
    BaseFailedIff(children);
  }

  // Once every child is terminal the projection is terminal.
  lemma SettledChildrenSettleTheApply(children: seq<Child>)
    requires |children| > 0 && AllTerminal(children)
    ensures IsTerminal(RolloutState(children))
  {
    var states := ChildStates(children);
    forall i | 0 <= i < |states|
      ensures Folded(states[i]) == states[i] && IsTerminal(states[i])
    {
      FoldingKeepsTerminality(states[i]);
    }
    if !Has(states, Failed) && !Has(states, Cancelled) && !Has(states, Stopped) && !Has(states, Reverted) {
      assert All(states, Completed);
    }
    assert !Has(states, FailedRetryable) && !Has(states, Reverting);
  }

  // The converse does not hold. This is exactly when the apply already reads
  // terminal although a child is still live.
  lemma TerminalWhileLiveIff(children: seq<Child>)
    requires !AllTerminal(children)
    ensures var states := ChildStates(children);
            IsTerminal(RolloutState(children)) <==>
              || AnyHardFailure(children)
              || (&& !Has(states, Failed) && !Has(states, FailedRetryable)
                  && (|| Has(states, Cancelled)
                      || Has(states, Stopped)
                      || (!Has(states, Reverting) && Has(states, Reverted))))
  {
    var states := ChildStates(children);
    BaseFailedIff(children);
    var k :| 0 <= k < |children| && !IsTerminal(children[k].state);
    FoldingKeepsTerminality(states[k]);
    assert !All(states, Completed) by {
      assert FoldAll(states)[k] in FoldAll(states) && FoldAll(states)[k] != Completed;
    }
    if AnyHardFailure(children) {
      var i :| 0 <= i < |children| && HardFailure(children[i]);
      assert Folded(states[i]) == Failed;
    }
  }

  // The apply reads completed only when every single child completed.
  lemma CompletedIffEveryChildCompleted(children: seq<Child>)
    ensures RolloutState(children) == Completed <==>
            |children| > 0 && forall i :: 0 <= i < |children| ==> children[i].state == Completed
  {
    var states := ChildStates(children);
    if RolloutState(children) == Completed {
      forall i | 0 <= i < |children|
        ensures children[i].state == Completed
      {
        assert FoldAll(states)[i] in FoldAll(states);
        FoldingKeepsTerminality(states[i]);
      }
    }
    if |children| > 0 && forall i :: 0 <= i < |children| ==> children[i].state == Completed {
      forall x | x != Completed
        ensures !Has(states, x)
      {
        assert forall i :: 0 <= i < |states| ==> Folded(states[i]) == Completed;
      }
      assert All(states, Completed);
    }
  }

  // A child that is paused on failure is the only way to read paused.
  lemma PausedIffHeld(children: seq<Child>)
    ensures RolloutState(children) == State.Paused <==> AnyHold(children) && !AnyHardFailure(children)
  {
    BaseFailedIff(children);
    if AnyHold(children) {
      var i :| 0 <= i < |children| && HoldsRollout(children, i);
      assert children[i].state == Failed;
    }
  }
}
