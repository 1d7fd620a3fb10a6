/**
 What each verdict of the derivation says of the children, by their own states
 (pkg/state/apply.go). The derivation itself is `Rollout`, in the order the code
 asks its questions; here every verdict has one condition, and no order.
 */
module Verdicts {
  import opened States
  import opened Rollout

  // --- what each verdict says of the children ------------------------------

  predicate NoneOf(states: seq<State>, excluded: set<State>) {
    forall x <- excluded :: x !in states
  }

  // The child states that end the apply one way or another, or take it back.
  const ENDED := {Failed, FailedRetryable, Cancelled, Stopped, Reverting, Reverted}

  lemma HasIff(states: seq<State>, x: State)
    requires !x.Pending? && !x.Running? && Folded(x) == x
    ensures Has(states, x) <==> x in states
  {
    if Has(states, x) {
      var i :| 0 <= i < |states| && Folded(states[i]) == x;
      assert states[i] == x;
    }
    if i :| 0 <= i < |states| && states[i] == x {
      assert FoldAll(states)[i] == x;
    }
  }

  // A checksumming table counts as running.
  lemma HasRunningIff(states: seq<State>)
    ensures Has(states, Running) <==> Running in states || Checksumming in states
  {
    if Has(states, Running) {
      var i :| 0 <= i < |states| && Folded(states[i]) == Running;
      assert states[i] == Running || states[i] == Checksumming;
    }
    if i :| 0 <= i < |states| && (states[i] == Running || states[i] == Checksumming) {
      assert FoldAll(states)[i] == Running;
    }
  }

  lemma AllEitherIff(states: seq<State>, x: State)
    requires x.WaitingForCutover? || x.WaitingForDeploy? || x.Completed?
    ensures AllEither(states, x, Completed)
            <==> forall i :: 0 <= i < |states| ==> states[i] == x || states[i] == Completed
    ensures All(states, Completed) <==> forall i :: 0 <= i < |states| ==> states[i] == Completed
  {
    var xs := FoldAll(states);
    forall i | 0 <= i < |states|
      ensures xs[i] in xs && (xs[i] == x <==> states[i] == x) && (xs[i] == Completed <==> states[i] == Completed)
    {
    }
  }

  // All the facts the verdicts below are read from.
  lemma HasEach(states: seq<State>)
    ensures forall x <- ENDED + {Recovering, CuttingOver, RevertWindow} :: Has(states, x) <==> x in states
    ensures Has(states, Running) <==> Running in states || Checksumming in states
  {
    forall x | x in ENDED + {Recovering, CuttingOver, RevertWindow}
      ensures Has(states, x) <==> x in states
    {
      HasIff(states, x);
    }
    HasRunningIff(states);
  }

  /** Each verdict of the base derivation that ends the apply, by the children's own
      states. */
  lemma EndedVerdicts(states: seq<State>)
    ensures var r := DeriveApplyState(states);
            && (r == Failed <==> Failed in states)
            && (r == FailedRetryable <==> FailedRetryable in states && NoneOf(states, {Failed}))
            && (r == Cancelled <==> Cancelled in states && NoneOf(states, {Failed, FailedRetryable}))
            && (r == Stopped <==> Stopped in states && NoneOf(states, {Failed, FailedRetryable, Cancelled}))
            && (r == Reverting
                <==> Reverting in states && NoneOf(states, {Failed, FailedRetryable, Cancelled, Stopped}))
            && (r == Reverted <==> Reverted in states && NoneOf(states, ENDED - {Reverted}))
            && (r == Completed <==> |states| > 0 && forall i :: 0 <= i < |states| ==> states[i] == Completed)
  {
    HasEach(states);
    AllEitherIff(states, Completed);
  }

  // With none of those, what is left to decide the verdict.
  lemma NotEnded(states: seq<State>)
    requires NoneOf(states, ENDED) && DeriveApplyState(states) != Completed && |states| > 0
    ensures DeriveApplyState(states) ==
            if Recovering in states then Recovering
            else if CuttingOver in states then CuttingOver
            else if AllEither(states, WaitingForCutover, Completed) then WaitingForCutover
            else if AllEither(states, WaitingForDeploy, Completed) then WaitingForDeploy
            else if RevertWindow in states then RevertWindow
            else if Running in states || Checksumming in states then Running
            else Pending
  {
    HasEach(states);
  }

  // A waiting verdict has no child that is neither waiting nor completed.
  lemma NotAllWaiting(states: seq<State>, w: State, x: State)
    requires (w.WaitingForCutover? || w.WaitingForDeploy?) && x in states && x != w && x != Completed
    ensures !AllEither(states, w, Completed) && DeriveApplyState(states) != Completed
  {
    AllEitherIff(states, w);
    EndedVerdicts(states);
  }

  /** Each live verdict, likewise: what some child is in, and what no child is in. */
  lemma LiveVerdicts(states: seq<State>)
    ensures var r := DeriveApplyState(states);
            && (r == Recovering <==> Recovering in states && NoneOf(states, ENDED))
            && (r == CuttingOver <==> CuttingOver in states && NoneOf(states, ENDED + {Recovering}))
            && (r == RevertWindow <==> RevertWindow in states && NoneOf(states, ENDED + {Recovering, CuttingOver}))
            && (r == Running
                <==> && (Running in states || Checksumming in states)
                     && NoneOf(states, ENDED + {Recovering, CuttingOver, RevertWindow}))
  {
    EndedVerdicts(states);
    if NoneOf(states, ENDED) && DeriveApplyState(states) != Completed && |states| > 0 {
      NotEnded(states);
    }
    forall x | x in {RevertWindow, Running, Checksumming} && x in states
      ensures !AllEither(states, WaitingForCutover, Completed) && !AllEither(states, WaitingForDeploy, Completed)
    {
      NotAllWaiting(states, WaitingForCutover, x);
      NotAllWaiting(states, WaitingForDeploy, x);
    }
  }

  /** The waiting verdicts need every child that did not complete to wait alike. */
  lemma WaitingVerdicts(states: seq<State>)
    ensures var r := DeriveApplyState(states);
            && (r == WaitingForCutover
                <==> && WaitingForCutover in states
                     && forall i :: 0 <= i < |states| ==> states[i] == WaitingForCutover || states[i] == Completed)
            && (r == WaitingForDeploy
                <==> && WaitingForDeploy in states
                     && forall i :: 0 <= i < |states| ==> states[i] == WaitingForDeploy || states[i] == Completed)
  {
    HasEach(states);
    AllEitherIff(states, WaitingForCutover);
    AllEitherIff(states, WaitingForDeploy);
  }

  /** Pending is what is left: no child has begun and is unsettled, and the children
      that did not complete do not all wait alike. */
  lemma PendingVerdict(states: seq<State>)
    ensures DeriveApplyState(states) == Pending
            <==> || states == []
                 || (&& NoneOf(states, ENDED + {Recovering, CuttingOver, RevertWindow, Running, Checksumming})
                     && (exists i :: 0 <= i < |states| && states[i] != WaitingForCutover && states[i] != Completed)
                     && (exists i :: 0 <= i < |states| && states[i] != WaitingForDeploy && states[i] != Completed))
  {
    EndedVerdicts(states);
    AllEitherIff(states, WaitingForCutover);
    AllEitherIff(states, WaitingForDeploy);
    if NoneOf(states, ENDED) && DeriveApplyState(states) != Completed && |states| > 0 {
      NotEnded(states);
    }
    if !NoneOf(states, ENDED) {
      SomeEndedVerdict(states);
    }
  }

  lemma SomeEndedVerdict(states: seq<State>)
    requires !NoneOf(states, ENDED)
    ensures DeriveApplyState(states) in ENDED
  {
    EndedVerdicts(states);
  }

  // --- and with the policies -----------------------------------------------

  /** Unless some child failed, the policies change nothing. */
  lemma PoliciesOnlyMatterForFailures(children: seq<Child>)
    requires forall i :: 0 <= i < |children| ==> children[i].state != Failed
    ensures RolloutState(children) == DeriveApplyState(ChildStates(children))
  {
    EndedVerdicts(ChildStates(children));
  }

  predicate Over(s: State) {
    s in {Completed, Failed, Stopped, Cancelled, Reverted}
  }

  // Row i failed for good: it neither continues nor pauses, or claims to do both.
  predicate Ends(children: seq<Child>, i: int)
    requires 0 <= i < |children|
  {
    children[i].state == Failed && (children[i].continueOnFailure <==> children[i].pauseOnFailure)
  }

  // Row i failed, pauses, and row k behind it is not over.
  predicate Pauses(children: seq<Child>, i: int, k: int)
    requires 0 <= i < |children| && 0 <= k < |children|
  {
    && i < k && children[i].state == Failed && !Over(children[k].state)
    && children[i].pauseOnFailure && !children[i].continueOnFailure
  }

  /** With a failed child: failed exactly if some child failed for good or every
      child is over; else paused exactly if a pausing failure has a live child behind
      it; else running degraded. */
  lemma FailedVerdicts(children: seq<Child>, f: nat)
    requires f < |children| && children[f].state == Failed
    ensures var r := RolloutState(children);
            && (r == Failed
                <==> || (exists i :: 0 <= i < |children| && Ends(children, i))
                     || (forall i :: 0 <= i < |children| ==> Over(children[i].state)))
            && (r == State.Paused
                <==> && (forall i :: 0 <= i < |children| ==> !Ends(children, i))
                     && (exists i, k :: 0 <= i < |children| && 0 <= k < |children| && Pauses(children, i, k)))
            && (r == Failed || r == State.Paused || r == RunningDegraded)
  {
    FailureVerdictIsOnlyDelayed(children, f);
    PausedIffHeld(children);
    assert forall i :: 0 <= i < |children| ==> (Over(children[i].state) <==> IsTerminal(children[i].state));
    assert forall i :: 0 <= i < |children| ==> (Ends(children, i) <==> HardFailure(children[i]));
    HoldIff(children);
  }

  lemma HoldIff(children: seq<Child>)
    ensures AnyHold(children)
            <==> exists i, k :: 0 <= i < |children| && 0 <= k < |children| && Pauses(children, i, k)
  {
    if i :| 0 <= i < |children| && HoldsRollout(children, i) {
      var k :| i < k < |children| && !IsTerminal(children[k].state);
      assert Pauses(children, i, k);
    }
    if i, k :| 0 <= i < |children| && 0 <= k < |children| && Pauses(children, i, k) {
      assert !IsTerminal(children[k].state);
      assert HoldsRollout(children, i);
    }
  }
}
