/**
 What the claim gates and the rollout projection promise together: a paused
 rollout really is held, when a rollout that reads live can move, and how a
 finalizer behind failed work strands it.
 */
module Progress {
  import opened States
  import opened Rollout
  import opened Claims

  function ApplyStateOf(b: Board): State {
    RolloutState(ChildrenOf(b))
  }

  // Both policies are resolved once per apply and copied onto every row.
  predicate UniformPolicy(b: Board, onFailure: OnFailure) {
    forall i :: 0 <= i < |b.rows| ==> b.rows[i].onFailure == onFailure
  }

  // Work of another deployment than row f's that is not copied in parallel.
  predicate CopiesBehind(b: Board, f: nat, k: nat)
    requires f < |b.rows| && k < |b.rows|
  {
    b.rows[k].kind == Work && b.rows[k].deployment != b.rows[f].deployment && b.rows[k].cutover != Parallel
  }

  // --- a paused rollout is held --------------------------------------------

  // When the rows read paused there is a failed row that keeps every later
  // deployment from starting its copy (unless it copies in parallel) and every
  // later row from cutting over, and live work really is waiting behind it. What
  // it does not hold is a stopped row that a start request resumes.
  lemma PausedHoldsLaterDeployments(b: Board) returns (f: nat)
    requires UniformPolicy(b, Pause) && ApplyStateOf(b) == State.Paused
    ensures f < |b.rows| && b.rows[f].state == Failed
    ensures exists k :: f < k < |b.rows| && !IsTerminal(b.rows[k].state)
    ensures forall k :: f < k < |b.rows| && CopiesBehind(b, f, k) ==> !CopyClaimable(b, k)
    ensures forall k :: f < k < |b.rows| ==> !CutoverClaimable(b, k)
    ensures forall k :: f < k < |b.rows| ==> (ResumeClaimable(b, k) <==> b.rows[k].state == Stopped && b.startPending)
  {
    var children := ChildrenOf(b);
    PausedIffHeld(children);
    f :| 0 <= f < |children| && HoldsRollout(children, f);
    assert !b.released;
    forall k | f < k < |b.rows|
      ensures !CutoverClaimable(b, k)
      ensures CopiesBehind(b, f, k) ==> !CopyClaimable(b, k)
    {
      assert b.rows[f].state != Completed && !Exempt(b, f, k);
    }
    var k :| f < k < |children| && !IsTerminal(children[k].state);
    assert !IsTerminal(b.rows[k].state);
  }

  // Releasing lifts the hold: the rows no longer read paused and no failed row
  // blocks anything any more.
  lemma ReleaseLiftsTheHold(b: Board)
    requires UniformPolicy(b, Pause) && b.released
    ensures ApplyStateOf(b) != State.Paused
    ensures forall j, k :: 0 <= j < |b.rows| && 0 <= k < |b.rows| && b.rows[j].state == Failed ==> Exempt(b, j, k)
  {
    var children := ChildrenOf(b);
    PausedIffHeld(children);
    assert !AnyHold(children) by {
      assert forall i :: 0 <= i < |children| ==> !children[i].pauseOnFailure;
    }
  }

  // --- a live rollout can move ---------------------------------------------

  predicate Parked(r: Row) {
    r.state == WaitingForCutover && OrderedCutover(r.cutover)
  }

  // Nobody is driving: every row waits to be claimed or is terminal.
  predicate Quiet(b: Board) {
    forall i :: 0 <= i < |b.rows| ==> b.rows[i].state == Pending || Parked(b.rows[i]) || IsTerminal(b.rows[i].state)
  }

  predicate Claimable(b: Board, i: nat)
    requires i < |b.rows|
  {
    CopyClaimable(b, i) || CutoverClaimable(b, i) || ResumeClaimable(b, i) || AgainClaimable(b, i)
  }

  // Some driver may claim some row.
  predicate CanMove(b: Board) {
    exists i :: 0 <= i < |b.rows| && Claimable(b, i)
  }

  function ClaimOf(b: Board, i: nat): Event
    requires i < |b.rows|
  {
    if CopyClaimable(b, i) then ClaimCopy(i)
    else if CutoverClaimable(b, i) then ClaimCutover(i)
    else if ResumeClaimable(b, i) then ClaimResume(i)
    else ClaimAgain(i)
  }

  // Under a live parent a claim is a move: the row is driven two steps later.
  lemma ClaimedRowIsDriven(b: Board, i: nat)
    requires i < |b.rows| && Claimable(b, i) && !IsTerminal(b.parent)
    ensures Step(Step(b, ClaimOf(b, i)), LoadParent(i)).rows[i].hold == Driving
  {
    ClaimStep(b, ClaimOf(b, i), i);
    LoadStep(Step(b, ClaimOf(b, i)), i);
  }

  // A quiet multi-operation rollout that nobody stops or defers, whose rows read
  // live and not paused.
  predicate LiveAndQuiet(b: Board, onFailure: OnFailure) {
    && UniformPolicy(b, onFailure) && !b.stopPending && !b.deferCutover && |b.rows| > 1 && Quiet(b)
    && !IsTerminal(ApplyStateOf(b)) && ApplyStateOf(b) != State.Paused
  }

  // The fan-out appends one target's rows after another's.
  predicate Contiguous(b: Board) {
    forall i, j, k :: 0 <= i < k < j < |b.rows| && b.rows[i].deployment == b.rows[j].deployment ==>
      b.rows[k].deployment == b.rows[i].deployment
  }

  // No row before u is anything but completed or failed.
  predicate FirstUnsettled(b: Board, u: nat) {
    && u < |b.rows| && !Settled(b.rows[u].state)
    && forall j :: 0 <= j < u ==> Settled(b.rows[j].state)
  }

  lemma {:induction false} FindFirstUnsettled(b: Board, from: nat, live: nat) returns (u: nat)
    requires from <= live < |b.rows| && !Settled(b.rows[live].state)
    requires forall j :: 0 <= j < from ==> Settled(b.rows[j].state)
    ensures FirstUnsettled(b, u) && u <= live
    decreases live - from
  {
    if Settled(b.rows[from].state) {
      u := FindFirstUnsettled(b, from + 1, live);
    } else {
      u := from;
    }
  }

  lemma LiveApplyHasALiveRow(b: Board) returns (k: nat)
    requires |b.rows| > 0 && !IsTerminal(ApplyStateOf(b))
    ensures k < |b.rows| && !IsTerminal(b.rows[k].state)
  {
    var children := ChildrenOf(b);
    if AllTerminal(children) {
      SettledChildrenSettleTheApply(children);
    }
    k :| 0 <= k < |children| && !IsTerminal(children[k].state);
  }

  // While the rows read live and unpaused, every failed row in front of live work
  // is one the gates skip.
  lemma FailuresAheadAreExempt(b: Board, onFailure: OnFailure, j: nat, k: nat)
    requires UniformPolicy(b, onFailure)
    requires !IsTerminal(ApplyStateOf(b)) && ApplyStateOf(b) != State.Paused
    requires j < k < |b.rows| && b.rows[j].state == Failed && !IsTerminal(b.rows[k].state)
    ensures Exempt(b, j, k)
  {
    var children := ChildrenOf(b);
    FailureVerdictIsOnlyDelayed(children, j);
    PausedIffHeld(children);
    assert LaterLiveWork(children, j) by {
      assert !IsTerminal(children[k].state);
    }
    assert !HardFailure(children[j]) && !HoldsRollout(children, j);
  }

  // Pending work of the first unsettled row's deployment, or copied in parallel.
  predicate WorkIsReady(b: Board, u: nat, i: nat)
    requires u < |b.rows| && i < |b.rows|
  {
    && b.rows[i].state == Pending && b.rows[i].kind == Work
    && (b.rows[i].deployment == b.rows[u].deployment || b.rows[i].cutover == Parallel)
  }

  // A pending finalizer whose namespace's work is complete.
  predicate FinalizerIsReady(b: Board, f: nat)
    requires f < |b.rows|
  {
    b.rows[f].state == Pending && b.rows[f].kind == Finalizer && OpenToFinalize(b, f)
  }

  predicate Ready(b: Board, u: nat, i: nat)
    requires u < |b.rows| && i < |b.rows|
  {
    || WorkIsReady(b, u, i)
    || FinalizerIsReady(b, i)
    || (b.startPending && (b.rows[i].state == Stopped || (Parked(b.rows[i]) && b.parent == WaitingForDeploy)))
  }

  lemma ReadyWorkIsClaimable(b: Board, onFailure: OnFailure, u: nat, i: nat)
    requires LiveAndQuiet(b, onFailure) && Contiguous(b) && FirstUnsettled(b, u) && i < |b.rows| && WorkIsReady(b, u, i)
    ensures CopyClaimable(b, i)
  {
    forall j | 0 <= j < i && b.rows[j].deployment != b.rows[i].deployment
        && BlocksCopy(b.rows[j].state, b.rows[i].cutover)
      ensures Exempt(b, j, i)
    {
      BlockersComeFirst(b, u, i, j);
      FailuresAheadAreExempt(b, onFailure, j, i);
    }
  }

  lemma BlockersComeFirst(b: Board, u: nat, i: nat, j: nat)
    requires Contiguous(b) && FirstUnsettled(b, u) && j < i < |b.rows| && WorkIsReady(b, u, i)
    requires b.rows[j].deployment != b.rows[i].deployment && BlocksCopy(b.rows[j].state, b.rows[i].cutover)
    ensures j < u && b.rows[j].state == Failed
  {
  }

  lemma ParkedFirstIsClaimable(b: Board, onFailure: OnFailure, u: nat)
    requires LiveAndQuiet(b, onFailure) && FirstUnsettled(b, u) && Parked(b.rows[u])
    ensures CutoverClaimable(b, u)
  {
    forall j | 0 <= j < u && b.rows[j].state != Completed
      ensures Exempt(b, j, u)
    {
      FailuresAheadAreExempt(b, onFailure, j, u);
    }
  }

  // Unless it is parked, the first unsettled row blocks the work of every later
  // deployment that does not copy in parallel.
  lemma FirstUnsettledBlocks(b: Board, u: nat, i: nat)
    requires Quiet(b) && FirstUnsettled(b, u) && u < i < |b.rows| && !Parked(b.rows[u])
    requires b.rows[i].deployment != b.rows[u].deployment && b.rows[i].cutover != Parallel
    ensures !OpenToWork(b, i)
  {
    assert BlocksCopy(b.rows[u].state, b.rows[i].cutover) && !Exempt(b, u, i);
  }

  lemma OnlyTheFirstUnsettledCutsOver(b: Board, u: nat, i: nat)
    requires FirstUnsettled(b, u) && i < |b.rows| && CutoverClaimable(b, i)
    ensures i == u && Parked(b.rows[u])
  {
    CutoverFollowsSettledRows(b, i);
  }

  lemma ClaimableIsReady(b: Board, u: nat, i: nat)
    requires Quiet(b) && FirstUnsettled(b, u) && i < |b.rows|
    requires |b.rows| > 1 && Claimable(b, i)
    ensures Ready(b, u, i) || Parked(b.rows[u])
  {
    if CutoverClaimable(b, i) {
      OnlyTheFirstUnsettledCutsOver(b, u, i);
    } else if CopyClaimable(b, i) && b.rows[i].kind == Work && u < i && !Parked(b.rows[u]) && !WorkIsReady(b, u, i) {
      FirstUnsettledBlocks(b, u, i);
    }
  }

  /** Exactly when a quiet rollout that reads live can move, whatever its policies,
      finalizers and shards: its first unsettled row is parked, or some pending work
      belongs to that row's deployment or copies in parallel, or some pending
      finalizer's work is complete, or a start is pending and some row is stopped, or
      parked under a parent that waits for its deploy. Failed rows never matter. */
  lemma LiveRolloutCanMoveIff(b: Board, onFailure: OnFailure, u: nat)
    requires LiveAndQuiet(b, onFailure) && Contiguous(b) && FirstUnsettled(b, u)
    ensures CanMove(b) <==> Parked(b.rows[u]) || exists i :: 0 <= i < |b.rows| && Ready(b, u, i)
  {
    if i :| 0 <= i < |b.rows| && Claimable(b, i) {
      ClaimableIsReady(b, u, i);
      assert Parked(b.rows[u]) || Ready(b, u, i);
    }
    if Parked(b.rows[u]) {
      ParkedFirstIsClaimable(b, onFailure, u);
      assert Claimable(b, u);
    } else if i :| 0 <= i < |b.rows| && Ready(b, u, i) {
      if WorkIsReady(b, u, i) {
        ReadyWorkIsClaimable(b, onFailure, u, i);
      }
      assert Claimable(b, i);
    }
  }

  // The fan-out puts a finalizer after its deployment's work.
  predicate FinalizersFollowWork(b: Board) {
    forall w, f :: 0 <= w < |b.rows| && 0 <= f < |b.rows| && b.rows[f].kind == Finalizer && WorkOf(b, w, f) ==> w < f
  }

  predicate WaitsOnFailedWork(b: Board, f: nat) {
    && f < |b.rows| && b.rows[f].kind == Finalizer && b.rows[f].state == Pending
    && exists w :: 0 <= w < |b.rows| && WorkOf(b, w, f) && b.rows[w].state == Failed
  }

  // Stopped, cancelled or reverted.
  predicate Halted(r: Row) {
    IsTerminal(r.state) && !Settled(r.state)
  }

  /** So there are two ways to be stuck. The first unsettled row was halted, and not
      stopped with a start pending; or it is a finalizer that waits on failed work of
      its namespace. */
  lemma StuckOnlyBehindFailedWork(b: Board, onFailure: OnFailure, u: nat)
    requires LiveAndQuiet(b, onFailure) && Contiguous(b) && FinalizersFollowWork(b) && FirstUnsettled(b, u)
    ensures !CanMove(b) ==>
              WaitsOnFailedWork(b, u) || (Halted(b.rows[u]) && !(b.rows[u].state == Stopped && b.startPending))
  {
    LiveRolloutCanMoveIff(b, onFailure, u);
    if !CanMove(b) {
      assert !Ready(b, u, u);
      if b.rows[u].state == Pending {
        var w :| 0 <= w < |b.rows| && WorkOf(b, w, u) && b.rows[w].state != Completed;
        assert w < u;
      }
    }
  }

  /** In particular a rollout moves in which no finalizer waits on failed work and no
      row was halted, except to be resumed. */
  lemma LiveRolloutCanMove(b: Board, onFailure: OnFailure)
    requires LiveAndQuiet(b, onFailure) && Contiguous(b) && FinalizersFollowWork(b)
    requires forall i :: 0 <= i < |b.rows| && Halted(b.rows[i]) ==> b.rows[i].state == Stopped && b.startPending
    requires forall f :: 0 <= f < |b.rows| ==> !WaitsOnFailedWork(b, f)
    ensures CanMove(b)
  {
    var k := LiveApplyHasALiveRow(b);
    var u := FindFirstUnsettled(b, 0, k);
    StuckOnlyBehindFailedWork(b, onFailure, u);
  }

  // Stopping settles: once nobody drives and nothing is parked, moving the
  // pending rows to stopped makes the apply terminal, whatever the policies.
  lemma StopSettlesTheRollout(b: Board)
    requires |b.rows| > 0
    requires forall i :: 0 <= i < |b.rows| ==> b.rows[i].state == Pending || IsTerminal(b.rows[i].state)
    ensures IsTerminal(ApplyStateOf(Step(b, StopPendingRows)))
  {
    SettledChildrenSettleTheApply(ChildrenOf(Step(b, StopPendingRows)));
  }

  // --- a finalizer behind failed work strands ------------------------------

  // Under continue a group finalizer waits for its namespace's work to complete,
  // and a failed work row that nobody holds never does.
  predicate FinalizerBehindFailure(b: Board, w: nat, f: nat) {
    && w < |b.rows| && f < |b.rows| && WorkOf(b, w, f)
    && b.rows[w].state == Failed && b.rows[w].hold == Free
    && b.rows[f].kind == Finalizer && b.rows[f].state == Pending && b.rows[f].hold == Free
  }

  lemma FreeFailedRowStaysIff(b: Board, e: Event, w: nat)
    requires w < |b.rows| && b.rows[w].state == Failed && b.rows[w].hold == Free
    ensures Step(b, e).rows[w] == b.rows[w] <==> !(e.Reapply? && Reappliable(b))
    ensures Step(b, e).rows[w].state == Failed <==> !(e.Reapply? && Reappliable(b))
  {
  }

  lemma FreePendingRowStaysIff(b: Board, e: Event, f: nat)
    requires f < |b.rows| && b.rows[f].state == Pending && b.rows[f].hold == Free && !CopyClaimable(b, f)
    ensures Step(b, e).rows[f] == b.rows[f] <==> !e.StopPendingRows?
    ensures Step(b, e).rows[f].state == Pending <==> !e.StopPendingRows?
  {
  }

  // Exactly a stop or a reapply ends it.
  lemma FinalizerStaysBehindIff(b: Board, e: Event, w: nat, f: nat)
    requires FinalizerBehindFailure(b, w, f)
    ensures FinalizerBehindFailure(Step(b, e), w, f) <==> !e.StopPendingRows? && !(e.Reapply? && Reappliable(b))
  {
    assert !OpenToFinalize(b, f);
    FreeFailedRowStaysIff(b, e, w);
    FreePendingRowStaysIff(b, e, f);
  }

  lemma StrandedNow(b: Board, w: nat, f: nat)
    requires FinalizerBehindFailure(b, w, f) && UniformPolicy(b, Continue)
    ensures ApplyStateOf(b) == RunningDegraded
    ensures forall k :: f < k < |b.rows| && CopiesBehind(b, f, k) ==> !CopyClaimable(b, k)
  {
    var children := ChildrenOf(b);
    FailureVerdictIsOnlyDelayed(children, w);
    PausedIffHeld(children);
    assert !AnyHardFailure(children) && !AnyHold(children) by {
      assert forall i :: 0 <= i < |children| ==> children[i].continueOnFailure && !children[i].pauseOnFailure;
    }
    assert !IsTerminal(children[f].state);
    forall k | f < k < |b.rows| && CopiesBehind(b, f, k)
      ensures !CopyClaimable(b, k)
    {
      assert !Exempt(b, f, k);
    }
  }

  ghost predicate StaysBehind(b: Board, es: seq<Event>, w: nat, f: nat) {
    forall k :: 0 <= k <= |es| ==> FinalizerBehindFailure(At(b, es, k), w, f)
  }

  ghost predicate NeitherStoppedNorReapplied(b: Board, es: seq<Event>) {
    forall k :: 0 <= k < |es| ==> !es[k].StopPendingRows? && !(es[k].Reapply? && Happens(b, es, k))
  }

  lemma {:induction false} BehindUpTo(b: Board, es: seq<Event>, w: nat, f: nat, k: nat)
    requires k <= |es| && FinalizerBehindFailure(b, w, f) && NeitherStoppedNorReapplied(b, es)
    ensures FinalizerBehindFailure(At(b, es, k), w, f)
  {
    if k == 0 {
      assert es[..0] == [];
    } else {
      BehindUpTo(b, es, w, f, k - 1);
      StepAt(b, es, k - 1);
      FinalizerStaysBehindIff(At(b, es, k - 1), es[k - 1], w, f);
    }
  }

  /** A finalizer behind failed work stays there throughout a run exactly when the
      run neither stops the pending rows nor reapplies the apply. */
  lemma StrandedUntilStoppedOrReapplied(b: Board, es: seq<Event>, w: nat, f: nat)
    requires FinalizerBehindFailure(b, w, f)
    ensures StaysBehind(b, es, w, f) <==> NeitherStoppedNorReapplied(b, es)
  {
    if NeitherStoppedNorReapplied(b, es) {
      forall k | 0 <= k <= |es|
        ensures FinalizerBehindFailure(At(b, es, k), w, f)
      {
        BehindUpTo(b, es, w, f, k);
      }
    }
    if StaysBehind(b, es, w, f) {
      forall k | 0 <= k < |es|
        ensures !es[k].StopPendingRows? && !(es[k].Reapply? && Happens(b, es, k))
      {
        StepAt(b, es, k);
        assert FinalizerBehindFailure(At(b, es, k), w, f) && FinalizerBehindFailure(At(b, es, k + 1), w, f);
        FinalizerStaysBehindIff(At(b, es, k), es[k], w, f);
      }
    }
  }

  /** And for as long as it does, under continue the rows read running_degraded and
      no later deployment that copies in order starts. */
  lemma FinalizerBehindFailureStrands(b: Board, es: seq<Event>, w: nat, f: nat)
    requires FinalizerBehindFailure(b, w, f) && UniformPolicy(b, Continue) && NeitherStoppedNorReapplied(b, es)
    ensures var c := After(b, es);
            && ApplyStateOf(c) == RunningDegraded
            && (forall k :: f < k < |c.rows| && CopiesBehind(c, f, k) ==> !CopyClaimable(c, k))
  {
    assert es[..|es|] == es;
    BehindUpTo(b, es, w, f, |es|);
    RunKeepsRows(b, es, |es|);
    var c := At(b, es, |es|);
    assert UniformPolicy(c, Continue) by {
      assert forall i :: 0 <= i < |b.rows| ==> SameRow(c.rows[i], b.rows[i]);
    }
    StrandedNow(c, w, f);
  }
}
