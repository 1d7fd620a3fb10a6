/**
 What the claim gates admit (pkg/storage/mysqlstore/apply_operations.go), row by
 row and in the rows' own states and policies, and what the copy gate keeps in
 every run: the copies of a rollout go through its deployments one at a time.
 */
module Gates {
  import opened Wrappers
  import opened States
  import opened Claims

  // --- what each gate admits -----------------------------------------------

  // A failed row that the policy of the claiming row lets it pass.
  predicate Passes(b: Board, j: int, onFailure: OnFailure)
    requires 0 <= j < |b.rows|
  {
    b.rows[j].state == Failed && (onFailure == Continue || (onFailure == Pause && b.released))
  }

  // What the row j of an earlier deployment must have reached.
  predicate LetsCopy(b: Board, j: int, cutover: CutoverPolicy, onFailure: OnFailure)
    requires 0 <= j < |b.rows|
  {
    match cutover
    case Parallel => true
    case Barrier =>
      b.rows[j].state in {WaitingForCutover, CuttingOver, RevertWindow, Completed} || Passes(b, j, onFailure)
    case _ => b.rows[j].state == Completed || Passes(b, j, onFailure)
  }

  // A work row's copy may start: no stop is pending, and every row of an earlier
  // deployment lets it.
  predicate MayCopy(b: Board, i: int, cutover: CutoverPolicy, onFailure: OnFailure)
    requires 0 <= i < |b.rows|
  {
    && b.rows[i].state == Pending && !b.stopPending
    && forall j :: 0 <= j < i && b.rows[j].deployment != b.rows[i].deployment ==> LetsCopy(b, j, cutover, onFailure)
  }

  lemma BlocksIff(b: Board, j: nat, i: nat)
    requires j < |b.rows| && i < |b.rows|
    ensures BlocksCopy(b.rows[j].state, b.rows[i].cutover) && !Exempt(b, j, i)
            <==> !LetsCopy(b, j, b.rows[i].cutover, b.rows[i].onFailure)
  {
  }

  lemma CopyClaimIff(b: Board, i: nat)
    requires i < |b.rows| && b.rows[i].kind == Work
    ensures Enabled(b, ClaimCopy(i)) <==> MayCopy(b, i, b.rows[i].cutover, b.rows[i].onFailure)
  {
    forall j | 0 <= j < i
      ensures BlocksCopy(b.rows[j].state, b.rows[i].cutover) && !Exempt(b, j, i)
              <==> !LetsCopy(b, j, b.rows[i].cutover, b.rows[i].onFailure)
    {
      BlocksIff(b, j, i);
    }
  }

  /** At every step of every run, whatever the steps: a work row's copy is claimed
      exactly when its own policies, as they were captured, let it. Under barrier
      every row of an earlier deployment is parked, cutting over, in its revert
      window or completed; otherwise completed; or it failed and may be passed. */
  lemma CopyClaimInARunIff(b: Board, es: seq<Event>, k: nat, i: nat)
    requires k < |es| && es[k] == ClaimCopy(i) && i < |b.rows| && b.rows[i].kind == Work
    ensures Happens(b, es, k) <==> MayCopy(At(b, es, k), i, b.rows[i].cutover, b.rows[i].onFailure)
  {
    RunKeepsRows(b, es, k);
    CopyClaimIff(At(b, es, k), i);
  }

  predicate FinalizedBy(w: Row, f: Row) {
    w.kind == Work && w.deployment == f.deployment && w.namespace == f.namespace
  }

  /** A finalizer is claimed exactly when the work of its deployment and namespace
      completed, wherever the other deployments are. */
  lemma FinalizerClaimIff(b: Board, i: nat)
    requires i < |b.rows| && b.rows[i].kind == Finalizer
    ensures Enabled(b, ClaimCopy(i))
            <==> && b.rows[i].state == Pending && !b.stopPending
                 && forall j :: 0 <= j < |b.rows| && FinalizedBy(b.rows[j], b.rows[i]) ==> b.rows[j].state == Completed
  {
    if b.rows[i].state == Pending && !b.stopPending && !OpenToFinalize(b, i) {
      var j :| 0 <= j < |b.rows| && WorkOf(b, j, i) && b.rows[j].state != Completed;
    }
  }

  /** A parked row is claimed for cutover exactly when every row before it completed
      or failed in a way it may pass. */
  lemma CutoverClaimIff(b: Board, i: nat)
    requires i < |b.rows|
    ensures Enabled(b, ClaimCutover(i))
            <==> && b.rows[i].state == WaitingForCutover && b.rows[i].cutover in {Barrier, Parallel}
                 && |b.rows| > 1 && !b.deferCutover && !b.stopPending
                 && forall j :: 0 <= j < i ==> b.rows[j].state == Completed || Passes(b, j, b.rows[i].onFailure)
  {
    assert forall j :: 0 <= j < i ==> (Exempt(b, j, i) <==> Passes(b, j, b.rows[i].onFailure));
  }

  // What a driver may have left behind.
  const ABANDONED := {
    Running, RunningDegraded, Resuming, WaitingForDeploy, WaitingForCutover, Recovering, CuttingOver, RevertWindow,
    Reverting, SkippingRevert, PreparingBranch, ApplyingBranchChanges, ValidatingBranch, CreatingDeployRequest,
    ValidatingDeployRequest
  }

  /** A stopped row is claimed exactly when a start is pending. A row that began is
      claimed again unless it is parked for an ordered cutover, a parked one only to
      start a deferred deploy, and one to be retried with its parent. */
  lemma OtherClaimsIff(b: Board, i: nat)
    requires i < |b.rows|
    ensures Enabled(b, ClaimResume(i)) <==> b.rows[i].state == Stopped && b.startPending
    ensures var row := b.rows[i];
            var parked := row.state == WaitingForCutover && row.cutover in {Barrier, Parallel} && |b.rows| > 1;
            Enabled(b, ClaimAgain(i))
            <==> || (row.state in ABANDONED && (!parked || (b.parent == WaitingForDeploy && b.startPending)))
                 || (row.state == FailedRetryable && (b.parent == FailedRetryable || b.parent in ABANDONED))
  {
    assert Active(b.rows[i].state) <==> b.rows[i].state in ABANDONED;
    assert Active(b.parent) <==> b.parent in ABANDONED;
  }

  // --- what claims and results write ---------------------------------------

  /** A claim leaves its row running, resuming or cutting over, and a row claimed
      again as it was; no other row moves. */
  lemma ClaimsWrite(b: Board, e: Event, i: nat, k: nat)
    requires i < |b.rows| && k < |b.rows| && ClaimsRow(e, i) && Enabled(b, e)
    ensures var after := Step(b, e).rows[k];
            if k != i then after == b.rows[k]
            else
              && after.hold == Claimed
              && after.state == match e
                                case ClaimCopy(_) => Running
                                case ClaimResume(_) => Resuming
                                case ClaimCutover(_) => CuttingOver
                                case _ => b.rows[i].state
  {
  }

  const WRITTEN := {WaitingForCutover, FailedRetryable, Completed, Failed, Stopped, Cancelled, Reverted}

  /** A drive's result is written exactly if it is waiting_for_cutover,
      failed_retryable or one of the five that end an operation; any other leaves the
      row's state to be claimed again. Either way the row is free. */
  lemma ResultsWrite(b: Board, i: nat, result: State)
    requires i < |b.rows| && b.rows[i].hold == Driving
    ensures var after := Step(b, Report(i, result)).rows[i];
            && after.hold == Free
            && after.state == if result in WRITTEN then result else b.rows[i].state
  {
  }

  /** A row claimed under a terminal parent ends up in the parent's state, and free. */
  lemma MirrorWrites(b: Board, i: nat)
    requires i < |b.rows| && b.rows[i].hold == Claimed && b.parent in {Completed, Failed, Stopped, Cancelled, Reverted}
    ensures Step(Step(b, LoadParent(i)), Mirror(i)).rows[i] == b.rows[i].(state := b.parent, hold := Free)
  {
    var c := Step(b, LoadParent(i));
    assert c.rows[i].hold == Mirroring(b.parent);
  }

  /** A failed apply is reapplied exactly if no row was stopped, cancelled or reverted;
      then it and its failed rows are to be retried, those rows by anyone. */
  lemma ReapplyWrites(b: Board, k: nat)
    requires k < |b.rows|
    ensures Enabled(b, Reapply)
            <==> && b.parent == Failed
                 && forall i :: 0 <= i < |b.rows| ==> b.rows[i].state !in {Stopped, Cancelled, Reverted}
    ensures Enabled(b, Reapply) ==>
              && Step(b, Reapply).parent == FailedRetryable
              && Step(b, Reapply).rows[k]
                 == if b.rows[k].state == Failed then b.rows[k].(state := FailedRetryable, hold := Free) else b.rows[k]
  {
  }

  /** An apply to be retried expires with its rows, which keep their holders; a stop
      moves exactly the pending rows, and not the apply. */
  lemma ExpiryAndStopWrite(b: Board, k: nat)
    requires k < |b.rows|
    ensures Enabled(b, Expire) <==> b.parent == FailedRetryable
    ensures Enabled(b, Expire) ==>
              && Step(b, Expire).parent == Failed
              && Step(b, Expire).rows[k]
                 == if b.rows[k].state == FailedRetryable then b.rows[k].(state := Failed) else b.rows[k]
    ensures Step(b, StopPendingRows).parent == b.parent
    ensures Step(b, StopPendingRows).rows[k]
            == if b.rows[k].state == Pending then b.rows[k].(state := Stopped) else b.rows[k]
    ensures Step(b, StartParent).parent == if b.parent == Pending then Running else b.parent
  {
  }

  // --- copies go one deployment at a time ----------------------------------

  predicate NoParallelCopies(b: Board) {
    forall i :: 0 <= i < |b.rows| ==> b.rows[i].cutover != Parallel
  }

  // Work that runs its copy has no row of an earlier deployment that is still to
  // start or running.
  predicate CopiesInOrder(b: Board) {
    forall i, j :: 0 <= j < i < |b.rows| && b.rows[i].kind == Work && b.rows[i].state == Running
                   && b.rows[j].deployment != b.rows[i].deployment ==>
      b.rows[j].state != Pending && b.rows[j].state != Running
  }

  // Only a copy claim makes a row running, and nothing makes one pending.
  lemma BecomesRunning(b: Board, e: Event, i: nat)
    requires i < |b.rows|
    ensures Step(b, e).rows[i].state == Running ==>
              b.rows[i].state == Running || (e == ClaimCopy(i) && Enabled(b, e) && b.rows[i].state == Pending)
    ensures Step(b, e).rows[i].state == Pending ==> b.rows[i].state == Pending
  {
  }

  lemma StepKeepsCopiesInOrder(b: Board, e: Event)
    requires NoParallelCopies(b) && CopiesInOrder(b)
    ensures NoParallelCopies(Step(b, e)) && CopiesInOrder(Step(b, e))
  {
    var c := Step(b, e);
    forall i | 0 <= i < |c.rows|
      ensures c.rows[i].cutover != Parallel
    {
      StepKeepsRow(b, e, i);
    }
    forall i, j | 0 <= j < i < |c.rows| && c.rows[i].kind == Work && c.rows[i].state == Running
                  && c.rows[j].deployment != c.rows[i].deployment
      ensures c.rows[j].state != Pending && c.rows[j].state != Running
    {
      StepKeepsRow(b, e, i);
      StepKeepsRow(b, e, j);
      BecomesRunning(b, e, i);
      BecomesRunning(b, e, j);
      if b.rows[i].state != Running {
        CopyClaimIff(b, i);
        assert LetsCopy(b, j, b.rows[i].cutover, b.rows[i].onFailure);
      }
    }
  }

  /** In every run, with resumes, reapplies and expiries too, a rolling or barrier
      rollout runs the copies of one deployment at a time, and none before those of
      every earlier deployment have at least begun. */
  lemma {:induction false} OneDeploymentCopies(b: Board, es: seq<Event>)
    requires NoParallelCopies(b) && CopiesInOrder(b)
    ensures var c := After(b, es);
            && NoParallelCopies(c) && CopiesInOrder(c)
            && forall i, j :: 0 <= i < |c.rows| && 0 <= j < |c.rows| && c.rows[i].kind == Work && c.rows[j].kind == Work
                              && c.rows[i].state == Running && c.rows[j].state == Running ==>
                 c.rows[i].deployment == c.rows[j].deployment
  {
    if |es| == 0 {
    } else {
      OneDeploymentCopies(b, es[..|es| - 1]);
      StepKeepsCopiesInOrder(After(b, es[..|es| - 1]), es[|es| - 1]);
    }
  }
}
