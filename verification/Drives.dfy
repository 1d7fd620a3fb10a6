/**
 Which claimed rows are really driven (driveClaimedMultiOperation in
 pkg/api/operator.go), and in which order. A driver looks at the stored parent
 after it claimed a row: under a terminal parent it only writes that state onto
 the row.
 */
module Drives {
  import opened Wrappers
  import opened States
  import opened Rollout
  import opened Claims

  predicate NoneDriving(b: Board) {
    forall i :: 0 <= i < |b.rows| ==> b.rows[i].hold != Driving
  }

  // A row starts being driven exactly when its claimer finds the parent live.
  lemma DriveBeginsIff(b: Board, e: Event, i: nat)
    requires i < |b.rows| && b.rows[i].hold != Driving
    ensures Step(b, e).rows[i].hold == Driving
            <==> e == LoadParent(i) && b.rows[i].hold == Claimed && !IsTerminal(b.parent)
  {
  }

  // --- the parent over a run -----------------------------------------------

  predicate ReopeningVerdict(v: Verdict) {
    v.base == Failed && v.derived == RunningDegraded
  }

  predicate Reopens(b: Board, e: Event) {
    && e.Project? && e.reopen && Enabled(b, e) && b.copies[e.driver].parent == Failed
    && ReopeningVerdict(b.copies[e.driver].verdict.value)
  }

  /** A terminal parent turns live exactly when it failed and is reapplied, or is
      reopened by a projection that may do so. */
  lemma ParentTurnsLiveIff(b: Board, e: Event)
    requires IsTerminal(b.parent)
    ensures !IsTerminal(Step(b, e).parent) <==> b.parent == Failed && ((e.Reapply? && Reappliable(b)) || Reopens(b, e))
  {
  }

  predicate TurnsLive(b: Board, es: seq<Event>, k: nat)
    requires k < |es|
  {
    IsTerminal(At(b, es, k).parent) && !IsTerminal(At(b, es, k + 1).parent)
  }

  lemma {:induction false} NothingIsDrivenUnderATerminalParent(b: Board, es: seq<Event>, k: nat)
    requires k <= |es| && IsTerminal(b.parent) && NoneDriving(b)
    requires forall m :: 0 <= m < k ==> !TurnsLive(b, es, m)
    ensures IsTerminal(At(b, es, k).parent) && NoneDriving(At(b, es, k))
  {
    if k == 0 {
      assert es[..0] == [];
    } else {
      NothingIsDrivenUnderATerminalParent(b, es, k - 1);
      var c := At(b, es, k - 1);
      StepAt(b, es, k - 1);
      assert !TurnsLive(b, es, k - 1);
      var d := Step(c, es[k - 1]);
      forall i | 0 <= i < |b.rows|
        ensures d.rows[i].hold != Driving
      {
        DriveBeginsIff(c, es[k - 1], i);
      }
    }
  }

  /** In every interleaving of claims, drives, projections from stale copies and
      control writes: if a row is driven although the parent was terminal with
      nothing driven, the parent failed and was reapplied or reopened before. */
  lemma DrivenOnlyAfterFailure(b: Board, es: seq<Event>, i: nat) returns (m: nat)
    requires IsTerminal(b.parent) && NoneDriving(b)
    requires i < |b.rows| && After(b, es).rows[i].hold == Driving
    ensures m < |es| && TurnsLive(b, es, m) && At(b, es, m).parent == Failed
    ensures (es[m].Reapply? && Reappliable(At(b, es, m))) || Reopens(At(b, es, m), es[m])
  {
    assert es[..|es|] == es;
    if !(exists k :: 0 <= k < |es| && TurnsLive(b, es, k)) {
      NothingIsDrivenUnderATerminalParent(b, es, |es|);
      assert false;
    }
    m :| 0 <= m < |es| && TurnsLive(b, es, m);
    StepAt(b, es, m);
    ParentTurnsLiveIff(At(b, es, m), es[m]);
  }

  /** So a start request resumes nothing while the apply is stopped: unless the
      parent is stored as failed on the way, no run drives any row, and no result
      of a drive is ever recorded. */
  lemma StoppedApplyIsNotResumed(b: Board, es: seq<Event>, k: nat)
    requires IsTerminal(b.parent) && NoneDriving(b) && k <= |es|
    requires forall m :: 0 <= m <= |es| ==> At(b, es, m).parent != Failed
    ensures IsTerminal(At(b, es, k).parent) && NoneDriving(At(b, es, k))
    ensures k < |es| && es[k].Report? ==> !Happens(b, es, k)
  {
    forall m | 0 <= m < k
      ensures !TurnsLive(b, es, m)
    {
      StepAt(b, es, m);
      if IsTerminal(At(b, es, m).parent) {
        ParentTurnsLiveIff(At(b, es, m), es[m]);
      }
    }
    NothingIsDrivenUnderATerminalParent(b, es, k);
  }

  // --- under a policy that halts -------------------------------------------

  predicate Halts(b: Board) {
    && (forall i :: 0 <= i < |b.rows| ==> b.rows[i].onFailure != Continue && b.rows[i].onFailure != Pause)
    && (forall d :: d in b.copies && b.copies[d].verdict.Some? ==> !ReopeningVerdict(b.copies[d].verdict.value))
  }

  lemma HaltingVerdict(children: seq<Child>)
    requires forall i :: 0 <= i < |children| ==> children[i].continueOnFailure == children[i].pauseOnFailure
    ensures !ReopeningVerdict(VerdictOf(children))
  {
    BaseFailedIff(children);
    if DeriveApplyState(ChildStates(children)) == Failed {
      var i :| 0 <= i < |children| && children[i].state == Failed;
      assert HardFailure(children[i]);
    }
  }

  lemma StepKeepsHalting(b: Board, e: Event)
    requires Halts(b)
    ensures Halts(Step(b, e)) && !Reopens(b, e)
  {
    var c := Step(b, e);
    forall i | 0 <= i < |c.rows|
      ensures c.rows[i].onFailure != Continue && c.rows[i].onFailure != Pause
    {
      StepKeepsRow(b, e, i);
    }
    HaltingVerdict(ChildrenOf(b));
  }

  /** Under halt that needs no condition on the run: without a reapply a stopped,
      failed or otherwise terminal apply is never driven again. */
  lemma {:induction false} HaltedApplyIsNotResumed(b: Board, es: seq<Event>, k: nat)
    requires k <= |es| && IsTerminal(b.parent) && NoneDriving(b) && Halts(b)
    requires forall e <- es :: !e.Reapply?
    ensures IsTerminal(At(b, es, k).parent) && NoneDriving(At(b, es, k)) && Halts(At(b, es, k))
  {
    if k == 0 {
      assert es[..0] == [];
    } else {
      HaltedApplyIsNotResumed(b, es, k - 1);
      var c, e := At(b, es, k - 1), es[k - 1];
      StepAt(b, es, k - 1);
      assert e in es;
      StepKeepsHalting(c, e);
      ParentTurnsLiveIff(c, e);
      var d := Step(c, e);
      forall i | 0 <= i < |b.rows|
        ensures d.rows[i].hold != Driving
      {
        DriveBeginsIff(c, e, i);
      }
    }
  }

  // --- one deployment at a time --------------------------------------------

  predicate Done(r: Row) {
    Settled(r.state) && r.hold != Driving
  }

  predicate EarlierDone(b: Board, i: nat)
    requires i < |b.rows|
  {
    forall j :: 0 <= j < i && b.rows[j].deployment != b.rows[i].deployment ==> Done(b.rows[j])
  }

  predicate DrivenWork(r: Row) {
    r.kind == Work && r.hold == Driving
  }

  // Work is driven only behind earlier deployments that completed or failed.
  predicate InOrder(b: Board) {
    forall i :: 0 <= i < |b.rows| && DrivenWork(b.rows[i]) ==> EarlierDone(b, i)
  }

  lemma OneDeploymentIsDriven(b: Board, i: nat, j: nat)
    requires InOrder(b) && i < |b.rows| && j < |b.rows| && DrivenWork(b.rows[i]) && DrivenWork(b.rows[j])
    ensures b.rows[i].deployment == b.rows[j].deployment
  {
    assert EarlierDone(b, i) && EarlierDone(b, j);
  }

  // A drive begins although an earlier deployment is not done.
  predicate BeginsOutOfOrder(b: Board, e: Event) {
    && e.LoadParent? && Enabled(b, e) && !IsTerminal(b.parent)
    && b.rows[e.row].kind == Work && !EarlierDone(b, e.row)
  }

  // What the event is about to do to the done row j: a reapply takes it back to
  // be retried, a late mirror writes an unsettled state onto it, or its claimer
  // finds the parent live and drives it.
  predicate Undoes(b: Board, e: Event, j: nat)
    requires j < |b.rows|
  {
    || (e.Reapply? && Reappliable(b) && b.rows[j].state == Failed)
    || (e == Mirror(j) && b.rows[j].hold.Mirroring? && Recorded(b.rows[j].hold.parent)
        && !Settled(b.rows[j].hold.parent))
    || (e == LoadParent(j) && b.rows[j].hold == Claimed && !IsTerminal(b.parent))
  }

  // Row j is undone while a later deployment's row i is driven. A reapply ends the
  // drive of a failed row.
  predicate UndoesAhead(b: Board, e: Event, j: nat, i: nat) {
    && j < i < |b.rows| && b.rows[j].deployment != b.rows[i].deployment
    && DrivenWork(b.rows[i]) && !(e.Reapply? && b.rows[i].state == Failed)
    && Done(b.rows[j]) && Undoes(b, e, j)
  }

  predicate Breaks(b: Board, e: Event) {
    BeginsOutOfOrder(b, e) || exists j, i :: 0 <= j < i < |b.rows| && UndoesAhead(b, e, j, i)
  }

  // The condition is exact: a done row stops being done in precisely these ways.
  lemma UndoneIff(b: Board, e: Event, j: nat)
    requires j < |b.rows| && Done(b.rows[j])
    ensures !Done(Step(b, e).rows[j]) <==> Undoes(b, e, j)
  {
  }

  // A drive that goes on through a step that undoes a row: every one but that of a
  // failed row under a reapply.
  lemma DriveGoesOnIff(b: Board, e: Event, j: nat, i: nat)
    requires j < |b.rows| && i < |b.rows| && Done(b.rows[j]) && b.rows[i].hold == Driving && Undoes(b, e, j)
    ensures Step(b, e).rows[i].hold == Driving <==> !(e.Reapply? && b.rows[i].state == Failed)
  {
  }

  lemma BrokenOrder(b: Board, e: Event)
    requires Breaks(b, e)
    ensures !InOrder(Step(b, e))
  {
    var c := Step(b, e);
    if BeginsOutOfOrder(b, e) {
      var i := e.row;
      var j :| 0 <= j < i && b.rows[j].deployment != b.rows[i].deployment && !Done(b.rows[j]);
      StepKeepsRow(b, e, i);
      assert c.rows[j] == b.rows[j] && DrivenWork(c.rows[i]);
      assert !EarlierDone(c, i);
    } else {
      var j, i :| 0 <= j < i < |b.rows| && UndoesAhead(b, e, j, i);
      StepKeepsRow(b, e, i);
      StepKeepsRow(b, e, j);
      UndoneIff(b, e, j);
      DriveGoesOnIff(b, e, j, i);
      assert !EarlierDone(c, i);
    }
  }

  /** A step keeps the order exactly when it neither begins a drive out of order
      nor undoes a deployment ahead of a driven one. */
  lemma StepKeepsOrderIff(b: Board, e: Event)
    requires InOrder(b)
    ensures InOrder(Step(b, e)) <==> !Breaks(b, e)
  {
    var c := Step(b, e);
    if Breaks(b, e) {
      BrokenOrder(b, e);
    } else {
      forall i, j | 0 <= j < i < |c.rows| && DrivenWork(c.rows[i]) && c.rows[j].deployment != c.rows[i].deployment
        ensures Done(c.rows[j])
      {
        StaysDone(b, e, j, i);
      }
    }
  }

  lemma StaysDone(b: Board, e: Event, j: nat, i: nat)
    requires InOrder(b) && !Breaks(b, e) && j < i < |b.rows|
    requires DrivenWork(Step(b, e).rows[i]) && Step(b, e).rows[j].deployment != Step(b, e).rows[i].deployment
    ensures Done(Step(b, e).rows[j])
  {
    StepKeepsRow(b, e, i);
    StepKeepsRow(b, e, j);
    if b.rows[i].hold == Driving {
      assert EarlierDone(b, i) && !UndoesAhead(b, e, j, i);
      UndoneIff(b, e, j);
      if Undoes(b, e, j) {
        DriveGoesOnIff(b, e, j, i);
      }
    } else {
      DriveBeginsIff(b, e, i);
      assert EarlierDone(b, i);
    }
  }

  ghost predicate AlwaysInOrder(b: Board, es: seq<Event>) {
    forall k :: 0 <= k <= |es| ==> InOrder(At(b, es, k))
  }

  ghost predicate NeverBreaks(b: Board, es: seq<Event>) {
    forall k :: 0 <= k < |es| ==> !Breaks(At(b, es, k), es[k])
  }

  lemma {:induction false} OrderUpTo(b: Board, es: seq<Event>, k: nat)
    requires k <= |es| && InOrder(b) && NeverBreaks(b, es)
    ensures InOrder(At(b, es, k))
  {
    if k == 0 {
      assert es[..0] == [];
    } else {
      OrderUpTo(b, es, k - 1);
      StepAt(b, es, k - 1);
      StepKeepsOrderIff(At(b, es, k - 1), es[k - 1]);
    }
  }

  /** A rollout drives one deployment at a time throughout a run exactly when no
      step of it breaks the order. */
  lemma RolloutOrderIff(b: Board, es: seq<Event>)
    requires InOrder(b)
    ensures AlwaysInOrder(b, es) <==> NeverBreaks(b, es)
  {
    if NeverBreaks(b, es) {
      forall k | 0 <= k <= |es|
        ensures InOrder(At(b, es, k))
      {
        OrderUpTo(b, es, k);
      }
    }
    if AlwaysInOrder(b, es) {
      forall k | 0 <= k < |es|
        ensures !Breaks(At(b, es, k), es[k])
      {
        StepAt(b, es, k);
        assert InOrder(At(b, es, k)) && InOrder(At(b, es, k + 1));
        StepKeepsOrderIff(At(b, es, k), es[k]);
      }
    }
  }

  // --- what the pending gate gives -----------------------------------------

  predicate SerialCopy(policy: CutoverPolicy) {
    policy != Barrier && policy != Parallel
  }

  predicate AllSerial(b: Board) {
    forall i :: 0 <= i < |b.rows| ==> SerialCopy(b.rows[i].cutover)
  }

  predicate InFlight(r: Row) {
    r.kind == Work && (r.hold != Free || (!IsTerminal(r.state) && r.state != Pending))
  }

  predicate EarlierSettled(b: Board, i: nat)
    requires i < |b.rows|
  {
    forall j :: 0 <= j < i && b.rows[j].deployment != b.rows[i].deployment ==> Settled(b.rows[j].state)
  }

  predicate InFlightInOrder(b: Board) {
    forall i :: 0 <= i < |b.rows| && InFlight(b.rows[i]) ==> EarlierSettled(b, i)
  }

  // A serial row becomes in flight only through the pending gate or a resume.
  lemma BecomesInFlight(b: Board, e: Event, i: nat)
    requires i < |b.rows| && !InFlight(b.rows[i]) && InFlight(Step(b, e).rows[i]) && !e.ClaimResume? && !e.Reapply?
    ensures e == ClaimCopy(i) && CopyClaimable(b, i)
  {
    StepKeepsRow(b, e, i);
  }

  lemma StepKeepsInFlightOrder(b: Board, e: Event)
    requires AllSerial(b) && InFlightInOrder(b) && NoHeldRowIsSettled(b)
    requires !e.ClaimResume? && !e.Reapply? && !e.Expire?
    ensures AllSerial(Step(b, e)) && InFlightInOrder(Step(b, e)) && NoHeldRowIsSettled(Step(b, e))
  {
    var c := Step(b, e);
    StepKeepsHeldUnsettled(b, e);
    forall i | 0 <= i < |c.rows|
      ensures SerialCopy(c.rows[i].cutover)
    {
      StepKeepsRow(b, e, i);
    }
    forall i, j | 0 <= j < i < |c.rows| && InFlight(c.rows[i]) && c.rows[j].deployment != c.rows[i].deployment
      ensures Settled(c.rows[j].state)
    {
      StepKeepsRow(b, e, i);
      StepKeepsRow(b, e, j);
      if !InFlight(b.rows[i]) {
        BecomesInFlight(b, e, i);
      }
      assert Settled(b.rows[j].state);
      if c.rows[j].state != b.rows[j].state {
        SettledRowMoves(b, e, j);
      }
    }
  }

  /** Within a run that resumes no stopped row and reapplies and expires nothing,
      the pending gate keeps a rolling rollout to one deployment in flight. */
  lemma {:induction false} GateKeepsRollingOrder(b: Board, es: seq<Event>)
    requires AllSerial(b) && InFlightInOrder(b) && NoHeldRowIsSettled(b)
    requires forall e <- es :: !e.ClaimResume? && !e.Reapply? && !e.Expire?
    ensures AllSerial(After(b, es)) && InFlightInOrder(After(b, es)) && NoHeldRowIsSettled(After(b, es))
    ensures InOrder(After(b, es))
  {
    if |es| == 0 {
      HeldOrderIsOrder(b);
    } else {
      var front, last := es[..|es| - 1], es[|es| - 1];
      assert last in es && forall e <- front :: e in es;
      GateKeepsRollingOrder(b, front);
      StepKeepsInFlightOrder(After(b, front), last);
      HeldOrderIsOrder(After(b, es));
    }
  }

  lemma HeldOrderIsOrder(b: Board)
    requires InFlightInOrder(b) && NoHeldRowIsSettled(b)
    ensures InOrder(b)
  {
    forall i, j | 0 <= j < i < |b.rows| && DrivenWork(b.rows[i]) && b.rows[j].deployment != b.rows[i].deployment
      ensures Done(b.rows[j])
    {
      assert InFlight(b.rows[i]) && EarlierSettled(b, i);
    }
  }

  // --- where it breaks -----------------------------------------------------

  // Two failed deployments of an apply that may be reapplied.
  predicate TwoFailedDeployments(b: Board, j: nat, i: nat) {
    && j < i < |b.rows| && Reappliable(b) && b.rows[j].deployment != b.rows[i].deployment
    && b.rows[j].state == Failed && b.rows[i].kind == Work && b.rows[i].state == Failed
  }

  function Redrive(i: nat): seq<Event> {
    [ClaimAgain(i), LoadParent(i)]
  }

  lemma ClaimAndLoad(b: Board, i: nat)
    requires i < |b.rows| && b.parent == FailedRetryable && b.rows[i].state == FailedRetryable
    ensures After(b, Redrive(i)) == WithRow(b, i, b.rows[i].(hold := Driving))
  {
    TwoSteps(b, ClaimAgain(i), LoadParent(i));
    ClaimStep(b, ClaimAgain(i), i);
    LoadStep(Step(b, ClaimAgain(i)), i);
  }

  /** A retry is not gated: after a reapply any two failed deployments of any
      rollout, a rolling one too, are driven at once. */
  lemma ReapplyDrivesTwoDeployments(b: Board, j: nat, i: nat)
    requires TwoFailedDeployments(b, j, i)
    ensures var c := After(Step(b, Reapply), Redrive(j) + Redrive(i));
            c.rows[j].hold == Driving && c.rows[i].hold == Driving && !InOrder(c)
  {
    var b1 := Step(b, Reapply);
    ClaimAndLoad(b1, j);
    var b2 := WithRow(b1, j, b1.rows[j].(hold := Driving));
    ClaimAndLoad(b2, i);
    RunsCompose(b1, Redrive(j), Redrive(i));
    var c := WithRow(b2, i, b2.rows[i].(hold := Driving));
    assert c.rows[j].deployment != c.rows[i].deployment && !Done(c.rows[j]);
    assert !EarlierDone(c, i);
  }
}
