/**
 The operation rows of one multi-operation apply: which row a driver may claim
 (pkg/storage/mysqlstore/apply_operations.go), what a claimed row's driver does
 with it (driveClaimedMultiOperation in pkg/api/operator.go), and how the stored
 parent moves (updateApplyStateFromOperations and ReapplyFailed, ExpireRetryable
 in pkg/storage/mysqlstore/applies.go).

 A `Board` is the rows in (created_at, id) order, the stored parent, the copies
 drivers hold of both, and the control requests the gates look at. A run is any
 sequence of steps; the row a claim picks is any row its gate admits, because
 locked rows are skipped.
 */
module Claims {
  import opened Wrappers
  import opened States
  import opened Rollout
  import Projection

  datatype Kind = Work | Finalizer

  // What the row's current lease holder is doing: it claimed the row and has not
  // looked at the parent yet, it drives the engine, or it found the parent
  // terminal and will write that state onto the row.
  datatype Hold = Free | Claimed | Driving | Mirroring(parent: State)

  datatype Row = Row(deployment: string, kind: Kind, namespace: string, state: State,
                     cutover: CutoverPolicy, onFailure: OnFailure, hold: Hold)

  // What a driver derived from the rows it listed.
  datatype Verdict = Verdict(base: State, derived: State)

  // A driver's copy of the parent, and its verdict on the rows listed since.
  datatype Copy = Copy(parent: State, verdict: Option<Verdict>)

  datatype Board = Board(rows: seq<Row>, parent: State, copies: map<nat, Copy>,
                         stopPending: bool, startPending: bool, released: bool, deferCutover: bool)

  function RowChildren(rows: seq<Row>, released: bool): (children: seq<Child>)
    ensures |children| == |rows|
    ensures forall i :: 0 <= i < |rows| ==> children[i] == PolicyChild(rows[i].state, rows[i].onFailure, released)
  {
    seq(|rows|, i requires 0 <= i < |rows| => PolicyChild(rows[i].state, rows[i].onFailure, released))
  }

  function ChildrenOf(b: Board): seq<Child> {
    RowChildren(b.rows, b.released)
  }

  function VerdictOf(children: seq<Child>): Verdict {
    Verdict(DeriveApplyState(ChildStates(children)), RolloutState(children))
  }

  // --- the gates -----------------------------------------------------------

  predicate OrderedCutover(policy: CutoverPolicy) {
    policy == Barrier || policy == Parallel
  }

  // A terminally failed earlier row stops blocking once the claiming row's
  // policy says to keep going.
  predicate Exempt(b: Board, earlier: nat, i: nat)
    requires earlier < |b.rows| && i < |b.rows|
  {
    b.rows[earlier].state == Failed &&
    (b.rows[i].onFailure == Continue || (b.rows[i].onFailure == Pause && b.released))
  }

  predicate BlocksCopy(earlier: State, policy: CutoverPolicy) {
    match policy
    case Barrier => !(earlier.WaitingForCutover? || earlier.CuttingOver? || earlier.RevertWindow? || earlier.Completed?)
    case Parallel => false
    case _ => !earlier.Completed?
  }

  predicate OpenToWork(b: Board, i: nat)
    requires i < |b.rows|
  {
    forall j :: 0 <= j < i && b.rows[j].deployment != b.rows[i].deployment
        && BlocksCopy(b.rows[j].state, b.rows[i].cutover)
      ==> Exempt(b, j, i)
  }

  // A work row of the finalizer's own deployment and namespace.
  predicate WorkOf(b: Board, w: nat, f: nat)
    requires w < |b.rows| && f < |b.rows|
  {
    b.rows[w].kind == Work && b.rows[w].deployment == b.rows[f].deployment && b.rows[w].namespace == b.rows[f].namespace
  }

  predicate OpenToFinalize(b: Board, i: nat)
    requires i < |b.rows|
  {
    forall j :: 0 <= j < |b.rows| && WorkOf(b, j, i) ==> b.rows[j].state == Completed
  }

  predicate CopyClaimable(b: Board, i: nat)
    requires i < |b.rows|
  {
    && b.rows[i].state == Pending
    && !b.stopPending
    && (b.rows[i].kind == Work ==> OpenToWork(b, i))
    && (b.rows[i].kind == Finalizer ==> OpenToFinalize(b, i))
  }

  predicate CutoverClaimable(b: Board, i: nat)
    requires i < |b.rows|
  {
    && OrderedCutover(b.rows[i].cutover)
    && |b.rows| > 1
    && !b.deferCutover
    && b.rows[i].state == WaitingForCutover
    && !b.stopPending
    && (forall j :: 0 <= j < i && b.rows[j].state != Completed ==> Exempt(b, j, i))
  }

  // A stopped row is claimable on a pending start request alone.
  predicate ResumeClaimable(b: Board, i: nat)
    requires i < |b.rows|
  {
    b.rows[i].state == Stopped && b.startPending
  }

  // The states a crashed drive leaves behind (claimableApplyStates).
  predicate Active(s: State) {
    || s.Running? || s.RunningDegraded? || s.Resuming? || s.WaitingForDeploy? || s.WaitingForCutover? || s.Recovering?
    || s.CuttingOver? || s.RevertWindow? || s.Reverting? || s.SkippingRevert? || s.PreparingBranch?
    || s.ApplyingBranchChanges? || s.ValidatingBranch? || s.CreatingDeployRequest? || s.ValidatingDeployRequest?
  }

  // A row whose lease went stale, whose deferred deploy is to start, or that is to
  // be retried. None is gated by the rows before it.
  predicate AgainClaimable(b: Board, i: nat)
    requires i < |b.rows|
  {
    || (&& Active(b.rows[i].state)
        && !(b.rows[i].state.WaitingForCutover? && OrderedCutover(b.rows[i].cutover) && |b.rows| > 1))
    || (Active(b.rows[i].state) && b.parent.WaitingForDeploy? && b.startPending)
    || (b.rows[i].state.FailedRetryable? && (b.parent.FailedRetryable? || Active(b.parent)))
  }

  // --- steps ---------------------------------------------------------------

  datatype Event =
    | ClaimCopy(row: nat)
    | ClaimResume(row: nat)
    | ClaimCutover(row: nat)
    | ClaimAgain(row: nat)
    | LoadParent(row: nat)
    | Mirror(row: nat)
    | Report(row: nat, result: State)
    | Abandon(row: nat)
    | StopPendingRows
    | SetStop(stop: bool)
    | SetStart(start: bool)
    | SetReleased(release: bool)
    | TakeCopy(driver: nat)
    | ListRows(driver: nat)
    | Project(driver: nat, reopen: bool)
      // a control handler, stop reconciliation or a panicking drive settles the parent;
      // stopped and cancelled are written whatever is stored by then
    | SettleParent(state: State)
    | StartParent
    | Reapply
    | Expire

  // The results a drive writes onto its row; any other leaves the row as it is.
  predicate Recorded(s: State) {
    s.WaitingForCutover? || s.FailedRetryable? || IsTerminal(s)
  }

  predicate Reappliable(b: Board) {
    b.parent == Failed && forall i :: 0 <= i < |b.rows| ==>
      !(b.rows[i].state.Stopped? || b.rows[i].state.Cancelled? || b.rows[i].state.Reverted?)
  }

  predicate Enabled(b: Board, e: Event) {
    match e
    case ClaimCopy(i) => i < |b.rows| && CopyClaimable(b, i)
    case ClaimResume(i) => i < |b.rows| && ResumeClaimable(b, i)
    case ClaimCutover(i) => i < |b.rows| && CutoverClaimable(b, i)
    case ClaimAgain(i) => i < |b.rows| && AgainClaimable(b, i)
    case LoadParent(i) => i < |b.rows| && b.rows[i].hold.Claimed?
    case Mirror(i) => i < |b.rows| && b.rows[i].hold.Mirroring?
    case Report(i, _) => i < |b.rows| && b.rows[i].hold.Driving?
    case Abandon(i) => i < |b.rows|
    case ListRows(d) => d in b.copies && |b.rows| > 0
    case Project(d, _) => d in b.copies && b.copies[d].verdict.Some?
    case SettleParent(s) => s.Stopped? || s.Cancelled? || (s.Failed? && !IsTerminal(b.parent))
    case StartParent => b.parent == Pending
    case Reapply => Reappliable(b)
    case Expire => b.parent == FailedRetryable
    case _ => true
  }

  // Row i after an enabled step. Reapplying takes a failed row's lease away;
  // expiring a row to be retried does not.
  function RowAfter(r: Row, i: nat, parent: State, e: Event): Row {
    match e
    case ClaimCopy(k) => if k == i then r.(state := Running, hold := Claimed) else r
    case ClaimResume(k) => if k == i then r.(state := Resuming, hold := Claimed) else r
    case ClaimCutover(k) => if k == i then r.(state := CuttingOver, hold := Claimed) else r
    case ClaimAgain(k) => if k == i then r.(hold := Claimed) else r
    case LoadParent(k) => if k == i then r.(hold := if IsTerminal(parent) then Mirroring(parent) else Driving) else r
    case Mirror(k) => if k == i && r.hold.Mirroring? then Written(r, r.hold.parent) else r
    case Report(k, s) => if k == i then Written(r, s) else r
    case Abandon(k) => if k == i then r.(hold := Free) else r
    case StopPendingRows => if r.state == Pending then r.(state := Stopped) else r
    case Reapply => if r.state == Failed then r.(state := FailedRetryable, hold := Free) else r
    case Expire => if r.state == FailedRetryable then r.(state := Failed) else r
    case _ => r
  }

  function Written(r: Row, s: State): Row {
    r.(state := if Recorded(s) then s else r.state, hold := Free)
  }

  function RowsAfter(b: Board, e: Event): (rows: seq<Row>)
    ensures |rows| == |b.rows| && forall i :: 0 <= i < |rows| ==> rows[i] == RowAfter(b.rows[i], i, b.parent, e)
  {
    seq(|b.rows|, i requires 0 <= i < |b.rows| => RowAfter(b.rows[i], i, b.parent, e))
  }

  // The stored parent after a projection of a verdict from a copy of it.
  function Projected(stored: State, copy: State, v: Verdict, reopen: bool): State {
    var refused := Projection.Refuses(Projection.Apply(copy, None, None, ""), v.base, v.derived, reopen);
    if stored != copy || refused then stored
    else v.derived
  }

  function ParentAfter(b: Board, e: Event): State {
    match e
    case Project(d, reopen) =>
      if d in b.copies && b.copies[d].verdict.Some?
      then Projected(b.parent, b.copies[d].parent, b.copies[d].verdict.value, reopen) else b.parent
    case SettleParent(s) => s
    case StartParent => Running
    case Reapply => FailedRetryable
    case Expire => Failed
    case _ => b.parent
  }

  function CopiesAfter(b: Board, e: Event): map<nat, Copy> {
    match e
    case TakeCopy(d) => b.copies[d := Copy(b.parent, None)]
    case ListRows(d) =>
      if d !in b.copies then b.copies
      else b.copies[d := b.copies[d].(verdict := Some(VerdictOf(ChildrenOf(b))))]
    case _ => b.copies
  }

  // An event its gate does not admit changes nothing.
  function Step(b: Board, e: Event): (c: Board)
    ensures |c.rows| == |b.rows| && c.deferCutover == b.deferCutover
    ensures forall i :: 0 <= i < |b.rows| ==>
              c.rows[i] == if Enabled(b, e) then RowAfter(b.rows[i], i, b.parent, e) else b.rows[i]
  {
    if !Enabled(b, e) then b
    else
      Board(RowsAfter(b, e), ParentAfter(b, e), CopiesAfter(b, e),
            if e.SetStop? then e.stop else b.stopPending, if e.SetStart? then e.start else b.startPending,
            if e.SetReleased? then e.release else b.released, b.deferCutover)
  }

  // The board's projection is the one of the applies table: for any row, copy
  // and operations with these states, the stored state moves the same way.
  lemma ProjectedIsTheProjection(stored: Projection.Apply, snapshot: Projection.Apply, ops: seq<Projection.Operation>,
                                 latch: bool, reopen: bool, now: int)
    requires |ops| > 0
    ensures Projection.Project(stored, snapshot, ops, latch, reopen, now, DeriveApplyState, RolloutState).0.state
            == Projected(stored.state, snapshot.state,
                         VerdictOf(Projection.Children(ops, Projection.EffectiveRelease(ops, latch))), reopen)
  {
  }

  function After(b: Board, es: seq<Event>): (c: Board)
    ensures |c.rows| == |b.rows| && c.deferCutover == b.deferCutover
  {
    if |es| == 0 then b else Step(After(b, es[..|es| - 1]), es[|es| - 1])
  }

  // The board just before event k.
  function At(b: Board, es: seq<Event>, k: nat): (c: Board)
    requires k <= |es|
    ensures |c.rows| == |b.rows| && c.deferCutover == b.deferCutover
  {
    After(b, es[..k])
  }

  predicate Happens(b: Board, es: seq<Event>, k: nat)
    requires k < |es|
  {
    Enabled(At(b, es, k), es[k])
  }

  lemma StepAt(b: Board, es: seq<Event>, k: nat)
    requires k < |es|
    ensures At(b, es, k + 1) == Step(At(b, es, k), es[k])
  {
    assert es[..k + 1][..k] == es[..k];
  }

  // --- what steps keep -----------------------------------------------------

  predicate SameRow(r: Row, s: Row) {
    r == s.(state := r.state, hold := r.hold)
  }

  predicate Settled(s: State) {
    s.Completed? || s.Failed?
  }

  lemma StepKeepsRow(b: Board, e: Event, i: nat)
    requires i < |b.rows|
    ensures SameRow(Step(b, e).rows[i], b.rows[i])
  {
  }

  lemma {:induction false} RunKeepsRows(b: Board, es: seq<Event>, k: nat)
    requires k <= |es|
    ensures forall i :: 0 <= i < |b.rows| ==> SameRow(At(b, es, k).rows[i], b.rows[i])
  {
    if k == 0 {
      assert es[..0] == [];
    } else {
      RunKeepsRows(b, es, k - 1);
      StepAt(b, es, k - 1);
      var c := At(b, es, k - 1);
      forall i | 0 <= i < |b.rows|
        ensures SameRow(Step(c, es[k - 1]).rows[i], b.rows[i])
      {
        StepKeepsRow(c, es[k - 1], i);
      }
    }
  }

  // The holder of row i writes its state.
  predicate HolderWrites(b: Board, e: Event, i: nat)
    requires i < |b.rows|
  {
    || (e == Mirror(i) && b.rows[i].hold.Mirroring?)
    || (e.Report? && e.row == i && b.rows[i].hold.Driving?)
  }

  /** A row that completed or failed moves again only in a reapply, if it failed,
      or by its own driver, if it was settled under that driver's hands. */
  lemma SettledRowMoves(b: Board, e: Event, i: nat)
    requires i < |b.rows| && Settled(b.rows[i].state) && Step(b, e).rows[i].state != b.rows[i].state
    ensures (e.Reapply? && Reappliable(b) && b.rows[i].state == Failed) || HolderWrites(b, e, i)
  {
  }

  // Nobody holds a completed row: only expiry settles a row under its driver,
  // and it settles it as failed.
  predicate CompletedRowsAreFree(b: Board) {
    forall i :: 0 <= i < |b.rows| && b.rows[i].state == Completed ==> b.rows[i].hold == Free
  }

  lemma StepKeepsCompletedFree(b: Board, e: Event)
    requires CompletedRowsAreFree(b)
    ensures CompletedRowsAreFree(Step(b, e))
  {
  }

  lemma {:induction false} CompletedStaysFree(b: Board, es: seq<Event>, k: nat)
    requires k <= |es| && CompletedRowsAreFree(b)
    ensures CompletedRowsAreFree(At(b, es, k))
  {
    if k == 0 {
      assert es[..0] == [];
    } else {
      CompletedStaysFree(b, es, k - 1);
      StepAt(b, es, k - 1);
      StepKeepsCompletedFree(At(b, es, k - 1), es[k - 1]);
    }
  }

  // Row i stops being failed at step k.
  predicate LeavesFailed(b: Board, es: seq<Event>, k: nat, i: nat)
    requires k < |es|
  {
    && i < |b.rows|
    && At(b, es, k).rows[i].state == Failed && At(b, es, k + 1).rows[i].state != Failed
  }

  lemma LeavingFailedIsReapplyOrLateWrite(b: Board, es: seq<Event>, k: nat, i: nat)
    requires k < |es| && LeavesFailed(b, es, k, i)
    ensures (es[k].Reapply? && Happens(b, es, k)) || HolderWrites(At(b, es, k), es[k], i)
  {
    StepAt(b, es, k);
    SettledRowMoves(At(b, es, k), es[k], i);
  }

  // A row settled at j and unsettled at k stopped being failed in between.
  lemma {:induction false} UnsettledAgain(b: Board, es: seq<Event>, j: nat, k: nat, i: nat) returns (m: nat)
    requires j <= k <= |es| && i < |b.rows| && CompletedRowsAreFree(b)
    requires Settled(At(b, es, j).rows[i].state)
    requires !Settled(At(b, es, k).rows[i].state)
    ensures j <= m < k && LeavesFailed(b, es, m, i)
    decreases k - j
  {
    if Settled(At(b, es, j + 1).rows[i].state) && At(b, es, j + 1).rows[i].state == At(b, es, j).rows[i].state {
      m := UnsettledAgain(b, es, j + 1, k, i);
    } else {
      m := j;
      StepAt(b, es, j);
      CompletedStaysFree(b, es, j);
      SettledRowMoves(At(b, es, j), es[j], i);
    }
  }

  // --- ordered cutover -----------------------------------------------------

  lemma CutoverFollowsSettledRows(b: Board, i: nat)
    requires i < |b.rows| && CutoverClaimable(b, i)
    ensures forall j :: 0 <= j < i ==> Settled(b.rows[j].state)
  {
  }

  /** In every run the cutover claims go through the rows in rollout order, except
      that an earlier row can follow a later one after it stopped being failed in
      between: reapplied, or rewritten by a driver it was expired under. */
  lemma CutoversInvertOnlyAfterFailure(b: Board, es: seq<Event>, j: nat, k: nat) returns (m: nat)
    requires j < k < |es| && Happens(b, es, j) && Happens(b, es, k) && CompletedRowsAreFree(b)
    requires es[j].ClaimCutover? && es[k].ClaimCutover? && es[k].row < es[j].row
    ensures j <= m < k && LeavesFailed(b, es, m, es[k].row)
    ensures (es[m].Reapply? && Happens(b, es, m)) || HolderWrites(At(b, es, m), es[m], es[k].row)
  {
    CutoverFollowsSettledRows(At(b, es, j), es[j].row);
    m := UnsettledAgain(b, es, j, k, es[k].row);
    LeavingFailedIsReapplyOrLateWrite(b, es, m, es[k].row);
  }

  predicate NoneCuttingOver(b: Board) {
    forall i :: 0 <= i < |b.rows| ==> b.rows[i].state != CuttingOver
  }

  // Behind row x at its cutover, row y is settled unless it stopped being failed.
  predicate SettledOrLeft(b: Board, es: seq<Event>, n: nat, y: nat)
    requires n <= |es|
  {
    || (y < |b.rows| && Settled(At(b, es, n).rows[y].state))
    || exists m :: 0 <= m < n && LeavesFailed(b, es, m, y)
  }

  lemma {:induction false} RowsBehindACutover(b: Board, es: seq<Event>, n: nat, y: nat, x: nat)
    requires n <= |es| && y < x < |b.rows| && NoneCuttingOver(b) && CompletedRowsAreFree(b)
    requires At(b, es, n).rows[x].state == CuttingOver
    ensures SettledOrLeft(b, es, n, y)
  {
    assert es[..0] == [];
    if n == 0 {
      // no row is cutting over yet
    } else {
      var c := At(b, es, n - 1);
      StepAt(b, es, n - 1);
      if c.rows[x].state == CuttingOver {
        RowsBehindACutover(b, es, n - 1, y, x);
        if Settled(c.rows[y].state) && !Settled(At(b, es, n).rows[y].state) {
          var m := UnsettledAgain(b, es, n - 1, n, y);
        }
      } else {
        OnlyAClaimCutsOver(c, es[n - 1], x);
        CutoverFollowsSettledRows(c, x);
      }
    }
  }

  lemma OnlyAClaimCutsOver(b: Board, e: Event, x: nat)
    requires x < |b.rows| && b.rows[x].state != CuttingOver && Step(b, e).rows[x].state == CuttingOver
    ensures e == ClaimCutover(x) && CutoverClaimable(b, x)
    ensures forall y :: 0 <= y < |b.rows| && y != x ==> Step(b, e).rows[y] == b.rows[y]
  {
  }

  /** High-risk swaps never overlap in a rollout whose cutovers are not deferred by
      hand, unless the earlier of the two stopped being failed during the run. */
  lemma SwapsOverlapOnlyAfterFailure(b: Board, es: seq<Event>, y: nat, x: nat) returns (m: nat)
    requires !b.deferCutover && NoneCuttingOver(b) && CompletedRowsAreFree(b)
    requires y < x < |b.rows|
    requires After(b, es).rows[y].state == CuttingOver && After(b, es).rows[x].state == CuttingOver
    ensures m < |es| && LeavesFailed(b, es, m, y)
    ensures (es[m].Reapply? && Happens(b, es, m)) || HolderWrites(At(b, es, m), es[m], y)
  {
    assert es[..|es|] == es;
    RowsBehindACutover(b, es, |es|, y, x);
    m :| 0 <= m < |es| && LeavesFailed(b, es, m, y);
    LeavingFailedIsReapplyOrLateWrite(b, es, m, y);
  }

  /** So without a reapply and without an expiry there is at most one swap. */
  lemma OneSwapAtATime(b: Board, es: seq<Event>, y: nat, x: nat)
    requires !b.deferCutover && NoneCuttingOver(b) && NoHeldRowIsSettled(b)
    requires forall e <- es :: !e.Reapply? && !e.Expire?
    requires y < |b.rows| && x < |b.rows|
    requires After(b, es).rows[y].state == CuttingOver && After(b, es).rows[x].state == CuttingOver
    ensures x == y
  {
    if x != y {
      var m := SwapsOverlapOnlyAfterFailure(b, es, if y < x then y else x, if y < x then x else y);
      HeldRowsStayUnsettled(b, es, m);
      assert false;
    }
  }

  predicate NoHeldRowIsSettled(b: Board) {
    forall i :: 0 <= i < |b.rows| && Settled(b.rows[i].state) ==> b.rows[i].hold == Free
  }

  lemma StepKeepsHeldUnsettled(b: Board, e: Event)
    requires NoHeldRowIsSettled(b) && !e.Expire?
    ensures NoHeldRowIsSettled(Step(b, e))
  {
  }

  lemma {:induction false} HeldRowsStayUnsettled(b: Board, es: seq<Event>, k: nat)
    requires k <= |es| && NoHeldRowIsSettled(b) && forall e <- es :: !e.Expire?
    ensures NoHeldRowIsSettled(At(b, es, k))
  {
    if k == 0 {
      assert es[..0] == [];
    } else {
      HeldRowsStayUnsettled(b, es, k - 1);
      StepAt(b, es, k - 1);
      assert es[k - 1] in es;
      StepKeepsHeldUnsettled(At(b, es, k - 1), es[k - 1]);
    }
  }

  // --- a reapply does invert cutovers --------------------------------------

  lemma {:induction false} RunsCompose(b: Board, es: seq<Event>, fs: seq<Event>)
    ensures After(b, es + fs) == After(After(b, es), fs)
  {
    if |fs| == 0 {
      assert es + fs == es;
    } else {
      RunsCompose(b, es, fs[..|fs| - 1]);
      assert (es + fs)[..|es + fs| - 1] == es + fs[..|fs| - 1];
    }
  }

  lemma TwoSteps(b: Board, e0: Event, e1: Event)
    ensures After(b, [e0, e1]) == Step(Step(b, e0), e1)
  {
    var es := [e0, e1];
    StepAt(b, es, 0);
    StepAt(b, es, 1);
    assert es[..2] == es && es[..0] == [];
  }

  lemma ThreeSteps(b: Board, e0: Event, e1: Event, e2: Event)
    ensures After(b, [e0, e1, e2]) == Step(Step(Step(b, e0), e1), e2)
  {
    var es := [e0, e1, e2];
    StepAt(b, es, 0);
    StepAt(b, es, 1);
    StepAt(b, es, 2);
    assert es[..3] == es && es[..0] == [];
  }

  // Row i may cut over past the failed row j; everything ahead of j is completed
  // and everything else is completed or failed.
  predicate ParkedBehindFailure(b: Board, j: nat, i: nat) {
    && j < i < |b.rows| && CutoverClaimable(b, i) && !IsTerminal(b.parent)
    && b.rows[j].state == Failed && OrderedCutover(b.rows[j].cutover)
    && (forall k :: 0 <= k < j ==> b.rows[k].state == Completed)
    && (forall k :: 0 <= k < |b.rows| && k != i ==> Settled(b.rows[k].state))
  }

  function CutOver(i: nat): seq<Event> {
    [ClaimCutover(i), LoadParent(i), Report(i, Completed)]
  }

  const SettleRollout := [TakeCopy(0), ListRows(0), Project(0, true)]

  function Retry(j: nat): seq<Event> {
    [ClaimAgain(j), LoadParent(j), Report(j, WaitingForCutover)]
  }

  predicate ClaimsRow(e: Event, i: nat) {
    e == ClaimCopy(i) || e == ClaimResume(i) || e == ClaimCutover(i) || e == ClaimAgain(i)
  }

  function WithRow(b: Board, i: nat, r: Row): Board
    requires i < |b.rows|
  {
    b.(rows := b.rows[i := r])
  }

  lemma ClaimStep(b: Board, claim: Event, i: nat)
    requires i < |b.rows| && ClaimsRow(claim, i) && Enabled(b, claim)
    ensures Step(b, claim) == WithRow(b, i, RowAfter(b.rows[i], i, b.parent, claim))
    ensures RowAfter(b.rows[i], i, b.parent, claim).hold == Claimed
  {
  }

  lemma LoadStep(b: Board, i: nat)
    requires i < |b.rows| && b.rows[i].hold == Claimed && !IsTerminal(b.parent)
    ensures Step(b, LoadParent(i)) == WithRow(b, i, b.rows[i].(hold := Driving))
  {
  }

  lemma ReportStep(b: Board, i: nat, s: State)
    requires i < |b.rows| && b.rows[i].hold == Driving
    ensures Step(b, Report(i, s)) == WithRow(b, i, Written(b.rows[i], s))
  {
  }

  // A claim under a live parent is driven and its result recorded.
  lemma DrivenToResult(b: Board, claim: Event, i: nat, result: State)
    requires i < |b.rows| && ClaimsRow(claim, i) && Enabled(b, claim) && !IsTerminal(b.parent) && Recorded(result)
    ensures After(b, [claim, LoadParent(i), Report(i, result)])
            == WithRow(b, i, b.rows[i].(state := result, hold := Free))
  {
    ThreeSteps(b, claim, LoadParent(i), Report(i, result));
    ClaimStep(b, claim, i);
    LoadStep(Step(b, claim), i);
    ReportStep(Step(Step(b, claim), LoadParent(i)), i, result);
  }

  lemma TakeStep(b: Board, d: nat)
    ensures Step(b, TakeCopy(d)) == b.(copies := b.copies[d := Copy(b.parent, None)])
  {
    assert RowsAfter(b, TakeCopy(d)) == b.rows;
  }

  lemma ListStep(b: Board, d: nat)
    requires d in b.copies && |b.rows| > 0
    ensures Step(b, ListRows(d))
            == b.(copies := b.copies[d := Copy(b.copies[d].parent, Some(VerdictOf(ChildrenOf(b))))])
  {
    assert RowsAfter(b, ListRows(d)) == b.rows;
  }

  lemma ProjectStep(b: Board, d: nat, reopen: bool)
    requires d in b.copies && b.copies[d].verdict.Some?
    ensures Step(b, Project(d, reopen))
            == b.(parent := Projected(b.parent, b.copies[d].parent, b.copies[d].verdict.value, reopen))
  {
    assert RowsAfter(b, Project(d, reopen)) == b.rows;
  }

  lemma LoadAndList(b: Board, d: nat)
    requires |b.rows| > 0
    ensures Step(Step(b, TakeCopy(d)), ListRows(d))
            == b.(copies := b.copies[d := Copy(b.parent, Some(VerdictOf(ChildrenOf(b))))])
  {
    TakeStep(b, d);
    var b1 := b.(copies := b.copies[d := Copy(b.parent, None)]);
    ListStep(b1, d);
    SetTwice(b.copies, d, Copy(b.parent, None), Copy(b.parent, Some(VerdictOf(ChildrenOf(b)))));
  }

  lemma SetTwice<K, V>(m: map<K, V>, k: K, v: V, w: V)
    ensures m[k := v][k := w] == m[k := w]
  {
  }

  // Load, list and project with nothing in between.
  lemma FreshProjection(b: Board, d: nat, reopen: bool)
    requires |b.rows| > 0
    ensures var c := After(b, [TakeCopy(d), ListRows(d), Project(d, reopen)]);
            c == b.(parent := Projected(b.parent, b.parent, VerdictOf(ChildrenOf(b)), reopen), copies := c.copies)
  {
    ThreeSteps(b, TakeCopy(d), ListRows(d), Project(d, reopen));
    LoadAndList(b, d);
    ProjectStep(Step(Step(b, TakeCopy(d)), ListRows(d)), d, reopen);
  }

  lemma SettledFailureVerdict(children: seq<Child>, j: nat)
    requires j < |children| && children[j].state == Failed
    requires forall k :: 0 <= k < |children| ==> Settled(children[k].state)
    ensures VerdictOf(children).derived == Failed
  {
    FailureVerdictIsOnlyDelayed(children, j);
    assert AllTerminal(children);
  }

  predicate AllSettled(b: Board) {
    forall k :: 0 <= k < |b.rows| ==> Settled(b.rows[k].state)
  }

  lemma RolloutSettlesFailed(b: Board, j: nat)
    requires j < |b.rows| && b.rows[j].state == Failed && AllSettled(b) && !IsTerminal(b.parent)
    ensures var c := After(b, SettleRollout);
            c == b.(parent := Failed, copies := c.copies)
  {
    SettledFailureVerdict(ChildrenOf(b), j);
    FreshProjection(b, 0, true);
  }

  // From a settled failure on: reapplied, driven again, and parked.
  lemma ParksAgain(b: Board, j: nat)
    requires j < |b.rows| && b.parent == Failed && b.rows[j].state == Failed && AllSettled(b)
    ensures var b1 := Step(b, Reapply);
            After(b1, Retry(j)) == WithRow(b1, j, b.rows[j].(state := WaitingForCutover, hold := Free))
  {
    assert Reappliable(b);
    var b1 := Step(b, Reapply);
    assert b1.rows[j].state == FailedRetryable;
    DrivenToResult(b1, ClaimAgain(j), j, WaitingForCutover);
  }

  lemma ParkedFirstMayCutOver(b: Board, j: nat)
    requires j < |b.rows| && |b.rows| > 1 && !b.deferCutover && !b.stopPending && b.parent == Failed && AllSettled(b)
    requires b.rows[j].state == Failed && OrderedCutover(b.rows[j].cutover)
    requires forall k :: 0 <= k < j ==> b.rows[k].state == Completed
    ensures CutoverClaimable(After(Step(b, Reapply), Retry(j)), j)
  {
    ParksAgain(b, j);
    var b1 := Step(b, Reapply);
    assert forall k :: 0 <= k < j ==> b1.rows[k] == b.rows[k];
  }

  /** So the order does invert, on every board where a row may cut over past a
      failed one: the later row cuts over, the rollout settles as failed, and after
      a reapply the earlier row follows. */
  lemma ReapplyInvertsCutovers(b: Board, j: nat, i: nat)
    requires ParkedBehindFailure(b, j, i)
    ensures var es := CutOver(i) + SettleRollout + [Reapply] + Retry(j);
            Enabled(b, ClaimCutover(i)) && es[0] == ClaimCutover(i) && Enabled(After(b, es), ClaimCutover(j))
  {
    DrivenToResult(b, ClaimCutover(i), i, Completed);
    var b1 := After(b, CutOver(i));
    RolloutSettlesFailed(b1, j);
    var b2 := After(b1, SettleRollout);
    OneStep(b2, Reapply);
    ParkedFirstMayCutOver(b2, j);
    FourParts(b, CutOver(i), SettleRollout, [Reapply], Retry(j));
  }

  lemma OneStep(b: Board, e: Event)
    ensures After(b, [e]) == Step(b, e)
  {
    assert [e][..0] == [];
  }

  lemma FourParts(b: Board, p: seq<Event>, q: seq<Event>, r: seq<Event>, s: seq<Event>)
    ensures After(b, p + q + r + s) == After(After(After(After(b, p), q), r), s)
  {
    RunsCompose(b, p, q);
    RunsCompose(b, p + q, r);
    RunsCompose(b, p + q + r, s);
  }
}
