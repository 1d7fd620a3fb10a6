/**
 What one projection writes (pkg/api/operator.go, updateApplyStateFromOperations),
 field by field of the stored row, and when it is refused; and the rollout verdict
 by the policies the operation rows captured.
 */
module Writes {
  import opened Wrappers
  import opened States
  import opened Rollout
  import opened Projection
  import Verdicts

  const ENDS := {Completed, Failed, Stopped, Cancelled, Reverted}

  predicate Explains(op: Operation) {
    op.state == Failed && op.errorMessage != ""
  }

  /** The message is that of the first operation that failed and says why. */
  lemma {:induction false} MessageOfTheFirst(ops: seq<Operation>, k: nat)
    requires k < |ops| && Explains(ops[k]) && forall i :: 0 <= i < k ==> !Explains(ops[i])
    ensures FirstFailedMessage(ops) == "deployment " + ops[k].deployment + " failed: " + ops[k].errorMessage
  {
    if k == 0 {
    } else {
      assert !Explains(ops[0]);
      assert forall i :: 0 <= i < k - 1 ==> ops[1..][i] == ops[i + 1];
      MessageOfTheFirst(ops[1..], k - 1);
    }
  }

  lemma {:induction false} NoMessage(ops: seq<Operation>)
    requires forall i :: 0 <= i < |ops| ==> !Explains(ops[i])
    ensures FirstFailedMessage(ops) == ""
  {
    if |ops| == 0 {
    } else {
      assert !Explains(ops[0]);
      assert forall i :: 0 <= i < |ops| - 1 ==> ops[1..][i] == ops[i + 1];
      NoMessage(ops[1..]);
    }
  }

  // The error the row carries after a write: why the first operation failed, if the
  // apply did, and else what the copy said.
  ghost predicate Blames(message: string, ops: seq<Operation>, derived: State, copy: Apply) {
    if derived == Failed && exists k :: 0 <= k < |ops| && Explains(ops[k]) then
      exists k :: && 0 <= k < |ops| && Explains(ops[k]) && (forall i :: 0 <= i < k ==> !Explains(ops[i]))
                  && message == "deployment " + ops[k].deployment + " failed: " + ops[k].errorMessage
    else message == copy.errorMessage
  }

  lemma {:induction false} FindFirst(ops: seq<Operation>, n: nat) returns (k: nat)
    requires n < |ops| && Explains(ops[n])
    ensures k <= n && Explains(ops[k]) && forall i :: 0 <= i < k ==> !Explains(ops[i])
  {
    if i :| 0 <= i < n && Explains(ops[i]) {
      k := FindFirst(ops, i);
    } else {
      k := n;
    }
  }

  lemma WriteBlames(ops: seq<Operation>, derived: State, copy: Apply, now: int)
    ensures Blames(DerivedWrite(copy, FirstFailedMessage(ops), derived, now).errorMessage, ops, derived, copy)
  {
    if n :| 0 <= n < |ops| && Explains(ops[n]) {
      var k := FindFirst(ops, n);
      MessageOfTheFirst(ops, k);
    } else {
      NoMessage(ops);
    }
  }

  /** A projection is refused exactly without operations, or when the copy says that
      the apply ended and its operations that it did not, unless it reopens a failed
      rollout that runs on degraded, and may. */
  lemma RefusedIff(stored: Apply, copy: Apply, ops: seq<Operation>, latch: bool, reopen: bool, now: int,
                   derive: BaseDerivation, rollout: RolloutDerivation)
    ensures var children := Children(ops, EffectiveRelease(ops, latch));
            var base, derived := derive(ChildStates(children)), rollout(children);
            Project(stored, copy, ops, latch, reopen, now, derive, rollout).1.Rejected?
            <==> || ops == []
                 || (&& copy.state in ENDS && derived !in ENDS
                     && !(reopen && copy.state == Failed && base == Failed && derived == RunningDegraded))
  {
  }

  /** What is written, if anything: only over the state the copy has, and only a new
      state or a missing start. The state is the derived one; a start is never
      replaced; a completion time stands exactly if the state ends the apply for good,
      and is the copy's if it has one. */
  lemma ProjectionWrites(stored: Apply, copy: Apply, ops: seq<Operation>, latch: bool, reopen: bool, now: int,
                         derive: BaseDerivation, rollout: RolloutDerivation)
    ensures var derived := rollout(Children(ops, EffectiveRelease(ops, latch)));
            var (row, r) := Project(stored, copy, ops, latch, reopen, now, derive, rollout);
            var starts := copy.startedAt.None? && derived != Pending;
            var written := r.Projected? && stored.state == copy.state && (copy.state != derived || starts);
            && (!written ==> row == stored)
            && (written ==>
                  && row.state == derived
                  && row.startedAt == Coalesce(stored.startedAt, if starts then Some(now) else None)
                  && (row.completedAt.Some? <==> derived in {Completed, Failed, Cancelled, Reverted})
                  && (row.completedAt.Some? ==> row.completedAt == Coalesce(copy.completedAt, Some(now)))
                  && Blames(row.errorMessage, ops, derived, copy))
            && (r.Projected? ==>
                  && (r.swapped <==> written)
                  && (r.becameTerminal <==> written && copy.state !in ENDS && derived in ENDS))
  {
    WriteBlames(ops, rollout(Children(ops, EffectiveRelease(ops, latch))), copy, now);
  }

  /** A reapply takes a failed apply with a completion time back to be retried, without
      that time and without its error; an expiry fails one that was to be retried. */
  lemma ReapplyAndExpiryWrite(w: World, now: int, derive: BaseDerivation, rollout: RolloutDerivation)
    ensures var row := w.row;
            && Step(w, Reapply, derive, rollout).row
               == (if row.state == Failed && row.completedAt.Some?
                   then Apply(FailedRetryable, row.startedAt, None, "") else row)
            && Step(w, Expire(now), derive, rollout).row
               == if row.state == FailedRetryable
                  then Apply(Failed, row.startedAt, Coalesce(row.completedAt, Some(now)), row.errorMessage) else row
  {
  }

  /** The driver whose projection ended the apply publishes its summary, unless the
      apply was reopened before; and nobody publishes twice. */
  lemma WinnerPublishes(w: World, e: Event, derive: BaseDerivation, rollout: RolloutDerivation)
    requires WinsIn(w, e, derive, rollout)
    ensures var v := Step(w, e, derive, rollout);
            var u := Step(v, PublishSummary(e.driver), derive, rollout);
            && e.driver in v.owed && u.published == w.published + 1
            && e.driver !in u.owed && Step(u, PublishSummary(e.driver), derive, rollout) == u
  {
  }

  lemma PublishedIff(w: World, d: nat, derive: BaseDerivation, rollout: RolloutDerivation)
    ensures Step(w, PublishSummary(d), derive, rollout).published
            == w.published + if d in w.owed && w.row.state in ENDS then 1 else 0
  {
  }

  // --- the rollout verdict by the captured policies ------------------------

  predicate Halts(op: Operation) {
    op.state == Failed && op.onFailure != Continue && op.onFailure != Pause
  }

  // A failed operation that pauses, with one behind it that has not ended.
  predicate HoldsBack(ops: seq<Operation>, i: int, k: int)
    requires 0 <= i < |ops| && 0 <= k < |ops|
  {
    i < k && ops[i].state == Failed && ops[i].onFailure == Pause && ops[k].state !in ENDS
  }

  lemma ChildMeans(ops: seq<Operation>, latch: bool, i: nat)
    requires i < |ops|
    ensures var children := Children(ops, EffectiveRelease(ops, latch));
            && (Verdicts.Ends(children, i) <==> Halts(ops[i]))
            && (Verdicts.Over(children[i].state) <==> ops[i].state in ENDS)
            && forall k :: 0 <= k < |ops| ==> (Verdicts.Pauses(children, i, k) <==> !latch && HoldsBack(ops, i, k))
  {
    assert ops[i].onFailure == Pause ==> AnyPauseOnFailure(ops);
  }

  /** With a failed operation: failed exactly if one halts or all have ended; else
      paused exactly if no release is latched and one holds back an operation behind
      it; else running degraded. */
  lemma RolloutVerdicts(ops: seq<Operation>, latch: bool, f: nat)
    requires f < |ops| && ops[f].state == Failed
    ensures var r := RolloutState(Children(ops, EffectiveRelease(ops, latch)));
            && (r == Failed
                <==> || (exists i :: 0 <= i < |ops| && Halts(ops[i]))
                     || (forall i :: 0 <= i < |ops| ==> ops[i].state in ENDS))
            && (r == State.Paused
                <==> && !latch && (forall i :: 0 <= i < |ops| ==> !Halts(ops[i]))
                     && (exists i, k :: 0 <= i < |ops| && 0 <= k < |ops| && HoldsBack(ops, i, k)))
            && (r == Failed || r == State.Paused || r == RunningDegraded)
  {
    var children := Children(ops, EffectiveRelease(ops, latch));
    forall i: nat | i < |ops|
      ensures Verdicts.Ends(children, i) <==> Halts(ops[i])
      ensures Verdicts.Over(children[i].state) <==> ops[i].state in ENDS
      ensures forall k :: 0 <= k < |ops| ==> (Verdicts.Pauses(children, i, k) <==> !latch && HoldsBack(ops, i, k))
    {
      ChildMeans(ops, latch, i);
    }
    Verdicts.FailedVerdicts(children, f);
  }
}
