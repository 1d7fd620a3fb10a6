/**
 The durable control requests of one apply and the handlers that write them
 (pkg/api/control_handlers.go over pkg/storage/mysqlstore/control_requests.go).

 `Plane` is the stored apply plus its control-request rows. The functions give
 each whole request as a step on that value; `ControlPlane` is the same code
 updating its fields. What a Tern client or the task table answers during a
 request is a parameter of the request.
 */
module Control {
  import opened Wrappers
  import opened States
  import Projection

  datatype ControlOp = StartOp | StopOp | CancelOp | ReleaseOp | RevertOp | SkipRevertOp

  datatype Status = PendingRequest | CompletedRequest | FailedRequest

  // The two numbers a start, stop or cancel request records as its metadata.
  datatype Counts = Counts(affected: nat, skipped: nat)

  datatype Request = Request(status: Status, requestedBy: string, counts: Counts, errorMessage: string,
                             completedAt: Option<int>)

  type Table = map<ControlOp, Request>

  datatype Plane = Plane(applyState: State, completedAt: Option<int>, requests: Table,
                         planetScale: bool, deferDeploy: bool, remote: bool, hasExternalId: bool)

  // --- the request table ---------------------------------------------------

  predicate IsPending(t: Table, op: ControlOp) {
    op in t && t[op].status == PendingRequest
  }

  // One row per operation: a pending row is returned as it is, any other row is
  // reset to pending for the new requester.
  function RequestPending(t: Table, op: ControlOp, caller: string, counts: Counts): Table {
    if IsPending(t, op) then t else t[op := Request(PendingRequest, caller, counts, "", None)]
  }

  function ResolvePending(t: Table, op: ControlOp, outcome: Status, errorMessage: string, now: int): Table {
    if IsPending(t, op)
    then t[op := t[op].(status := outcome, completedAt := Coalesce(t[op].completedAt, Some(now)),
                        errorMessage := if outcome == FailedRequest then errorMessage else t[op].errorMessage)]
    else t
  }

  function CompletePending(t: Table, op: ControlOp, now: int): Table {
    ResolvePending(t, op, CompletedRequest, "", now)
  }

  function FailPending(t: Table, op: ControlOp, errorMessage: string, now: int): Table {
    ResolvePending(t, op, FailedRequest, errorMessage, now)
  }

  // --- whole requests, on values -------------------------------------------

  datatype ReplyStatus = Fresh | Queued | AlreadyRequested

  datatype Reply = Accepted(status: ReplyStatus, counts: Counts) | Conflict | EngineDeclined | Unavailable

  // What the Tern client's Progress call answers: an error, or a state and the
  // task states of its tables.
  datatype Progress = ProgressError | Reported(state: State, tables: seq<State>)

  function StopCounts(tasks: seq<State>): Counts {
    if |tasks| == 0 then Counts(0, 0)
    else
      var c := StopCounts(tasks[..|tasks| - 1]);
      if IsTerminalTask(tasks[|tasks| - 1]) then Counts(c.affected, c.skipped + 1)
      else Counts(c.affected + 1, c.skipped)
  }

  function StartCounts(tasks: seq<State>): Counts {
    if |tasks| == 0 then Counts(0, 0)
    else
      var c := StartCounts(tasks[..|tasks| - 1]);
      var s := tasks[|tasks| - 1];
      if s == Stopped then Counts(c.affected + 1, c.skipped)
      else if IsTerminalTask(s) then Counts(c.affected, c.skipped + 1)
      else c
  }

  predicate StopResolvedBy(s: State) {
    s.Stopped? || s.Cancelled? || IsTerminal(s)
  }

  predicate StartAllowedIn(s: State) {
    s.WaitingForDeploy? || s.Pending? || s.Running? || s.RunningDegraded? || s.Stopped?
  }

  predicate StopOrCancelPending(t: Table) {
    IsPending(t, StopOp) || IsPending(t, CancelOp)
  }

  // None when the remote state could not be checked.
  function CompleteResolvedStop(p: Plane, progress: Progress, now: int): Option<Plane> {
    if !IsPending(p.requests, StopOp) then Some(p)
    else if StopResolvedBy(p.applyState) then Some(p.(requests := CompletePending(p.requests, StopOp, now)))
    else if !p.remote || !p.hasExternalId then Some(p)
    else if progress.ProgressError? then None
    else if progress.state != Stopped then Some(p)
    else Some(p.(applyState := Stopped, completedAt := Some(now), requests := CompletePending(p.requests, StopOp, now)))
  }

  function PersistStart(p: Plane, caller: string, counts: Counts): (Plane, Reply) {
    if IsPending(p.requests, StartOp) then (p, Accepted(AlreadyRequested, p.requests[StartOp].counts))
    else (p.(requests := RequestPending(p.requests, StartOp, caller, counts)), Accepted(Queued, counts))
  }

  // Resuming may lag the stored row, which still says running: mark it stopped
  // so that the operator can claim it.
  function StoppedForClaim(p: Plane): Plane {
    if IsRunning(p.applyState) then p.(applyState := Stopped, completedAt := None) else p
  }

  function QueueStoppedApply(p: Plane, caller: string, tasks: seq<State>): (Plane, Reply) {
    var counts := StartCounts(tasks);
    if counts.affected == 0 then (p, Conflict) else PersistStart(StoppedForClaim(p), caller, counts)
  }

  function QueueRemoteStoppedApply(p: Plane, caller: string, progress: Progress): (Plane, Reply) {
    if progress.ProgressError? then (p, Unavailable)
    else if progress.state != Stopped then (p, Conflict)
    else
      var counts := StartCounts(progress.tables);
      PersistStart(StoppedForClaim(p), caller, if counts.affected == 0 then Counts(1, counts.skipped) else counts)
  }

  function QueueStart(p: Plane, caller: string, tasks: seq<State>, progress: Progress): (Plane, Reply) {
    if p.applyState == WaitingForDeploy then PersistStart(p, caller, Counts(1, 0))
    else if IsPending(p.requests, StartOp) then (p, Accepted(AlreadyRequested, p.requests[StartOp].counts))
    else if p.applyState == Pending then (p, Conflict)
    else if p.remote && p.hasExternalId then QueueRemoteStoppedApply(p, caller, progress)
    else QueueStoppedApply(p, caller, tasks)
  }

  // The client is asked for progress at most twice: `before` while a pending stop
  // is looked at, `progress` while the start is queued.
  function Start(p: Plane, caller: string, tasks: seq<State>, before: Progress, progress: Progress,
                 now: int): (Plane, Reply) {
    if !StartAllowedIn(p.applyState) || (p.deferDeploy && p.applyState != WaitingForDeploy) then (p, Conflict)
    else
      match CompleteResolvedStop(p, before, now)
      case None => (p, Unavailable)
      case Some(q) => if StopOrCancelPending(q.requests) then (q, Conflict) else QueueStart(q, caller, tasks, progress)
  }

  function Stop(p: Plane, caller: string, tasks: seq<State>): (Plane, Reply) {
    if p.planetScale then (p, Conflict)
    else if IsPending(p.requests, StopOp) then (p, Accepted(AlreadyRequested, p.requests[StopOp].counts))
    else if IsTerminal(p.applyState) || |tasks| == 0 then (p, Conflict)
    else (p.(requests := RequestPending(p.requests, StopOp, caller, StopCounts(tasks))),
          Accepted(Fresh, StopCounts(tasks)))
  }

  function Cancel(p: Plane, caller: string, tasks: seq<State>): (Plane, Reply) {
    if IsTerminal(p.applyState) && p.applyState != Stopped then (p, Conflict)
    else if IsPending(p.requests, CancelOp) then (p, Accepted(AlreadyRequested, p.requests[CancelOp].counts))
    else if |tasks| == 0 then (p, Conflict)
    else (p.(requests := RequestPending(p.requests, CancelOp, caller, StopCounts(tasks))),
          Accepted(Fresh, StopCounts(tasks)))
  }

  // A release request holds a paused rollout open while pending or completed.
  predicate Latched(t: Table) {
    ReleaseOp in t && t[ReleaseOp].status != FailedRequest
  }

  function Release(p: Plane, caller: string, anyPause: bool): (Plane, Reply) {
    if IsTerminal(p.applyState) || !anyPause || p.applyState != State.Paused then (p, Conflict)
    else if StopOrCancelPending(p.requests) then (p, Conflict)
    else if Latched(p.requests) then (p, Accepted(AlreadyRequested, Counts(0, 0)))
    else (p.(requests := RequestPending(p.requests, ReleaseOp, caller, Counts(0, 0))), Accepted(Fresh, Counts(0, 0)))
  }

  // How the engine answers an immediate revert or skip-revert call.
  datatype EngineAnswer = CallFailed | Took | Declined(reason: string)

  // A call that failed leaves the request pending for the apply's owner.
  function Attempted(t: Table, op: ControlOp, answer: EngineAnswer, now: int): Table {
    match answer
    case CallFailed => t
    case Took => CompletePending(t, op, now)
    case Declined(reason) => FailPending(t, op, reason, now)
  }

  // revert (op) against skip-revert (other), and the other way round.
  function Exclusive(p: Plane, op: ControlOp, other: ControlOp, caller: string, answer: EngineAnswer,
                     now: int): (Plane, Reply) {
    if !p.planetScale || p.applyState != RevertWindow || IsPending(p.requests, other) then (p, Conflict)
    else if IsPending(p.requests, op) then (p, Accepted(AlreadyRequested, Counts(0, 0)))
    else
      (p.(requests := Attempted(RequestPending(p.requests, op, caller, Counts(0, 0)), op, answer, now)),
       if answer.Declined? then EngineDeclined else Accepted(Fresh, Counts(0, 0)))
  }

  // The operator and the immediate-stop path complete a pending stop only once
  // the stored apply is resolved.
  function CompleteStopIfResolved(p: Plane, now: int): Plane {
    if StopResolvedBy(p.applyState) then p.(requests := CompletePending(p.requests, StopOp, now)) else p
  }

  function CompleteCancelIfCancelled(p: Plane, now: int): Plane {
    if p.applyState == Cancelled then p.(requests := CompletePending(p.requests, CancelOp, now)) else p
  }

  // --- the handlers as they run --------------------------------------------

  class ControlPlane {
    var applyState: State
    var completedAt: Option<int>
    var requests: Table
    const planetScale: bool
    const deferDeploy: bool
    const remote: bool
    const hasExternalId: bool

    constructor (p: Plane)
      ensures View() == p
    {
      applyState, completedAt, requests := p.applyState, p.completedAt, p.requests;
      planetScale, deferDeploy, remote, hasExternalId := p.planetScale, p.deferDeploy, p.remote, p.hasExternalId;
    }

    function View(): Plane
      reads this
    {
      Plane(applyState, completedAt, requests, planetScale, deferDeploy, remote, hasExternalId)
    }

    method RecordPending(op: ControlOp, caller: string, counts: Counts) returns (row: Request, alreadyPending: bool)
      modifies this`requests
      ensures requests == RequestPending(old(requests), op, caller, counts)
      ensures alreadyPending == IsPending(old(requests), op)
      ensures IsPending(requests, op) && row == requests[op]
    {
      alreadyPending := op in requests && requests[op].status == PendingRequest;
      if !alreadyPending {
        requests := requests[op := Request(PendingRequest, caller, counts, "", None)];
      }
      row := requests[op];
    }

    method Complete(op: ControlOp, now: int)
      modifies this`requests
      ensures requests == CompletePending(old(requests), op, now)
    {
      if op in requests && requests[op].status == PendingRequest {
        var row := requests[op];
        var completedAt := if row.completedAt.Some? then row.completedAt else Some(now);
        requests := requests[op := row.(status := CompletedRequest, completedAt := completedAt)];
      }
    }

    method CountStartTasks(tasks: seq<State>) returns (counts: Counts)
      ensures counts == StartCounts(tasks)
    {
      var started, skipped := 0, 0;
      for i := 0 to |tasks|
        invariant started >= 0 && skipped >= 0
        invariant Counts(started, skipped) == StartCounts(tasks[..i])
      {
        assert tasks[..i + 1][..i] == tasks[..i];
        if tasks[i] == Stopped {
          started := started + 1;
        } else if IsTerminalTask(tasks[i]) {
          skipped := skipped + 1;
        }
      }
      assert tasks[..|tasks|] == tasks;
      counts := Counts(started, skipped);
    }

    method CompleteResolvedStopBeforeStart(progress: Progress, now: int) returns (checked: bool)
      modifies this
      ensures var r := CompleteResolvedStop(old(View()), progress, now);
              checked == r.Some? && View() == if checked then r.value else old(View())
    {
      if !(StopOp in requests && requests[StopOp].status == PendingRequest) {
        return true;
      }
      if StopResolvedBy(applyState) {
        Complete(StopOp, now);
        return true;
      }
      if !remote || !hasExternalId {
        return true;
      }
      if progress.ProgressError? {
        return false;
      }
      if progress.state == Stopped {
        applyState, completedAt := Stopped, Some(now);
        Complete(StopOp, now);
      }
      return true;
    }

    method PersistStartRequest(caller: string, counts: Counts) returns (reply: Reply)
      modifies this`requests
      ensures (View(), reply) == PersistStart(old(View()), caller, counts)
    {
      var row, alreadyPending := RecordPending(StartOp, caller, counts);
      reply := if alreadyPending then Accepted(AlreadyRequested, row.counts) else Accepted(Queued, counts);
    }

    method EnsureStoredApplyStopped()
      modifies this`applyState, this`completedAt
      ensures View() == StoppedForClaim(old(View()))
    {
      if IsRunning(applyState) {
        applyState, completedAt := Stopped, None;
      }
    }

    method QueueStopped(caller: string, tasks: seq<State>) returns (reply: Reply)
      modifies this
      ensures (View(), reply) == QueueStoppedApply(old(View()), caller, tasks)
    {
      var counts := CountStartTasks(tasks);
      if counts.affected == 0 {
        return Conflict;
      }
      EnsureStoredApplyStopped();
      reply := PersistStartRequest(caller, counts);
    }

    method QueueRemoteStopped(caller: string, progress: Progress) returns (reply: Reply)
      modifies this
      ensures (View(), reply) == QueueRemoteStoppedApply(old(View()), caller, progress)
    {
      if progress.ProgressError? {
        return Unavailable;
      }
      if progress.state != Stopped {
        return Conflict;
      }
      var counts := CountStartTasks(progress.tables);
      if counts.affected == 0 {
        counts := Counts(1, counts.skipped);
      }
      EnsureStoredApplyStopped();
      reply := PersistStartRequest(caller, counts);
    }

    method ExecuteStart(caller: string, tasks: seq<State>, before: Progress, progress: Progress,
                        now: int) returns (reply: Reply)
      modifies this
      ensures (View(), reply) == Start(old(View()), caller, tasks, before, progress, now)
      ensures reply.Accepted? && reply.status == Queued ==>
                !StopOrCancelPending(requests) && QueuesFor(old(View()), View(), caller, reply.counts)
      ensures reply.Accepted? ==> IsPending(requests, StartOp) && requests[StartOp].counts == reply.counts
      ensures reply.Accepted? <==> StartIsTaken(old(View()), tasks, before, progress)
    {
      ghost var p := View();
      StartTakenIff(p, caller, tasks, before, progress, now);
      OnlyQueuedStartsWriteTheRow(p, caller, tasks, before, progress, now);
      ghost var result := Start(p, caller, tasks, before, progress, now).1;
      if result.Accepted? && result.status == Queued {
        FreshStartIsClaimable(p, caller, tasks, before, progress, now);
      }
      if !StartAllowedIn(applyState) || (deferDeploy && applyState != WaitingForDeploy) {
        return Conflict;
      }
      var checked := CompleteResolvedStopBeforeStart(before, now);
      if !checked {
        return Unavailable;
      }
      if StopOrCancelPending(requests) {
        return Conflict;
      }
      reply := DispatchStart(caller, tasks, progress);
    }

    method DispatchStart(caller: string, tasks: seq<State>, progress: Progress) returns (reply: Reply)
      modifies this
      ensures (View(), reply) == QueueStart(old(View()), caller, tasks, progress)
    {
      if applyState == WaitingForDeploy {
        reply := PersistStartRequest(caller, Counts(1, 0));
      } else if IsPending(requests, StartOp) {
        reply := Accepted(AlreadyRequested, requests[StartOp].counts);
      } else if applyState == Pending {
        reply := Conflict;
      } else if remote && hasExternalId {
        reply := QueueRemoteStopped(caller, progress);
      } else {
        reply := QueueStopped(caller, tasks);
      }
    }

    method ExecuteRelease(caller: string, anyPause: bool) returns (reply: Reply)
      modifies this
      ensures (View(), reply) == Release(old(View()), caller, anyPause)
      ensures reply.Accepted? <==> ReleaseIsTaken(old(View()), anyPause)
      ensures reply == Accepted(Fresh, Counts(0, 0)) ==>
                requests == old(requests)[ReleaseOp := Recorded(caller, Counts(0, 0))]
      ensures reply.Accepted? ==> Latched(requests)
      ensures old(Latched(requests)) ==> requests == old(requests)
    {
      ReleaseAnswers(View(), caller, anyPause);
      if IsTerminal(applyState) || !anyPause || applyState != State.Paused {
        return Conflict;
      }
      if StopOrCancelPending(requests) {
        return Conflict;
      }
      if Latched(requests) {
        return Accepted(AlreadyRequested, Counts(0, 0));
      }
      var row, alreadyLatched := RecordPending(ReleaseOp, caller, Counts(0, 0));
      reply := Accepted(if alreadyLatched then AlreadyRequested else Fresh, Counts(0, 0));
    }

    method Fail(op: ControlOp, errorMessage: string, now: int)
      modifies this`requests
      ensures requests == FailPending(old(requests), op, errorMessage, now)
    {
      if op in requests && requests[op].status == PendingRequest {
        var row := requests[op];
        requests := requests[op := row.(status := FailedRequest, errorMessage := errorMessage,
                                        completedAt := if row.completedAt.Some? then row.completedAt else Some(now))];
      }
    }

    method CountStopTasks(tasks: seq<State>) returns (counts: Counts)
      ensures counts == StopCounts(tasks)
    {
      var stopped, skipped := 0, 0;
      for i := 0 to |tasks|
        invariant stopped >= 0 && skipped >= 0
        invariant Counts(stopped, skipped) == StopCounts(tasks[..i])
      {
        assert tasks[..i + 1][..i] == tasks[..i];
        if IsTerminalTask(tasks[i]) {
          skipped := skipped + 1;
        } else {
          stopped := stopped + 1;
        }
      }
      assert tasks[..|tasks|] == tasks;
      counts := Counts(stopped, skipped);
    }

    // queueStopForApplyOwner and queueCancelForApplyOwner from their task count on.
    method RecordIntent(op: ControlOp, caller: string, tasks: seq<State>) returns (reply: Reply)
      requires !IsPending(requests, op)
      modifies this`requests
      ensures |tasks| == 0 ==> reply == Conflict && requests == old(requests)
      ensures |tasks| > 0 ==> reply == Accepted(Fresh, StopCounts(tasks))
      ensures |tasks| > 0 ==> requests == RequestPending(old(requests), op, caller, StopCounts(tasks))
    {
      var counts := CountStopTasks(tasks);
      EveryTaskIsCounted(tasks);
      if counts.affected == 0 && counts.skipped == 0 {
        return Conflict;
      }
      var row, alreadyPending := RecordPending(op, caller, counts);
      reply := Accepted(Fresh, counts);
    }

    method ExecuteStop(caller: string, tasks: seq<State>) returns (reply: Reply)
      modifies this`requests
      ensures (View(), reply) == Stop(old(View()), caller, tasks)
      ensures reply.Accepted? <==> StopIsTaken(old(View()), tasks)
      ensures reply.Accepted? && !old(IsPending(requests, StopOp)) ==>
                && reply == Accepted(Fresh, Counts(|tasks| - Over(tasks), Over(tasks)))
                && requests == old(requests)[StopOp := Recorded(caller, reply.counts)]
      ensures reply.Accepted? ==> IsPending(requests, StopOp)
      ensures !reply.Accepted? || old(IsPending(requests, StopOp)) ==> requests == old(requests)
    {
      StopAnswers(View(), caller, tasks);
      if planetScale {
        return Conflict;
      }
      if IsPending(requests, StopOp) {
        return Accepted(AlreadyRequested, requests[StopOp].counts);
      }
      if IsTerminal(applyState) {
        return Conflict;
      }
      reply := RecordIntent(StopOp, caller, tasks);
    }

    method ExecuteCancel(caller: string, tasks: seq<State>) returns (reply: Reply)
      modifies this`requests
      ensures (View(), reply) == Cancel(old(View()), caller, tasks)
      ensures reply.Accepted? <==> CancelIsTaken(old(View()), tasks)
      ensures reply.Accepted? && !old(IsPending(requests, CancelOp)) ==>
                && reply == Accepted(Fresh, Counts(|tasks| - Over(tasks), Over(tasks)))
                && requests == old(requests)[CancelOp := Recorded(caller, reply.counts)]
      ensures reply.Accepted? ==> IsPending(requests, CancelOp)
      ensures !reply.Accepted? || old(IsPending(requests, CancelOp)) ==> requests == old(requests)
    {
      CancelAnswers(View(), caller, tasks);
      if IsTerminal(applyState) && applyState != Stopped {
        return Conflict;
      }
      if IsPending(requests, CancelOp) {
        return Accepted(AlreadyRequested, requests[CancelOp].counts);
      }
      reply := RecordIntent(CancelOp, caller, tasks);
    }

    // executeRevertForApply and executeSkipRevertForApply, with the two
    // operations swapped.
    method ExecuteExclusive(op: ControlOp, other: ControlOp, caller: string, answer: EngineAnswer,
                            now: int) returns (reply: Reply)
      modifies this`requests
      ensures (View(), reply) == Exclusive(old(View()), op, other, caller, answer, now)
      ensures reply != Conflict <==> ExclusiveIsTaken(old(View()), other)
      ensures reply != Conflict && !old(IsPending(requests, op)) ==>
                requests == old(requests)[op := Resolved(caller, answer, now)]
      ensures reply == Conflict || old(IsPending(requests, op)) ==> requests == old(requests)
    {
      ExclusiveAnswers(View(), op, other, caller, answer, now);
      if !planetScale || applyState != RevertWindow || IsPending(requests, other) {
        return Conflict;
      }
      var row, alreadyPending := RecordPending(op, caller, Counts(0, 0));
      if alreadyPending {
        return Accepted(AlreadyRequested, Counts(0, 0));
      }
      reply := AttemptNow(op, answer, now);
    }

    method AttemptNow(op: ControlOp, answer: EngineAnswer, now: int) returns (reply: Reply)
      modifies this`requests
      ensures requests == Attempted(old(requests), op, answer, now)
      ensures reply == if answer.Declined? then EngineDeclined else Accepted(Fresh, Counts(0, 0))
    {
      reply := Accepted(Fresh, Counts(0, 0));
      if answer.Took? {
        Complete(op, now);
      } else if answer.Declined? {
        Fail(op, answer.reason, now);
        reply := EngineDeclined;
      }
    }
  }

  // --- when a request is taken, and what it records ------------------------

  predicate Awaits(p: Plane, op: ControlOp) {
    op in p.requests && p.requests[op].status == PendingRequest
  }

  // The tasks that are over, and those that were stopped.
  function Over(tasks: seq<State>): (n: nat)
    ensures n <= |tasks|
  {
    OverIsSome(tasks);
    var m := multiset(tasks);
    m[Completed] + m[Failed] + m[Reverted] + m[Cancelled]
  }

  lemma {:induction false} OverIsSome(tasks: seq<State>)
    ensures var m := multiset(tasks); m[Completed] + m[Failed] + m[Reverted] + m[Cancelled] <= |tasks|
  {
    if |tasks| == 0 {
    } else {
      OverIsSome(tasks[..|tasks| - 1]);
      assert tasks == tasks[..|tasks| - 1] + [tasks[|tasks| - 1]];
    }
  }

  /** A stop or cancel counts the tasks that are over as skipped and all others as
      affected. */
  lemma {:induction false} StopCountsAre(tasks: seq<State>)
    ensures StopCounts(tasks) == Counts(|tasks| - Over(tasks), Over(tasks))
  {
    if |tasks| == 0 {
    } else {
      StopCountsAre(tasks[..|tasks| - 1]);
      assert tasks == tasks[..|tasks| - 1] + [tasks[|tasks| - 1]];
    }
  }

  /** A start counts the stopped tasks as affected and those that are over as
      skipped. */
  lemma {:induction false} StartCountsAre(tasks: seq<State>)
    ensures StartCounts(tasks) == Counts(multiset(tasks)[Stopped], Over(tasks))
  {
    if |tasks| == 0 {
    } else {
      StartCountsAre(tasks[..|tasks| - 1]);
      assert tasks == tasks[..|tasks| - 1] + [tasks[|tasks| - 1]];
    }
  }

  function Recorded(caller: string, counts: Counts): Request {
    Request(PendingRequest, caller, counts, "", None)
  }

  predicate StopIsTaken(p: Plane, tasks: seq<State>) {
    && !p.planetScale
    && (Awaits(p, StopOp) || (p.applyState !in {Completed, Failed, Stopped, Cancelled, Reverted} && |tasks| > 0))
  }

  /** A stop is taken exactly by a live apply with tasks, or where one is pending. */
  lemma StopAnswers(p: Plane, caller: string, tasks: seq<State>)
    ensures var (q, reply) := Stop(p, caller, tasks);
            && (reply.Accepted? <==> StopIsTaken(p, tasks))
            && (reply.Accepted? && !Awaits(p, StopOp) ==>
                  && reply == Accepted(Fresh, Counts(|tasks| - Over(tasks), Over(tasks)))
                  && q == p.(requests := p.requests[StopOp := Recorded(caller, reply.counts)]))
            && (!reply.Accepted? || Awaits(p, StopOp) ==> q == p)
  {
    StopCountsAre(tasks);
  }

  predicate CancelIsTaken(p: Plane, tasks: seq<State>) {
    p.applyState !in {Completed, Failed, Cancelled, Reverted} && (Awaits(p, CancelOp) || |tasks| > 0)
  }

  /** A cancel is taken exactly by a live or stopped apply with tasks, or where one is
      pending. */
  lemma CancelAnswers(p: Plane, caller: string, tasks: seq<State>)
    ensures var (q, reply) := Cancel(p, caller, tasks);
            && (reply.Accepted? <==> CancelIsTaken(p, tasks))
            && (reply.Accepted? && !Awaits(p, CancelOp) ==>
                  && reply == Accepted(Fresh, Counts(|tasks| - Over(tasks), Over(tasks)))
                  && q == p.(requests := p.requests[CancelOp := Recorded(caller, reply.counts)]))
            && (!reply.Accepted? || Awaits(p, CancelOp) ==> q == p)
  {
    StopCountsAre(tasks);
  }

  predicate ReleaseIsTaken(p: Plane, anyPause: bool) {
    p.applyState == State.Paused && anyPause && !Awaits(p, StopOp) && !Awaits(p, CancelOp)
  }

  /** A release is taken exactly by a paused apply with a pausing operation and
      neither stop nor cancel pending, and is recorded unless one is pending or
      completed already. */
  lemma ReleaseAnswers(p: Plane, caller: string, anyPause: bool)
    ensures var (q, reply) := Release(p, caller, anyPause);
            var held := ReleaseOp in p.requests && p.requests[ReleaseOp].status in {PendingRequest, CompletedRequest};
            && (reply.Accepted? <==> ReleaseIsTaken(p, anyPause))
            && (reply.Accepted? && !held ==>
                  && reply == Accepted(Fresh, Counts(0, 0))
                  && q == p.(requests := p.requests[ReleaseOp := Recorded(caller, Counts(0, 0))]))
            && (reply.Accepted? && held ==> reply == Accepted(AlreadyRequested, Counts(0, 0)))
            && (!reply.Accepted? || held ==> q == p)
  {
  }

  predicate ExclusiveIsTaken(p: Plane, other: ControlOp) {
    p.planetScale && p.applyState == RevertWindow && !Awaits(p, other)
  }

  // What is left of a fresh intent after the immediate attempt.
  function Resolved(caller: string, answer: EngineAnswer, now: int): Request {
    match answer
    case CallFailed => Request(PendingRequest, caller, Counts(0, 0), "", None)
    case Took => Request(CompletedRequest, caller, Counts(0, 0), "", Some(now))
    case Declined(reason) => Request(FailedRequest, caller, Counts(0, 0), reason, Some(now))
  }

  /** A revert or skip-revert is taken exactly in the revert window while the other is
      not pending; a fresh one stays pending, completes or fails as the engine
      answers. */
  lemma ExclusiveAnswers(p: Plane, op: ControlOp, other: ControlOp, caller: string, answer: EngineAnswer, now: int)
    ensures var (q, reply) := Exclusive(p, op, other, caller, answer, now);
            && (reply != Conflict <==> ExclusiveIsTaken(p, other))
            && (reply == EngineDeclined <==> ExclusiveIsTaken(p, other) && !Awaits(p, op) && answer.Declined?)
            && (reply != Conflict && !Awaits(p, op) ==>
                  q == p.(requests := p.requests[op := Resolved(caller, answer, now)]))
            && (reply == Conflict || Awaits(p, op) ==> q == p)
  {
    if ExclusiveIsTaken(p, other) && !Awaits(p, op) {
      var t := p.requests[op := Recorded(caller, Counts(0, 0))];
      assert t[op := Resolved(caller, answer, now)] == p.requests[op := Resolved(caller, answer, now)];
    }
  }

  // The remote data plane says that a stop still pending here has been done.
  predicate StoppedRemotely(p: Plane, before: Progress) {
    && Awaits(p, StopOp) && p.applyState != Stopped
    && p.remote && p.hasExternalId && before.Reported? && before.state == Stopped
  }

  // There is something to start: a deferred deploy, a start already asked for, or
  // stopped work, remote or here.
  predicate HasWorkToStart(p: Plane, tasks: seq<State>, before: Progress, progress: Progress) {
    || Awaits(p, StartOp)
    || (p.applyState == WaitingForDeploy && !StoppedRemotely(p, before))
    || (&& (p.applyState in {Running, RunningDegraded, Stopped} || StoppedRemotely(p, before))
        && if p.remote && p.hasExternalId then progress.Reported? && progress.state == Stopped else Stopped in tasks)
  }

  // What is known once a pending stop has been looked at.
  lemma StopLookedAt(p: Plane, before: Progress, now: int)
    requires p.applyState in {WaitingForDeploy, Pending, Running, RunningDegraded, Stopped}
    ensures var r := CompleteResolvedStop(p, before, now);
            var done := Awaits(p, StopOp) ==> p.applyState == Stopped || StoppedRemotely(p, before);
            && (done ==> r.Some?)
            && (r.Some? ==>
                  && (Awaits(r.value, StopOp) <==> !done)
                  && (Awaits(r.value, CancelOp) <==> Awaits(p, CancelOp))
                  && (Awaits(r.value, StartOp) <==> Awaits(p, StartOp))
                  && r.value.applyState == (if StoppedRemotely(p, before) then Stopped else p.applyState)
                  && r.value.remote == p.remote && r.value.hasExternalId == p.hasExternalId)
  {
  }

  lemma QueueTakenIff(p: Plane, caller: string, tasks: seq<State>, progress: Progress)
    requires p.applyState in {WaitingForDeploy, Pending, Running, RunningDegraded, Stopped}
    ensures QueueStart(p, caller, tasks, progress).1.Accepted?
            <==> || p.applyState == WaitingForDeploy
                 || Awaits(p, StartOp)
                 || (&& p.applyState != Pending
                     && if p.remote && p.hasExternalId then progress.Reported? && progress.state == Stopped
                        else Stopped in tasks)
  {
    StartCountsAre(tasks);
    assert multiset(tasks)[Stopped] > 0 <==> Stopped in tasks;
  }

  predicate StartIsTaken(p: Plane, tasks: seq<State>, before: Progress, progress: Progress) {
    && p.applyState in {WaitingForDeploy, Pending, Running, RunningDegraded, Stopped}
    && (p.deferDeploy ==> p.applyState == WaitingForDeploy)
    && !Awaits(p, CancelOp)
    && (Awaits(p, StopOp) ==> p.applyState == Stopped || StoppedRemotely(p, before))
    && HasWorkToStart(p, tasks, before, progress)
  }

  /** A start is taken exactly in the five states that allow it, with a deferred
      deploy only while it waits, no cancel pending, a pending stop done, and
      something to start. */
  lemma StartTakenIff(p: Plane, caller: string, tasks: seq<State>, before: Progress, progress: Progress, now: int)
    ensures Start(p, caller, tasks, before, progress, now).1.Accepted?
            <==> StartIsTaken(p, tasks, before, progress)
  {
    if p.applyState in {WaitingForDeploy, Pending, Running, RunningDegraded, Stopped} {
      StopLookedAt(p, before, now);
      var r := CompleteResolvedStop(p, before, now);
      if r.Some? {
        QueueTakenIff(r.value, caller, tasks, progress);
      }
    }
  }

  lemma {:induction false} EveryTaskIsCounted(tasks: seq<State>)
    ensures StopCounts(tasks).affected + StopCounts(tasks).skipped == |tasks|
  {
    if |tasks| == 0 {
    } else {
      EveryTaskIsCounted(tasks[..|tasks| - 1]);
    }
  }

  // --- runs of whole requests and operator steps ---------------------------

  datatype Event =
    | HandleStart(caller: string, tasks: seq<State>, before: Progress, progress: Progress, now: int)
    | HandleStop(caller: string, tasks: seq<State>)
    | HandleCancel(caller: string, tasks: seq<State>)
    | HandleRelease(caller: string, anyPause: bool)
    | HandleRevert(caller: string, answer: EngineAnswer, now: int)
    | HandleSkipRevert(caller: string, answer: EngineAnswer, now: int)
    | CheckStop(now: int)
    | CheckCancel(now: int)
      // the drive that owns the apply completes or fails a request itself
    | OwnerResolves(op: ControlOp, succeeded: bool, errorMessage: string, now: int)
      // a projection or an engine rewrites the stored apply
    | StateWritten(state: State, completedAt: Option<int>)

  function Step(p: Plane, e: Event): Plane {
    match e
    case HandleStart(caller, tasks, before, progress, now) => Start(p, caller, tasks, before, progress, now).0
    case HandleStop(caller, tasks) => Stop(p, caller, tasks).0
    case HandleCancel(caller, tasks) => Cancel(p, caller, tasks).0
    case HandleRelease(caller, anyPause) => Release(p, caller, anyPause).0
    case HandleRevert(caller, answer, now) => Exclusive(p, RevertOp, SkipRevertOp, caller, answer, now).0
    case HandleSkipRevert(caller, answer, now) => Exclusive(p, SkipRevertOp, RevertOp, caller, answer, now).0
    case CheckStop(now) => CompleteStopIfResolved(p, now)
    case CheckCancel(now) => CompleteCancelIfCancelled(p, now)
    case OwnerResolves(op, succeeded, errorMessage, now) =>
      p.(requests := if succeeded then CompletePending(p.requests, op, now)
         else FailPending(p.requests, op, errorMessage, now))
    case StateWritten(state, completedAt) => p.(applyState := state, completedAt := completedAt)
  }

  function Run(p: Plane, events: seq<Event>): Plane {
    if |events| == 0 then p else Step(Run(p, events[..|events| - 1]), events[|events| - 1])
  }

  predicate Owned(e: Event, op: ControlOp) {
    e.OwnerResolves? && e.op == op
  }

  // --- start ---------------------------------------------------------------

  // Two tables that agree on every row but one operation's.
  predicate AgreeExcept(t: Table, u: Table, except: ControlOp) {
    forall op | op != except :: (op in t <==> op in u) && (op in t ==> t[op] == u[op])
  }

  lemma ResolvingStopTouchesOnlyStop(p: Plane, progress: Progress, now: int)
    requires CompleteResolvedStop(p, progress, now).Some?
    ensures var q := CompleteResolvedStop(p, progress, now).value;
            && AgreeExcept(p.requests, q.requests, StopOp)
            && (!IsPending(p.requests, StopOp) ==> q == p)
            && (IsPending(p.requests, StopOp) && !IsPending(q.requests, StopOp) ==>
                  StopResolvedBy(q.applyState) && StopOp in q.requests && q.requests[StopOp].status == CompletedRequest)
            && (q.applyState == p.applyState || q.applyState == Stopped)
  {
  }

  predicate QueuesFor(p: Plane, q: Plane, caller: string, counts: Counts) {
    && StartOp in q.requests && q.requests[StartOp] == Request(PendingRequest, caller, counts, "", None)
    && (q.applyState.Stopped? || q.applyState.WaitingForDeploy?)
    && counts.affected > 0
    && !IsPending(p.requests, StartOp)
  }

  lemma QueueTouchesOnlyStart(p: Plane, caller: string, tasks: seq<State>, progress: Progress)
    requires StartAllowedIn(p.applyState)
    ensures var (q, reply) := QueueStart(p, caller, tasks, progress);
            && AgreeExcept(p.requests, q.requests, StartOp)
            && (reply.Accepted? && reply.status == Queued ==> QueuesFor(p, q, caller, reply.counts))
            && (reply.Accepted? && reply.status != Queued ==>
                  IsPending(p.requests, StartOp) && reply == Accepted(AlreadyRequested, p.requests[StartOp].counts))
            && (!reply.Accepted? || reply.status != Queued ==> q.requests == p.requests)
            && (q.applyState == p.applyState || q.applyState == Stopped)
  {
  }

  // A freshly queued start: nothing is left asking to stop, the operator can
  // claim the apply, and the row it will find is the caller's. Of the other
  // requests only the stop can have changed, and then it is completed.
  lemma FreshStartIsClaimable(p: Plane, caller: string, tasks: seq<State>, before: Progress, progress: Progress,
                              now: int)
    requires Start(p, caller, tasks, before, progress, now).1.Accepted?
    requires Start(p, caller, tasks, before, progress, now).1.status == Queued
    ensures var (q, reply) := Start(p, caller, tasks, before, progress, now);
            && !StopOrCancelPending(q.requests)
            && QueuesFor(p, q, caller, reply.counts)
            && (IsPending(p.requests, StopOp) ==> StopOp in q.requests && q.requests[StopOp].status == CompletedRequest)
            && (forall op | op != StartOp && op != StopOp ::
                  (op in p.requests <==> op in q.requests) && (op in p.requests ==> p.requests[op] == q.requests[op]))
  {
    ResolvingStopTouchesOnlyStop(p, before, now);
    QueueTouchesOnlyStart(CompleteResolvedStop(p, before, now).value, caller, tasks, progress);
  }

  // A start that is not freshly queued records no start request.
  lemma OnlyQueuedStartsWriteTheRow(p: Plane, caller: string, tasks: seq<State>, before: Progress, progress: Progress,
                                    now: int)
    ensures var (q, reply) := Start(p, caller, tasks, before, progress, now);
            && (IsPending(q.requests, StartOp)
                <==> IsPending(p.requests, StartOp) || (reply.Accepted? && reply.status == Queued))
            && (IsPending(p.requests, StartOp) ==> q.requests[StartOp] == p.requests[StartOp])
            && (IsPending(p.requests, StartOp) && reply.Accepted? ==>
                  reply == Accepted(AlreadyRequested, p.requests[StartOp].counts))
            && (reply.Accepted? ==> IsPending(q.requests, StartOp) && q.requests[StartOp].counts == reply.counts)
  {
    var r := CompleteResolvedStop(p, before, now);
    if r.Some? {
      ResolvingStopTouchesOnlyStop(p, before, now);
      if StartAllowedIn(r.value.applyState) {
        QueueTouchesOnlyStart(r.value, caller, tasks, progress);
      }
    }
  }

  lemma StepKeepsPendingStart(p: Plane, e: Event)
    requires IsPending(p.requests, StartOp) && !Owned(e, StartOp)
    ensures IsPending(Step(p, e).requests, StartOp) && Step(p, e).requests[StartOp] == p.requests[StartOp]
  {
    match e
    case HandleStart(caller, tasks, before, progress, now) =>
      OnlyQueuedStartsWriteTheRow(p, caller, tasks, before, progress, now);
    case HandleStop(_, _) =>
    case HandleCancel(_, _) =>
    case HandleRelease(_, _) =>
    case HandleRevert(_, _, _) =>
    case HandleSkipRevert(_, _, _) =>
    case CheckStop(_) =>
    case CheckCancel(_) =>
    case OwnerResolves(_, _, _, _) =>
    case StateWritten(_, _) =>
  }

  lemma {:induction false} PendingStartIsKept(p: Plane, events: seq<Event>)
    requires IsPending(p.requests, StartOp)
    requires forall e <- events :: !Owned(e, StartOp)
    ensures IsPending(Run(p, events).requests, StartOp) && Run(p, events).requests[StartOp] == p.requests[StartOp]
  {
    if |events| == 0 {
    } else {
      PendingStartIsKept(p, events[..|events| - 1]);
      StepKeepsPendingStart(Run(p, events[..|events| - 1]), events[|events| - 1]);
    }
  }

  /** Until its owner resolves it, every later start is told the counts the
      first one recorded, whatever the tasks and the remote say by then. */
  lemma RepeatedStartsAgree(p: Plane, caller: string, tasks: seq<State>, before: Progress, progress: Progress,
                            now: int, events: seq<Event>,
                            caller': string, tasks': seq<State>, before': Progress, progress': Progress, now': int)
    requires Start(p, caller, tasks, before, progress, now).1.Accepted?
    requires forall e <- events :: !Owned(e, StartOp)
    ensures var (q, first) := Start(p, caller, tasks, before, progress, now);
            var again := Start(Run(q, events), caller', tasks', before', progress', now').1;
            again.Accepted? ==> again == Accepted(AlreadyRequested, first.counts)
  {
    var (q, first) := Start(p, caller, tasks, before, progress, now);
    OnlyQueuedStartsWriteTheRow(p, caller, tasks, before, progress, now);
    PendingStartIsKept(q, events);
    OnlyQueuedStartsWriteTheRow(Run(q, events), caller', tasks', before', progress', now');
  }

  /** A stopped apply carries no completion time anywhere else; the start path
      that learns of the stop from the remote writes one, and only that path. */
  lemma StartStampsStoppedIff(p: Plane, caller: string, tasks: seq<State>, before: Progress, progress: Progress,
                              now: int)
    requires p.applyState == Stopped ==> p.completedAt == None
    ensures var q := Start(p, caller, tasks, before, progress, now).0;
            q.applyState == Stopped && q.completedAt != None
            <==> && StartAllowedIn(p.applyState) && (p.deferDeploy ==> p.applyState == WaitingForDeploy)
                 && IsPending(p.requests, StopOp) && p.applyState != Stopped
                 && p.remote && p.hasExternalId && before.Reported? && before.state == Stopped
  {
  }

  /** A check completes a pending stop exactly when the apply has ended, and a pending
      cancel exactly when it was cancelled. */
  lemma ChecksComplete(p: Plane, now: int)
    ensures Awaits(p, StopOp) ==>
              (Awaits(Step(p, CheckStop(now)), StopOp)
               <==> p.applyState !in {Completed, Failed, Stopped, Cancelled, Reverted})
    ensures Awaits(p, CancelOp) ==> (Awaits(Step(p, CheckCancel(now)), CancelOp) <==> p.applyState != Cancelled)
    ensures Step(p, CheckStop(now)).applyState == p.applyState && Step(p, CheckCancel(now)).applyState == p.applyState
  {
  }

  // What a start would have to do: the deferred deploy, the stopped tables the
  // remote reports but at least one, or the stopped tasks.
  function WorkToStart(p: Plane, tasks: seq<State>, progress: Progress): Counts {
    if p.applyState == WaitingForDeploy then Counts(1, 0)
    else if p.remote && p.hasExternalId && progress.Reported? then
      var stopped := multiset(progress.tables)[Stopped];
      Counts(if stopped == 0 then 1 else stopped, Over(progress.tables))
    else Counts(multiset(tasks)[Stopped], Over(tasks))
  }

  /** A queued start records those counts, and leaves a running apply stopped. */
  lemma QueuedStartRecords(p: Plane, caller: string, tasks: seq<State>, progress: Progress)
    requires QueueStart(p, caller, tasks, progress).1.Accepted? && !Awaits(p, StartOp)
    ensures var counts := WorkToStart(p, tasks, progress);
            var (q, reply) := QueueStart(p, caller, tasks, progress);
            && reply == Accepted(Queued, counts)
            && q.requests == p.requests[StartOp := Recorded(caller, counts)]
            && q.applyState == if p.applyState in {Running, RunningDegraded} then Stopped else p.applyState
  {
    StartCountsAre(tasks);
    if progress.Reported? {
      StartCountsAre(progress.tables);
    }
  }

  // --- stop ----------------------------------------------------------------

  lemma StopIsResolvedOnlyWhenStopped(p: Plane, e: Event)
    requires IsPending(p.requests, StopOp) && !Owned(e, StopOp)
    ensures !IsPending(Step(p, e).requests, StopOp) ==>
              && StopResolvedBy(Step(p, e).applyState)
              && StopOp in Step(p, e).requests && Step(p, e).requests[StopOp].status == CompletedRequest
  {
    match e
    case HandleStart(caller, tasks, before, progress, now) =>
      StartResolvesStopOnlyWhenStopped(p, caller, tasks, before, progress, now);
    case HandleStop(_, _) =>
    case HandleCancel(_, _) =>
    case HandleRelease(_, _) =>
    case HandleRevert(_, _, _) =>
    case HandleSkipRevert(_, _, _) =>
    case CheckStop(_) =>
    case CheckCancel(_) =>
    case OwnerResolves(_, _, _, _) =>
    case StateWritten(_, _) =>
  }

  lemma StartResolvesStopOnlyWhenStopped(p: Plane, caller: string, tasks: seq<State>, before: Progress,
                                         progress: Progress, now: int)
    requires IsPending(p.requests, StopOp)
    ensures var q := Start(p, caller, tasks, before, progress, now).0;
            !IsPending(q.requests, StopOp) ==>
              StopResolvedBy(q.applyState) && StopOp in q.requests && q.requests[StopOp].status == CompletedRequest
  {
    var r := CompleteResolvedStop(p, before, now);
    if r.Some? {
      ResolvingStopTouchesOnlyStop(p, before, now);
      if StartAllowedIn(r.value.applyState) {
        QueueTouchesOnlyStart(r.value, caller, tasks, progress);
      }
    }
  }

  /** In every run, a pending stop that its owner left alone is completed only at
      a step after which the stored apply is stopped, cancelled or terminal. */
  lemma {:induction false} StopsAreResolvedByTheApply(p: Plane, events: seq<Event>) returns (k: nat)
    requires IsPending(p.requests, StopOp) && !IsPending(Run(p, events).requests, StopOp)
    requires forall e <- events :: !Owned(e, StopOp)
    ensures k < |events| && StopResolvedBy(Run(p, events[..k + 1]).applyState)
    ensures IsPending(Run(p, events[..k]).requests, StopOp) && !IsPending(Run(p, events[..k + 1]).requests, StopOp)
  {
    var last := |events| - 1;
    var before := events[..last];
    if IsPending(Run(p, before).requests, StopOp) {
      StopIsResolvedOnlyWhenStopped(Run(p, before), events[last]);
      assert events[..last + 1] == events;
      k := last;
    } else {
      k := StopsAreResolvedByTheApply(p, before);
      assert before[..k] == events[..k] && before[..k + 1] == events[..k + 1];
    }
  }

  // --- revert and skip-revert ----------------------------------------------

  predicate Contradiction(t: Table) {
    IsPending(t, RevertOp) && IsPending(t, SkipRevertOp)
  }

  lemma StepKeepsIntentsExclusive(p: Plane, e: Event)
    requires !Contradiction(p.requests)
    ensures !Contradiction(Step(p, e).requests)
  {
    match e
    case HandleStart(caller, tasks, before, progress, now) =>
      StartTouchesOnlyStartAndStop(p, caller, tasks, before, progress, now);
    case HandleStop(_, _) =>
    case HandleCancel(_, _) =>
    case HandleRelease(_, _) =>
    case HandleRevert(_, _, _) =>
    case HandleSkipRevert(_, _, _) =>
    case CheckStop(_) =>
    case CheckCancel(_) =>
    case OwnerResolves(_, _, _, _) =>
    case StateWritten(_, _) =>
  }

  lemma StartTouchesOnlyStartAndStop(p: Plane, caller: string, tasks: seq<State>, before: Progress,
                                     progress: Progress, now: int)
    ensures var q := Start(p, caller, tasks, before, progress, now).0;
            forall op | op != StartOp && op != StopOp ::
              (op in p.requests <==> op in q.requests) && (op in p.requests ==> p.requests[op] == q.requests[op])
  {
    var r := CompleteResolvedStop(p, before, now);
    if r.Some? {
      ResolvingStopTouchesOnlyStop(p, before, now);
      if StartAllowedIn(r.value.applyState) {
        QueueTouchesOnlyStart(r.value, caller, tasks, progress);
      }
    }
  }

  /** No sequence of whole requests and operator steps leaves both pending. */
  lemma {:induction false} RevertAndSkipRevertNeverBothPending(p: Plane, events: seq<Event>)
    requires !Contradiction(p.requests)
    ensures !Contradiction(Run(p, events).requests)
  {
    if |events| == 0 {
    } else {
      RevertAndSkipRevertNeverBothPending(p, events[..|events| - 1]);
      StepKeepsIntentsExclusive(Run(p, events[..|events| - 1]), events[|events| - 1]);
    }
  }

  // --- the same two requests, split ----------------------------------------

  // A revert or skip-revert request split where two can interleave: the other
  // intent is read, and later the own one is recorded if the other was not
  // pending. Resolving stands for the engine's answer or the apply's owner.
  datatype Intent = Revert | SkipRevert

  function OpOf(i: Intent): ControlOp {
    if i.Revert? then RevertOp else SkipRevertOp
  }

  function Opposite(i: Intent): Intent {
    if i.Revert? then SkipRevert else Revert
  }

  datatype IntentStep =
    | ReadOther(request: nat, intent: Intent)
    | RecordIntent(request: nat, caller: string)
    | ResolveIntent(intent: Intent, succeeded: bool, errorMessage: string, now: int)

  // What a request in flight wants, and whether it saw the other intent pending.
  datatype Seen = Seen(intent: Intent, otherPending: bool)

  datatype Intents = Intents(table: Table, seen: map<nat, Seen>)

  function IntentNext(s: Intents, e: IntentStep): Intents {
    match e
    case ReadOther(r, i) => s.(seen := s.seen[r := Seen(i, IsPending(s.table, OpOf(Opposite(i))))])
    case RecordIntent(r, caller) =>
      if r in s.seen && !s.seen[r].otherPending
      then s.(table := RequestPending(s.table, OpOf(s.seen[r].intent), caller, Counts(0, 0))) else s
    case ResolveIntent(i, succeeded, errorMessage, now) =>
      s.(table := if succeeded then CompletePending(s.table, OpOf(i), now)
         else FailPending(s.table, OpOf(i), errorMessage, now))
  }

  function IntentRun(s: Intents, steps: seq<IntentStep>): Intents {
    if |steps| == 0 then s else IntentNext(IntentRun(s, steps[..|steps| - 1]), steps[|steps| - 1])
  }

  // The request saw the other intent not pending, and now it is.
  predicate StaleRecord(s: Intents, e: IntentStep) {
    && e.RecordIntent? && e.request in s.seen && !s.seen[e.request].otherPending
    && IsPending(s.table, OpOf(Opposite(s.seen[e.request].intent)))
  }

  /** A step leaves both intents pending exactly when it records for a request
      whose reading of the other intent has gone stale. */
  lemma ContradictionIff(s: Intents, e: IntentStep)
    requires !Contradiction(s.table)
    ensures Contradiction(IntentNext(s, e).table) <==> StaleRecord(s, e)
  {
  }

  /** Over every interleaving: both intents are pending only after such a step. */
  lemma {:induction false} ContradictionNeedsAStaleRecord(s: Intents, steps: seq<IntentStep>) returns (k: nat)
    requires !Contradiction(s.table) && Contradiction(IntentRun(s, steps).table)
    ensures k < |steps| && StaleRecord(IntentRun(s, steps[..k]), steps[k])
  {
    var last := |steps| - 1;
    if Contradiction(IntentRun(s, steps[..last]).table) {
      k := ContradictionNeedsAStaleRecord(s, steps[..last]);
      assert steps[..last][..k] == steps[..k];
    } else {
      ContradictionIff(IntentRun(s, steps[..last]), steps[last]);
      k := last;
    }
  }

  /** And it is reached from any table without pending intents: two requests that
      both read before either records. */
  lemma SplitIntentsCanContradict(s: Intents, caller: string)
    requires !IsPending(s.table, RevertOp) && !IsPending(s.table, SkipRevertOp)
    ensures var steps := [ReadOther(1, Revert), ReadOther(2, SkipRevert), RecordIntent(1, caller),
                          RecordIntent(2, caller)];
            Contradiction(IntentRun(s, steps).table)
  {
    var steps := [ReadOther(1, Revert), ReadOther(2, SkipRevert), RecordIntent(1, caller), RecordIntent(2, caller)];
    FourIntentSteps(s, steps);
    var s2 := IntentNext(IntentNext(s, steps[0]), steps[1]);
    assert s2.table == s.table && s2.seen[1] == Seen(Revert, false) && s2.seen[2] == Seen(SkipRevert, false);
    assert IsPending(IntentNext(s2, steps[2]).table, RevertOp);
  }

  lemma FourIntentSteps(s: Intents, steps: seq<IntentStep>)
    requires |steps| == 4
    ensures IntentRun(s, steps)
            == IntentNext(IntentNext(IntentNext(IntentNext(s, steps[0]), steps[1]), steps[2]), steps[3])
  {
    assert steps[..3][..2] == steps[..2] && steps[..2][..1] == steps[..1] && steps[..1][..0] == [];
    assert IntentRun(s, steps[..1]) == IntentNext(s, steps[0]);
    assert IntentRun(s, steps[..2]) == IntentNext(IntentRun(s, steps[..1]), steps[1]);
    assert IntentRun(s, steps[..3]) == IntentNext(IntentRun(s, steps[..2]), steps[2]);
  }

  // --- release -------------------------------------------------------------

  // A release request split where two requests can interleave: the latch is
  // read, and later the request is recorded if it was read open.
  datatype ReleaseStep =
    | ReadLatch(request: nat)
    | RecordRelease(request: nat, caller: string)
    | CompleteRelease(now: int)
    | FailRelease(errorMessage: string, now: int)

  // The table and what each request in flight has read.
  datatype Releases = Releases(table: Table, seen: map<nat, bool>)

  function ReleaseNext(s: Releases, e: ReleaseStep): Releases {
    match e
    case ReadLatch(r) => s.(seen := s.seen[r := Latched(s.table)])
    case RecordRelease(r, caller) =>
      if r in s.seen && !s.seen[r] then s.(table := RequestPending(s.table, ReleaseOp, caller, Counts(0, 0))) else s
    case CompleteRelease(now) => s.(table := CompletePending(s.table, ReleaseOp, now))
    case FailRelease(errorMessage, now) => s.(table := FailPending(s.table, ReleaseOp, errorMessage, now))
  }

  function ReleaseRun(s: Releases, steps: seq<ReleaseStep>): Releases {
    if |steps| == 0 then s else ReleaseNext(ReleaseRun(s, steps[..|steps| - 1]), steps[|steps| - 1])
  }

  /** Once latched, no interleaving of split requests opens the latch short of a
      failure of the request. */
  lemma {:induction false} LatchHoldsUntilItFails(s: Releases, steps: seq<ReleaseStep>)
    requires Latched(s.table)
    requires forall e <- steps :: !e.FailRelease?
    ensures Latched(ReleaseRun(s, steps).table)
  {
    if |steps| == 0 {
    } else {
      LatchHoldsUntilItFails(s, steps[..|steps| - 1]);
      assert steps[|steps| - 1] in steps;
    }
  }

  // A split step rewrites a latched row exactly when a request that read the
  // latch open records against a row completed in between.
  lemma SplitReleaseRewritesIff(s: Releases, e: ReleaseStep)
    requires Latched(s.table) && (e.ReadLatch? || e.RecordRelease?)
    ensures ReleaseNext(s, e).table != s.table
            <==> && e.RecordRelease? && e.request in s.seen && !s.seen[e.request]
                 && s.table[ReleaseOp].status == CompletedRequest
  {
    if e.RecordRelease? && ReleaseNext(s, e).table != s.table {
      assert ReleaseNext(s, e).table[ReleaseOp].status == PendingRequest;
    }
  }

  lemma SplitReleaseCanLoseTheRequester()
    ensures var s := ReleaseRun(Releases(map[], map[]),
                                [ReadLatch(1), ReadLatch(2), RecordRelease(2, "a"), CompleteRelease(5),
                                 RecordRelease(1, "b")]);
            ReleaseOp in s.table && s.table[ReleaseOp] == Request(PendingRequest, "b", Counts(0, 0), "", None)
  {
    var steps := [ReadLatch(1), ReadLatch(2), RecordRelease(2, "a"), CompleteRelease(5), RecordRelease(1, "b")];
    var s0 := Releases(map[], map[]);
    assert steps[..4][..3] == steps[..3] && steps[..3][..2] == steps[..2] && steps[..2][..1] == steps[..1];
    assert steps[..1][..0] == [];
    assert ReleaseRun(s0, steps[..1]) == Releases(map[], map[1 := false]);
    assert ReleaseRun(s0, steps[..2]) == ReleaseNext(ReleaseRun(s0, steps[..1]), steps[1]);
    assert ReleaseRun(s0, steps[..3]) == ReleaseNext(ReleaseRun(s0, steps[..2]), steps[2]);
    assert ReleaseRun(s0, steps[..4]) == ReleaseNext(ReleaseRun(s0, steps[..3]), steps[3]);
  }

  lemma StepKeepsLatch(p: Plane, e: Event)
    requires Latched(p.requests)
    requires !(Owned(e, ReleaseOp) && !e.succeeded)
    ensures Latched(Step(p, e).requests)
    ensures Step(p, e).requests[ReleaseOp].requestedBy == p.requests[ReleaseOp].requestedBy
    ensures Step(p, e).requests[ReleaseOp].status == p.requests[ReleaseOp].status
            || Step(p, e).requests[ReleaseOp].status == CompletedRequest
  {
    match e
    case HandleStart(caller, tasks, before, progress, now) =>
      StartTouchesOnlyStartAndStop(p, caller, tasks, before, progress, now);
    case HandleStop(_, _) =>
    case HandleCancel(_, _) =>
    case HandleRelease(_, _) =>
    case HandleRevert(_, _, _) =>
    case HandleSkipRevert(_, _, _) =>
    case CheckStop(_) =>
    case CheckCancel(_) =>
    case OwnerResolves(_, _, _, _) =>
    case StateWritten(_, _) =>
  }

  /** With whole requests the latch also keeps its requester, in every run, and
      every projection that reads it afterwards holds no child back. */
  lemma {:induction false} ReleaseLatchIsOneWay(p: Plane, events: seq<Event>, ops: seq<Projection.Operation>)
    requires Latched(p.requests)
    requires forall e <- events :: !(Owned(e, ReleaseOp) && !e.succeeded)
    ensures var t := Run(p, events).requests;
            && Latched(t) && t[ReleaseOp].requestedBy == p.requests[ReleaseOp].requestedBy
            && (forall c <- Projection.Children(ops, Projection.EffectiveRelease(ops, Latched(t))) :: !c.pauseOnFailure)
  {
    if |events| == 0 {
    } else {
      ReleaseLatchIsOneWay(p, events[..|events| - 1], ops);
      StepKeepsLatch(Run(p, events[..|events| - 1]), events[|events| - 1]);
    }
  }
}
