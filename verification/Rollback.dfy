/**
 Which apply a rollback may start from (pkg/api/control_handlers.go): the one that
 owns the latest completed task of its database, type and environment.
 */
module Rollback {
  import opened Wrappers
  import opened States

  datatype Task = Task(applyId: int, planId: int, state: State, kind: string, environment: string,
                       completedAt: Option<int>, createdAt: int)

  predicate InScope(t: Task, kind: string, environment: string) {
    t.state == Completed && t.kind == kind && t.environment == environment
  }

  // A task with a completion time is after one without; creation times decide
  // between two without.
  predicate CompletedAfter(a: Task, b: Task) {
    if a.completedAt.Some? && b.completedAt.Some? then a.completedAt.value > b.completedAt.value
    else if a.completedAt.Some? then true
    else if b.completedAt.Some? then false
    else a.createdAt > b.createdAt
  }

  predicate Tied(a: Task, b: Task) {
    !CompletedAfter(a, b) && !CompletedAfter(b, a)
  }

  /** The comparison is a strict weak order: that is what lets one pass over the
      tasks find a maximal one. */
  lemma CompletedAfterIsAStrictWeakOrder(a: Task, b: Task, c: Task)
    ensures !CompletedAfter(a, a)
    ensures CompletedAfter(a, b) ==> !CompletedAfter(b, a)
    ensures CompletedAfter(a, b) && CompletedAfter(b, c) ==> CompletedAfter(a, c)
    ensures Tied(a, b) && Tied(b, c) ==> Tied(a, c)
    ensures CompletedAfter(a, c) ==> CompletedAfter(a, b) || CompletedAfter(b, c)
  {
  }

  // tasks[k] is in scope, nothing in scope is after it, and nothing listed
  // before it is tied with it.
  ghost predicate Latest(tasks: seq<Task>, kind: string, environment: string, k: nat) {
    && k < |tasks| && InScope(tasks[k], kind, environment)
    && (forall i :: 0 <= i < |tasks| && InScope(tasks[i], kind, environment) ==> !CompletedAfter(tasks[i], tasks[k]))
    && (forall i :: 0 <= i < k && InScope(tasks[i], kind, environment) ==> CompletedAfter(tasks[k], tasks[i]))
  }

  method LatestCompletedTask(tasks: seq<Task>, kind: string, environment: string) returns (latest: Option<nat>)
    ensures latest.None? <==> forall i :: 0 <= i < |tasks| ==> !InScope(tasks[i], kind, environment)
    ensures latest.Some? ==> Latest(tasks, kind, environment, latest.value)
  {
    latest := None;
    for n := 0 to |tasks|
      invariant latest.None? <==> forall i :: 0 <= i < n ==> !InScope(tasks[i], kind, environment)
      invariant latest.Some? ==> latest.value < n && Latest(tasks[..n], kind, environment, latest.value)
    {
      assert tasks[..n + 1] == tasks[..n] + [tasks[n]];
      if InScope(tasks[n], kind, environment) {
        if latest.None? {
          latest := Some(n);
        } else if CompletedAfter(tasks[n], tasks[latest.value]) {
          LaterStaysLatest(tasks[..n], kind, environment, latest.value, tasks[n]);
          latest := Some(n);
        }
      }
    }
    assert tasks[..|tasks|] == tasks;
  }

  lemma LaterStaysLatest(tasks: seq<Task>, kind: string, environment: string, k: nat, t: Task)
    requires Latest(tasks, kind, environment, k) && InScope(t, kind, environment) && CompletedAfter(t, tasks[k])
    ensures Latest(tasks + [t], kind, environment, |tasks|)
  {
    forall i | 0 <= i < |tasks| && InScope(tasks[i], kind, environment)
      ensures CompletedAfter(t, tasks[i]) && !CompletedAfter(tasks[i], t)
    {
      CompletedAfterIsAStrictWeakOrder(t, tasks[i], tasks[k]);
    }
  }

  /** The latest task by its times: if any completed task of the kind and environment
      has a completion time, it has one, and none has a later; otherwise none was
      created later. Tasks listed before it are strictly earlier. */
  lemma LatestByTheClock(tasks: seq<Task>, kind: string, environment: string, k: nat, i: nat)
    requires Latest(tasks, kind, environment, k) && i < |tasks|
    requires tasks[i].state == Completed && tasks[i].kind == kind && tasks[i].environment == environment
    ensures tasks[k].state == Completed && tasks[k].kind == kind && tasks[k].environment == environment
    ensures tasks[i].completedAt.Some? ==>
              tasks[k].completedAt.Some? && tasks[i].completedAt.value <= tasks[k].completedAt.value
    ensures tasks[i].completedAt.None? && tasks[k].completedAt.None? ==> tasks[i].createdAt <= tasks[k].createdAt
    ensures i < k && tasks[i].completedAt.Some? ==> tasks[i].completedAt.value < tasks[k].completedAt.value
    ensures i < k && tasks[i].completedAt.None? && tasks[k].completedAt.None? ==>
              tasks[i].createdAt < tasks[k].createdAt
  {
  }

  datatype Apply = Apply(id: int, planId: int, state: State, kind: string, environment: string, repository: string,
                         pullRequest: int)

  datatype Request = Request(environment: string, repository: string, pullRequest: int, requirePullRequest: bool)

  predicate InRequestScope(r: Request, a: Apply) {
    && a.state == Completed && a.environment == r.environment
    && (r.requirePullRequest ==> r.repository != "" && r.pullRequest > 0)
    && (r.repository != "" ==> a.repository == r.repository)
    && (r.pullRequest > 0 ==> a.pullRequest == r.pullRequest)
  }

  datatype Refusal = BadRequest | OutOfScope | NoOriginalSchema | NoCompletedTask | NotTheLatest | WrongPlan

  predicate Owns(a: Apply, t: Task) {
    t.applyId == a.id && t.planId == a.planId
  }

  ghost predicate OwnsLatest(tasks: seq<Task>, a: Apply) {
    exists k :: 0 <= k < |tasks| && Latest(tasks, a.kind, a.environment, k) && Owns(a, tasks[k])
  }

  /** A source in the request's scope is accepted exactly when it owns the latest
      task of its own database, type and environment, from its own plan. */
  method ValidateSource(r: Request, a: Apply, hasOriginalSchema: bool,
                        tasks: seq<Task>) returns (v: Result<(), Refusal>)
    ensures v.Ok? <==> r.environment != "" && InRequestScope(r, a) && hasOriginalSchema && OwnsLatest(tasks, a)
    ensures v.Ok? ==> a.state == Completed && a.environment == r.environment
    ensures v.Ok? ==> r.repository in {"", a.repository} && (r.pullRequest > 0 ==> r.pullRequest == a.pullRequest)
    ensures v.Ok? && r.requirePullRequest ==> r.repository == a.repository && r.pullRequest == a.pullRequest
  {
    if r.environment == "" {
      return Err(BadRequest);
    }
    if !InRequestScope(r, a) {
      return Err(OutOfScope);
    }
    if !hasOriginalSchema {
      return Err(NoOriginalSchema);
    }
    var latest := LatestCompletedTask(tasks, a.kind, a.environment);
    if latest.None? {
      return Err(NoCompletedTask);
    }
    forall k | 0 <= k < |tasks| && Latest(tasks, a.kind, a.environment, k)
      ensures k == latest.value
    {
      LatestIsUnique(tasks, a.kind, a.environment, k, latest.value);
    }
    if tasks[latest.value].applyId != a.id {
      return Err(NotTheLatest);
    }
    if tasks[latest.value].planId != a.planId {
      return Err(WrongPlan);
    }
    v := Ok(());
  }

  lemma LatestIsUnique(tasks: seq<Task>, kind: string, environment: string, j: nat, k: nat)
    requires Latest(tasks, kind, environment, j) && Latest(tasks, kind, environment, k)
    ensures j == k
  {
  }

  ghost predicate Maximal(tasks: seq<Task>, kind: string, environment: string, k: nat) {
    && k < |tasks| && InScope(tasks[k], kind, environment)
    && forall i :: 0 <= i < |tasks| && InScope(tasks[i], kind, environment) ==> !CompletedAfter(tasks[i], tasks[k])
  }

  /** Between tied tasks the listing order decides: the latest task is the first
      listed of those that nothing in scope is after. */
  lemma TiesGoToTheFirstListed(tasks: seq<Task>, kind: string, environment: string, k: nat)
    ensures Latest(tasks, kind, environment, k)
            <==> && Maximal(tasks, kind, environment, k)
                 && forall j: nat :: j < k ==> !Maximal(tasks, kind, environment, j)
  {
    if Maximal(tasks, kind, environment, k) && forall j: nat :: j < k ==> !Maximal(tasks, kind, environment, j) {
      forall j | 0 <= j < k && InScope(tasks[j], kind, environment)
        ensures CompletedAfter(tasks[k], tasks[j])
      {
        assert !Maximal(tasks, kind, environment, j);
        var i :| 0 <= i < |tasks| && InScope(tasks[i], kind, environment) && CompletedAfter(tasks[i], tasks[j]);
        CompletedAfterIsAStrictWeakOrder(tasks[i], tasks[k], tasks[j]);
      }
    }
  }
}
