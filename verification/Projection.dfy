/**
 The parent-apply projection (pkg/api/operator.go, updateApplyStateFromOperations)
 over the compare-and-swap write of the applies table
 (pkg/storage/mysqlstore/applies.go, UpdateDerivedState).

 `ApplyStore` and `Projector` are the code as it runs: one row updated in place
 and an active-apply gauge. `Project` is the same step on values. A run is any
 interleaving of loads, projections and summary publications by any number of
 drivers, with reapplies of a failed apply and expiries of a retried one between
 them; the two derive functions are parameters, so the run theorems hold whatever
 they return.
 */
module Projection {
  import opened Wrappers
  import opened States
  import opened Rollout

  datatype Apply = Apply(state: State, startedAt: Option<int>, completedAt: Option<int>, errorMessage: string)

  datatype Operation = Operation(deployment: string, state: State, onFailure: OnFailure, errorMessage: string)

  type BaseDerivation = seq<State> -> State
  type RolloutDerivation = seq<Child> -> State

  // --- one projection, on values -------------------------------------------

  function ChildOf(op: Operation, released: bool): Child {
    PolicyChild(op.state, op.onFailure, released)
  }

  function Children(ops: seq<Operation>, released: bool): (children: seq<Child>)
    ensures |children| == |ops|
    ensures forall i :: 0 <= i < |ops| ==> children[i] == ChildOf(ops[i], released)
  {
    seq(|ops|, i requires 0 <= i < |ops| => ChildOf(ops[i], released))
  }

  predicate AnyPauseOnFailure(ops: seq<Operation>) {
    exists i :: 0 <= i < |ops| && ops[i].onFailure == Pause
  }

  // The latch is only read when some operation can be paused.
  predicate EffectiveRelease(ops: seq<Operation>, latch: bool) {
    AnyPauseOnFailure(ops) && latch
  }

  function FirstFailedMessage(ops: seq<Operation>): string {
    if |ops| == 0 then ""
    else if ops[0].state == Failed && ops[0].errorMessage != "" then
      "deployment " + ops[0].deployment + " failed: " + ops[0].errorMessage
    else FirstFailedMessage(ops[1..])
  }

  datatype Write = Write(newState: State, errorMessage: string, startedAt: Option<int>, completedAt: Option<int>)

  function CompareAndSwap(stored: Apply, expected: State, w: Write): Apply {
    if stored.state == expected
    then Apply(w.newState, Coalesce(stored.startedAt, w.startedAt), w.completedAt, w.errorMessage)
    else stored
  }

  predicate ReopensFailedRollout(snapshot: Apply, base: State, derived: State, reopen: bool) {
    reopen && snapshot.state == Failed && base == Failed && derived == RunningDegraded
  }

  predicate Refuses(snapshot: Apply, base: State, derived: State, reopen: bool) {
    IsTerminal(snapshot.state) && !IsTerminal(derived) && !ReopensFailedRollout(snapshot, base, derived, reopen)
  }

  function StartStamp(snapshot: Apply, derived: State, now: int): Option<int> {
    if snapshot.startedAt.None? && derived != Pending then Some(now) else None
  }

  predicate NothingToWrite(snapshot: Apply, derived: State, now: int) {
    snapshot.state == derived && StartStamp(snapshot, derived, now).None?
  }

  // `failure` is the first failed operation's message, "" when there is none.
  function DerivedWrite(snapshot: Apply, failure: string, derived: State, now: int): Write {
    Write(derived,
          if derived == Failed && failure != "" then failure else snapshot.errorMessage,
          StartStamp(snapshot, derived, now),
          if derived == Stopped || !IsTerminal(derived) then None
          else if snapshot.completedAt.Some? then snapshot.completedAt else Some(now))
  }

  datatype Outcome =
    | Rejected // no operation rows, or a terminal parent over live children
    | Projected(swapped: bool, previousState: State, derivedState: State, becameTerminal: bool, operationCount: nat)

  // Everything after the derivation: the guard, the stamps and the swap.
  function ProjectDerived(stored: Apply, snapshot: Apply, count: nat, failure: string, base: State, derived: State,
                          reopen: bool, now: int): (Apply, Outcome) {
    if Refuses(snapshot, base, derived, reopen) then (stored, Rejected)
    else if NothingToWrite(snapshot, derived, now) then
      (stored, Projected(false, snapshot.state, derived, false, count))
    else
      var swapped := stored.state == snapshot.state;
      (CompareAndSwap(stored, snapshot.state, DerivedWrite(snapshot, failure, derived, now)),
       Projected(swapped, snapshot.state, derived,
                 swapped && !IsTerminal(snapshot.state) && IsTerminal(derived), count))
  }

  function Project(stored: Apply, snapshot: Apply, ops: seq<Operation>, latch: bool, reopen: bool, now: int,
                   derive: BaseDerivation, rollout: RolloutDerivation): (Apply, Outcome)
  {
    if |ops| == 0 then (stored, Rejected)
    else
      var children := Children(ops, EffectiveRelease(ops, latch));
      ProjectDerived(stored, snapshot, |ops|, FirstFailedMessage(ops), derive(ChildStates(children)),
                     rollout(children), reopen, now)
  }

  function GaugeChange(r: Outcome): int {
    if r.Rejected? || !r.swapped || r.operationCount <= 1 then 0
    else if !IsTerminal(r.previousState) && IsTerminal(r.derivedState) then -1
    else if IsTerminal(r.previousState) && !IsTerminal(r.derivedState) then 1
    else 0
  }

  // --- the same step as the code runs it -----------------------------------

  class ApplyStore {
    var row: Apply

    constructor (initial: Apply)
      ensures row == initial
    {
      row := initial;
    }

    method UpdateDerivedState(expected: State, newState: State, errorMessage: string,
                              startedAt: Option<int>, completedAt: Option<int>) returns (swapped: bool)
      modifies this
      ensures swapped == (old(row).state == expected)
      ensures row == CompareAndSwap(old(row), expected, Write(newState, errorMessage, startedAt, completedAt))
    {
      swapped := row.state == expected;
      if swapped {
        row := Apply(newState, if row.startedAt.Some? then row.startedAt else startedAt, completedAt, errorMessage);
      }
    }
  }

  class Projector {
    var activeApplies: int

    constructor ()
      ensures activeApplies == 0
    {
      activeApplies := 0;
    }

    method FirstFailedOperationMessage(ops: seq<Operation>) returns (message: string)
      ensures message == FirstFailedMessage(ops)
    {
      for i := 0 to |ops|
        invariant FirstFailedMessage(ops) == FirstFailedMessage(ops[i..])
      {
        assert ops[i..][1..] == ops[i + 1..];
        if ops[i].state == Failed && ops[i].errorMessage != "" {
          return "deployment " + ops[i].deployment + " failed: " + ops[i].errorMessage;
        }
      }
      return "";
    }

    method BuildChildren(ops: seq<Operation>, released: bool) returns (childStates: seq<State>, children: seq<Child>)
      ensures children == Children(ops, released) && childStates == ChildStates(children)
    {
      childStates, children := [], [];
      for i := 0 to |ops|
        invariant |childStates| == |children| == i
        invariant forall k :: 0 <= k < i ==> children[k] == ChildOf(ops[k], released) && childStates[k] == ops[k].state
      {
        var isContinue, isPause := ops[i].onFailure == Continue, ops[i].onFailure == Pause;
        childStates := childStates + [ops[i].state];
        children := children + [Child(ops[i].state, isContinue || (isPause && released), isPause && !released)];
      }
    }

    method StampWrite(apply: Apply, failure: string, derived: State, now: int) returns (w: Write)
      ensures w == DerivedWrite(apply, failure, derived, now)
    {
      var startedAt, completedAt, errorMessage := None, None, apply.errorMessage;
      if apply.startedAt.None? && derived != Pending {
        startedAt := Some(now);
      }
      if derived != Stopped && IsTerminal(derived) {
        completedAt := if apply.completedAt.Some? then apply.completedAt else Some(now);
      }
      if derived == Failed && failure != "" {
        errorMessage := failure;
      }
      w := Write(derived, errorMessage, startedAt, completedAt);
    }

    method PersistDerivedState(store: ApplyStore, apply: Apply, count: nat, failure: string, base: State,
                               derived: State, reopen: bool, now: int)
      returns (r: Outcome)
      modifies store
      ensures r == ProjectDerived(old(store.row), apply, count, failure, base, derived, reopen, now).1
      ensures store.row == ProjectDerived(old(store.row), apply, count, failure, base, derived, reopen, now).0
    {
      if Refuses(apply, base, derived, reopen) {
        return Rejected;
      }
      var w := StampWrite(apply, failure, derived, now);
      if NothingToWrite(apply, derived, now) {
        return Projected(false, apply.state, derived, false, count);
      }
      var swapped := store.UpdateDerivedState(apply.state, w.newState, w.errorMessage, w.startedAt, w.completedAt);
      return Projected(swapped, apply.state, derived,
                       swapped && !IsTerminal(apply.state) && IsTerminal(derived), count);
    }

    // The projection that wins a parent transition owns the gauge.
    method AdjustGauge(r: Outcome)
      modifies this
      ensures activeApplies == old(activeApplies) + GaugeChange(r)
    {
      if r.Projected? && r.swapped && r.operationCount > 1 {
        if !IsTerminal(r.previousState) && IsTerminal(r.derivedState) {
          activeApplies := activeApplies - 1;
        } else if IsTerminal(r.previousState) && !IsTerminal(r.derivedState) {
          activeApplies := activeApplies + 1;
        }
      }
    }

    method UpdateApplyStateFromOperations(
      store: ApplyStore, apply: Apply, ops: seq<Operation>, latch: bool, reopen: bool, now: int,
      derive: BaseDerivation, rollout: RolloutDerivation) returns (r: Outcome)
      modifies this, store
      ensures (store.row, r) == Project(old(store.row), apply, ops, latch, reopen, now, derive, rollout)
      ensures activeApplies == old(activeApplies) + GaugeChange(r)
    {
      if |ops| == 0 {
        return Rejected;
      }
      var released := false;
      if exists i :: 0 <= i < |ops| && ops[i].onFailure == Pause {
        released := latch;
      }
      var childStates, children := BuildChildren(ops, released);
      var failure := FirstFailedOperationMessage(ops);
      r := PersistDerivedState(store, apply, |ops|, failure, derive(childStates), rollout(children), reopen, now);
      AdjustGauge(r);
    }
  }

  // --- runs ----------------------------------------------------------------

  // `held` is the copy of the row each driver last loaded; `owed` are the drivers
  // whose projection won the terminal swap and who have not published yet.
  datatype World = World(row: Apply, held: map<nat, Apply>, owed: set<nat>, published: nat, gauge: int)

  datatype Event =
    | Load(driver: nat)
    | ProjectRows(driver: nat, ops: seq<Operation>, latch: bool, reopen: bool, now: int)
    | PublishSummary(driver: nat)
    | Reapply
    | Expire(now: int)

  // ReapplyFailed: a failed apply with a completion time goes back to be retried.
  predicate Reappliable(a: Apply) {
    a.state == Failed && a.completedAt.Some?
  }

  function StepOutcome(w: World, e: Event, derive: BaseDerivation, rollout: RolloutDerivation): Option<Outcome> {
    if e.ProjectRows? && e.driver in w.held
    then Some(Project(w.row, w.held[e.driver], e.ops, e.latch, e.reopen, e.now, derive, rollout).1)
    else None
  }

  function Step(w: World, e: Event, derive: BaseDerivation, rollout: RolloutDerivation): World {
    match e
    case Load(d) => w.(held := w.held[d := w.row])
    case ProjectRows(d, ops, latch, reopen, now) =>
      if d !in w.held then w
      else
        var (row, r) := Project(w.row, w.held[d], ops, latch, reopen, now, derive, rollout);
        w.(row := row,
           owed := if r.Projected? && r.becameTerminal then w.owed + {d} else w.owed,
           gauge := w.gauge + GaugeChange(r))
    case PublishSummary(d) =>
      // Publishing reloads the row and gives up unless it is still terminal.
      if d !in w.owed then w
      else w.(owed := w.owed - {d}, published := w.published + if IsTerminal(w.row.state) then 1 else 0)
    case Reapply =>
      if Reappliable(w.row) then w.(row := Apply(FailedRetryable, w.row.startedAt, None, "")) else w
    case Expire(now) =>
      // ExpireRetryable: no driver wins this verdict, and nothing is published.
      if !ExpiresIn(w, e) then w
      else w.(row := w.row.(state := Failed, completedAt := FirstTime(w.row.completedAt, now)))
  }

  function FirstTime(recorded: Option<int>, now: int): Option<int> {
    if recorded.Some? then recorded else Some(now)
  }

  predicate ExpiresIn(w: World, e: Event) {
    e.Expire? && w.row.state == FailedRetryable
  }

  predicate ReappliesIn(w: World, e: Event) {
    e.Reapply? && Reappliable(w.row)
  }

  function Run(w: World, es: seq<Event>, derive: BaseDerivation, rollout: RolloutDerivation): World {
    if |es| == 0 then w else Step(Run(w, es[..|es| - 1], derive, rollout), es[|es| - 1], derive, rollout)
  }

  predicate WinsIn(w: World, e: Event, derive: BaseDerivation, rollout: RolloutDerivation) {
    var r := StepOutcome(w, e, derive, rollout);
    r.Some? && r.value.Projected? && r.value.becameTerminal
  }

  // A swap or a reapply that takes the parent from terminal back to live.
  predicate ReopensIn(w: World, e: Event, derive: BaseDerivation, rollout: RolloutDerivation) {
    var r := StepOutcome(w, e, derive, rollout);
    || (r.Some? && r.value.Projected? && r.value.swapped && IsTerminal(r.value.previousState)
        && !IsTerminal(r.value.derivedState))
    || ReappliesIn(w, e)
  }

  predicate WinsAt(w: World, es: seq<Event>, k: nat, derive: BaseDerivation, rollout: RolloutDerivation)
    requires k < |es|
  {
    WinsIn(Run(w, es[..k], derive, rollout), es[k], derive, rollout)
  }

  predicate ReopensAt(w: World, es: seq<Event>, k: nat, derive: BaseDerivation, rollout: RolloutDerivation)
    requires k < |es|
  {
    ReopensIn(Run(w, es[..k], derive, rollout), es[k], derive, rollout)
  }

  function Wins(w: World, es: seq<Event>, derive: BaseDerivation, rollout: RolloutDerivation): nat {
    if |es| == 0 then 0
    else Wins(w, es[..|es| - 1], derive, rollout) + if WinsAt(w, es, |es| - 1, derive, rollout) then 1 else 0
  }

  function Reopens(w: World, es: seq<Event>, derive: BaseDerivation, rollout: RolloutDerivation): nat {
    if |es| == 0 then 0
    else Reopens(w, es[..|es| - 1], derive, rollout) + if ReopensAt(w, es, |es| - 1, derive, rollout) then 1 else 0
  }

  function Expiries(w: World, es: seq<Event>, derive: BaseDerivation, rollout: RolloutDerivation): nat {
    if |es| == 0 then 0
    else
      var init := es[..|es| - 1];
      Expiries(w, init, derive, rollout) + if ExpiresIn(Run(w, init, derive, rollout), es[|es| - 1]) then 1 else 0
  }

  function Reapplies(w: World, es: seq<Event>, derive: BaseDerivation, rollout: RolloutDerivation): nat {
    if |es| == 0 then 0
    else
      var init := es[..|es| - 1];
      Reapplies(w, init, derive, rollout) + if ReappliesIn(Run(w, init, derive, rollout), es[|es| - 1]) then 1 else 0
  }

  function Terminality(w: World): int {
    if IsTerminal(w.row.state) then 1 else 0
  }

  // --- terminal episodes ---------------------------------------------------

  lemma StepBalance(w: World, e: Event, derive: BaseDerivation, rollout: RolloutDerivation)
    ensures Terminality(Step(w, e, derive, rollout)) - Terminality(w)
            == (if WinsIn(w, e, derive, rollout) then 1 else 0) + (if ExpiresIn(w, e) then 1 else 0)
               - (if ReopensIn(w, e, derive, rollout) then 1 else 0)
  {
  }

  // Wins and expiries minus reopenings are the change in the parent's terminality,
  // in every run, whatever the snapshots, operation rows and derivations are.
  lemma {:induction false} TerminalBalance(w: World, es: seq<Event>, derive: BaseDerivation, rollout: RolloutDerivation)
    ensures Wins(w, es, derive, rollout) + Expiries(w, es, derive, rollout) - Reopens(w, es, derive, rollout)
            == Terminality(Run(w, es, derive, rollout)) - Terminality(w)
  {
    if |es| == 0 {
    } else {
      TerminalBalance(w, es[..|es| - 1], derive, rollout);
      StepBalance(Run(w, es[..|es| - 1], derive, rollout), es[|es| - 1], derive, rollout);
    }
  }

  lemma {:induction false} CountsOfPrefix(w: World, es: seq<Event>, k: nat, derive: BaseDerivation,
                                          rollout: RolloutDerivation)
    requires k < |es|
    ensures Wins(w, es[..k + 1], derive, rollout) ==
            Wins(w, es[..k], derive, rollout) + if WinsAt(w, es, k, derive, rollout) then 1 else 0
    ensures Reopens(w, es[..k + 1], derive, rollout) ==
            Reopens(w, es[..k], derive, rollout) + if ReopensAt(w, es, k, derive, rollout) then 1 else 0
    ensures Expiries(w, es[..k + 1], derive, rollout) >= Expiries(w, es[..k], derive, rollout)
  {
    assert es[..k + 1][..k] == es[..k];
  }

  lemma {:induction false} NoReopenNoDecrease(w: World, es: seq<Event>, i: nat, j: nat, derive: BaseDerivation,
                                              rollout: RolloutDerivation)
    requires i <= j <= |es|
    requires forall k :: i <= k < j ==> !ReopensAt(w, es, k, derive, rollout)
    ensures Wins(w, es[..j], derive, rollout) >= Wins(w, es[..i], derive, rollout)
    ensures Reopens(w, es[..j], derive, rollout) == Reopens(w, es[..i], derive, rollout)
    ensures Expiries(w, es[..j], derive, rollout) >= Expiries(w, es[..i], derive, rollout)
    decreases j - i
  {
    if i == j {
    } else {
      NoReopenNoDecrease(w, es, i, j - 1, derive, rollout);
      CountsOfPrefix(w, es, j - 1, derive, rollout);
    }
  }

  // Each terminal episode has one winner: between two winning projections the
  // parent was reopened.
  lemma OneWinnerPerEpisode(w: World, es: seq<Event>, i: nat, j: nat, derive: BaseDerivation,
                            rollout: RolloutDerivation)
    requires i < j < |es|
    requires WinsAt(w, es, i, derive, rollout) && WinsAt(w, es, j, derive, rollout)
    ensures exists k :: i < k < j && ReopensAt(w, es, k, derive, rollout)
  {
    if forall k :: i < k < j ==> !ReopensAt(w, es, k, derive, rollout) {
      TerminalBalance(w, es[..i], derive, rollout);
      TerminalBalance(w, es[..j + 1], derive, rollout);
      CountsOfPrefix(w, es, i, derive, rollout);
      NoReopenNoDecrease(w, es, i + 1, j, derive, rollout);
      CountsOfPrefix(w, es, j, derive, rollout);
      assert false;
    }
  }

  lemma {:induction false} PublicationsAreWon(w: World, es: seq<Event>, derive: BaseDerivation,
                                              rollout: RolloutDerivation)
    ensures var v := Run(w, es, derive, rollout);
            v.published + |v.owed| <= w.published + |w.owed| + Wins(w, es, derive, rollout)
  {
    if |es| == 0 {
    } else {
      PublicationsAreWon(w, es[..|es| - 1], derive, rollout);
      var e, u := es[|es| - 1], Run(w, es[..|es| - 1], derive, rollout);
      var v := Step(u, e, derive, rollout);
      match e
      case Load(_) =>
      case ProjectRows(d, _, _, _, _) =>
        assert |u.owed + {d}| <= |u.owed| + 1;
      case PublishSummary(d) =>
        if d in u.owed {
          assert |u.owed - {d}| == |u.owed| - 1;
        }
      case Reapply =>
      case Expire(_) =>
    }
  }

  // Starting from a live parent with nothing owed, a run publishes at most one
  // summary for each terminal episode, and none for one that began by expiry.
  lemma AtMostOneSummaryPerEpisode(w: World, es: seq<Event>, derive: BaseDerivation, rollout: RolloutDerivation)
    requires !IsTerminal(w.row.state) && w.owed == {} && w.published == 0
    ensures Run(w, es, derive, rollout).published + Expiries(w, es, derive, rollout)
            <= Reopens(w, es, derive, rollout) + 1
  {
    PublicationsAreWon(w, es, derive, rollout);
    TerminalBalance(w, es, derive, rollout);
  }

  lemma StepDrift(w: World, e: Event, derive: BaseDerivation, rollout: RolloutDerivation)
    requires e.ProjectRows? ==> |e.ops| > 1
    ensures var v := Step(w, e, derive, rollout);
            v.gauge - w.gauge == Terminality(w) - Terminality(v)
                + (if ExpiresIn(w, e) then 1 else 0) - (if ReappliesIn(w, e) then 1 else 0)
  {
  }

  /** For a multi-operation apply the gauge moves opposite to terminality, except
      that each expiry leaves it one too high and each reapply one too low. */
  lemma {:induction false} GaugeDrift(w: World, es: seq<Event>, derive: BaseDerivation, rollout: RolloutDerivation)
    requires forall e <- es :: e.ProjectRows? ==> |e.ops| > 1
    ensures var v := Run(w, es, derive, rollout);
            v.gauge - w.gauge == Terminality(w) - Terminality(v)
                + Expiries(w, es, derive, rollout) - Reapplies(w, es, derive, rollout)
  {
    if |es| == 0 {
    } else {
      var init, e := es[..|es| - 1], es[|es| - 1];
      assert e in es && forall x <- init :: x in es;
      GaugeDrift(w, init, derive, rollout);
      StepDrift(Run(w, init, derive, rollout), e, derive, rollout);
    }
  }

  /** So the gauge is right at the end of a run exactly when as many expiries as
      reapplies happened in it. */
  lemma GaugeTracksTerminality(w: World, es: seq<Event>, derive: BaseDerivation, rollout: RolloutDerivation)
    requires forall e <- es :: e.ProjectRows? ==> |e.ops| > 1
    ensures var v := Run(w, es, derive, rollout);
            v.gauge - w.gauge == Terminality(w) - Terminality(v)
            <==> Expiries(w, es, derive, rollout) == Reapplies(w, es, derive, rollout)
  {
    GaugeDrift(w, es, derive, rollout);
  }

  // --- leaving a terminal state --------------------------------------------

  // In every run the parent leaves a terminal state only when it failed: to
  // running_degraded through a projection that was allowed to reopen, or to
  // failed_retryable when it is reapplied.
  lemma TerminalIsLeftOnlyByReopening(w: World, es: seq<Event>, k: nat, derive: BaseDerivation,
                                      rollout: RolloutDerivation)
    requires k < |es|
    requires IsTerminal(Run(w, es[..k], derive, rollout).row.state)
    requires !IsTerminal(Run(w, es[..k + 1], derive, rollout).row.state)
    ensures Run(w, es[..k], derive, rollout).row.state == Failed
    ensures es[k].ProjectRows? ==> es[k].reopen && Run(w, es[..k + 1], derive, rollout).row.state == RunningDegraded
    ensures !es[k].ProjectRows? ==> es[k].Reapply? && Run(w, es[..k + 1], derive, rollout).row.state == FailedRetryable
  {
    assert es[..k + 1][..k] == es[..k];
  }

  // --- timestamps ----------------------------------------------------------

  // `stopped` is resumable, so it carries no completion time.
  predicate TimesAgree(a: Apply) {
    && (a.state != Pending ==> a.startedAt.Some?)
    && (a.completedAt.Some? <==> IsTerminal(a.state) && a.state != Stopped)
  }

  // What holds of the row and of every copy a driver still holds: a copy that
  // recorded a start recorded the row's start.
  predicate TimesInvariant(w: World) {
    && TimesAgree(w.row)
    && forall d <- w.held :: w.held[d].startedAt.Some? ==> w.held[d].startedAt == w.row.startedAt
  }

  lemma StepKeepsTimes(w: World, e: Event, derive: BaseDerivation, rollout: RolloutDerivation)
    requires TimesInvariant(w)
    ensures TimesInvariant(Step(w, e, derive, rollout))
    ensures w.row.startedAt.Some? ==> Step(w, e, derive, rollout).row.startedAt == w.row.startedAt
  {
    var v := Step(w, e, derive, rollout);
    if e.ProjectRows? && e.driver in w.held {
      forall d | d in v.held
        ensures v.held[d].startedAt.Some? ==> v.held[d].startedAt == v.row.startedAt
      {
      }
    }
  }

  function FreshWorld(errorMessage: string): World {
    World(Apply(Pending, None, None, errorMessage), map[], {}, 0, 0)
  }

  // From a fresh pending apply, in every run: the row has a start time as soon
  // as it is not pending, and a completion time exactly while it is terminal and
  // not stopped, even under stale copies and repeated states.
  lemma {:induction false} TimestampsInEveryRun(errorMessage: string, es: seq<Event>, derive: BaseDerivation,
                                                rollout: RolloutDerivation)
    ensures TimesInvariant(Run(FreshWorld(errorMessage), es, derive, rollout))
  {
    if |es| == 0 {
    } else {
      TimestampsInEveryRun(errorMessage, es[..|es| - 1], derive, rollout);
      StepKeepsTimes(Run(FreshWorld(errorMessage), es[..|es| - 1], derive, rollout), es[|es| - 1], derive, rollout);
    }
  }

  // A recorded start is never rewound later in the run.
  lemma {:induction false} StartIsNeverRewound(errorMessage: string, es: seq<Event>, i: nat, j: nat,
                                               derive: BaseDerivation, rollout: RolloutDerivation)
    requires i <= j <= |es|
    requires Run(FreshWorld(errorMessage), es[..i], derive, rollout).row.startedAt.Some?
    ensures Run(FreshWorld(errorMessage), es[..j], derive, rollout).row.startedAt
            == Run(FreshWorld(errorMessage), es[..i], derive, rollout).row.startedAt
    decreases j - i
  {
    if i == j {
    } else {
      StartIsNeverRewound(errorMessage, es, i, j - 1, derive, rollout);
      TimestampsInEveryRun(errorMessage, es[..j - 1], derive, rollout);
      assert es[..j][..j - 1] == es[..j - 1];
      StepKeepsTimes(Run(FreshWorld(errorMessage), es[..j - 1], derive, rollout), es[j - 1], derive, rollout);
    }
  }

  // --- with the shipped derivations ----------------------------------------

  // A projection that reads the release latch set shows the rollout derivation
  // no paused child, and the rollout then never reads paused.
  lemma ReleasedProjectionNeverPauses(ops: seq<Operation>)
    requires AnyPauseOnFailure(ops)
    ensures var children := Children(ops, EffectiveRelease(ops, true));
            && (forall c <- children :: !c.pauseOnFailure)
            && RolloutState(children) != State.Paused
  {
    var children := Children(ops, EffectiveRelease(ops, true));
    assert forall c <- children :: !c.pauseOnFailure;
    PausedIffHeld(children);
    assert !AnyHold(children) by {
      assert forall i :: 0 <= i < |children| ==> children[i] in children;
    }
  }

  lemma ChildrenMirrorRows(ops: seq<Operation>, released: bool, x: State)
    ensures (exists op <- ops :: op.state == x) <==> exists i :: 0 <= i < |ops| && Children(ops, released)[i].state == x
    ensures (forall op <- ops :: op.state == x)
            <==> forall i :: 0 <= i < |ops| ==> Children(ops, released)[i].state == x
  {
    var children := Children(ops, released);
    forall i | 0 <= i < |ops|
      ensures ops[i] in ops && children[i].state == ops[i].state
    {
    }
    if op :| op in ops && op.state == x {
      var i :| 0 <= i < |ops| && ops[i] == op;
      assert children[i].state == x;
    }
    if op :| op in ops && op.state != x {
      var i :| 0 <= i < |ops| && ops[i] == op;
      assert children[i].state != x;
    }
  }

  lemma SettledRowsDeriveAVerdict(ops: seq<Operation>, released: bool)
    requires |ops| > 0 && forall op <- ops :: IsTerminal(op.state)
    ensures var derived := RolloutState(Children(ops, released));
            && IsTerminal(derived)
            && (derived == Failed <==> exists op <- ops :: op.state == Failed)
            && (derived == Completed <==> forall op <- ops :: op.state == Completed)
  {
    var children := Children(ops, released);
    assert AllTerminal(children) by {
      assert forall i :: 0 <= i < |ops| ==> ops[i] in ops;
    }
    SettledChildrenSettleTheApply(children);
    ChildrenMirrorRows(ops, released, Failed);
    BaseFailedIff(children);
    if i :| 0 <= i < |children| && children[i].state == Failed {
      FailureVerdictIsOnlyDelayed(children, i);
    }
    ChildrenMirrorRows(ops, released, Completed);
    CompletedIffEveryChildCompleted(children);
  }

  // A driver whose copy is current settles the parent once every operation row
  // is terminal: the projection is never refused and the row ends terminal, failed
  // exactly when some operation failed and completed exactly when all completed.
  lemma SettledRowsSettleTheParent(stored: Apply, ops: seq<Operation>, latch: bool, reopen: bool, now: int)
    requires |ops| > 0 && forall op <- ops :: IsTerminal(op.state)
    ensures Project(stored, stored, ops, latch, reopen, now, DeriveApplyState, RolloutState).1.Projected?
    ensures var row := Project(stored, stored, ops, latch, reopen, now, DeriveApplyState, RolloutState).0;
            && IsTerminal(row.state)
            && (row.state == Failed <==> exists op <- ops :: op.state == Failed)
            && (row.state == Completed <==> forall op <- ops :: op.state == Completed)
  {
    var released := EffectiveRelease(ops, latch);
    SettledRowsDeriveAVerdict(ops, released);
    FreshProjectionIsCurrent(stored, ops, latch, reopen, now, DeriveApplyState, RolloutState);
  }

  // A projection over a current copy leaves the row at exactly the derived
  // state, unless it is refused.
  lemma FreshProjectionIsCurrent(stored: Apply, ops: seq<Operation>, latch: bool, reopen: bool, now: int,
                                 derive: BaseDerivation, rollout: RolloutDerivation)
    requires |ops| > 0
    ensures var children := Children(ops, EffectiveRelease(ops, latch));
            var r := Project(stored, stored, ops, latch, reopen, now, derive, rollout);
            && (r.1.Rejected? <==> Refuses(stored, derive(ChildStates(children)), rollout(children), reopen))
            && r.0.state == if r.1.Rejected? then stored.state else rollout(children)
  {
  }

  // --- completion times under stale copies ---------------------------------

  // Every copy a driver holds was the row once.
  predicate CopiesAgree(w: World) {
    forall d <- w.held :: TimesAgree(w.held[d])
  }

  lemma {:induction false} CopiesAgreeInEveryRun(errorMessage: string, es: seq<Event>, derive: BaseDerivation,
                                                 rollout: RolloutDerivation)
    ensures CopiesAgree(Run(FreshWorld(errorMessage), es, derive, rollout))
  {
    if |es| == 0 {
      // nobody holds a copy yet
    } else {
      CopiesAgreeInEveryRun(errorMessage, es[..|es| - 1], derive, rollout);
      TimestampsInEveryRun(errorMessage, es[..|es| - 1], derive, rollout);
    }
  }

  predicate DerivesAnotherVerdict(e: Event, state: State, rollout: RolloutDerivation)
    requires e.ProjectRows? && |e.ops| > 0
  {
    var derived := rollout(Children(e.ops, EffectiveRelease(e.ops, e.latch)));
    IsTerminal(derived) && derived != Stopped && derived != state
  }

  /** Exactly when a step replaces a recorded completion time by another: a driver
      projects another verdict from a copy in the row's state but of an earlier
      episode. */
  lemma CompletionTimeChangesIff(w: World, e: Event, derive: BaseDerivation, rollout: RolloutDerivation)
    requires TimesInvariant(w) && CopiesAgree(w) && w.row.completedAt.Some?
    ensures var after := Step(w, e, derive, rollout).row.completedAt;
            after.Some? && after != w.row.completedAt
            <==> && e.ProjectRows? && e.driver in w.held && |e.ops| > 0
                 && w.held[e.driver].state == w.row.state && w.held[e.driver].completedAt != w.row.completedAt
                 && DerivesAnotherVerdict(e, w.row.state, rollout)
  {
  }

  /** The same at every step of every run from a fresh apply. */
  lemma CompletionTimeChangesInARunIff(errorMessage: string, es: seq<Event>, e: Event, derive: BaseDerivation,
                                       rollout: RolloutDerivation)
    requires Run(FreshWorld(errorMessage), es, derive, rollout).row.completedAt.Some?
    ensures var w := Run(FreshWorld(errorMessage), es, derive, rollout);
            var after := Step(w, e, derive, rollout).row.completedAt;
            after.Some? && after != w.row.completedAt
            <==> && e.ProjectRows? && e.driver in w.held && |e.ops| > 0
                 && w.held[e.driver].state == w.row.state && w.held[e.driver].completedAt != w.row.completedAt
                 && DerivesAnotherVerdict(e, w.row.state, rollout)
  {
    TimestampsInEveryRun(errorMessage, es, derive, rollout);
    CopiesAgreeInEveryRun(errorMessage, es, derive, rollout);
    CompletionTimeChangesIff(Run(FreshWorld(errorMessage), es, derive, rollout), e, derive, rollout);
  }

  // --- and such a run ------------------------------------------------------

  // A projection that reaches its row writes its verdict, with the copy's
  // completion time if it has one.
  lemma VerdictIsWritten(stored: Apply, snapshot: Apply, ops: seq<Operation>, reopen: bool, now: int)
    requires |ops| > 0 && stored.state == snapshot.state
    requires var verdict := RolloutState(Children(ops, EffectiveRelease(ops, false)));
             IsTerminal(verdict) && verdict != Stopped && verdict != snapshot.state
    ensures var row := Project(stored, snapshot, ops, false, reopen, now, DeriveApplyState, RolloutState).0;
            && row.state == RolloutState(Children(ops, EffectiveRelease(ops, false)))
            && row.completedAt == if snapshot.completedAt.Some? then snapshot.completedAt else Some(now)
  {
  }

  function Next(w: World, e: Event): World {
    Step(w, e, DeriveApplyState, RolloutState)
  }

  function TwoRows(first: State, second: State): seq<Operation> {
    [Operation("a", first, Continue, ""), Operation("b", second, Continue, "")]
  }

  lemma TwoRowsVerdict(first: State, second: State)
    requires IsTerminal(first) && IsTerminal(second)
    ensures var verdict := RolloutState(Children(TwoRows(first, second),
                                                 EffectiveRelease(TwoRows(first, second), false)));
            && (verdict == Failed <==> first == Failed || second == Failed)
            && (verdict == Completed <==> first == Completed && second == Completed)
  {
    var ops := TwoRows(first, second);
    assert ops[0] in ops && ops[1] in ops;
    SettledRowsDeriveAVerdict(ops, EffectiveRelease(ops, false));
  }

  // The first row has failed, the second completed.
  function FirstFailed(driver: nat, now: int): Event {
    ProjectRows(driver, TwoRows(Failed, Completed), false, true, now)
  }

  lemma FailureIsWritten(w: World, driver: nat, now: int)
    requires driver in w.held && w.held[driver].state == w.row.state && !IsTerminal(w.row.state)
    requires w.held[driver].completedAt.None?
    ensures Next(w, FirstFailed(driver, now)).row.state == Failed
    ensures Next(w, FirstFailed(driver, now)).row.completedAt == Some(now)
    ensures Next(w, FirstFailed(driver, now)).held == w.held
  {
    TwoRowsVerdict(Failed, Completed);
    VerdictIsWritten(w.row, w.held[driver], TwoRows(Failed, Completed), true, now);
  }

  // Driver 2 copies the first failure, and the apply is reapplied. Drivers 3 and
  // 4 copy the retry; it fails, and is reapplied again.
  const FirstFailure: seq<Event> := [Load(1), FirstFailed(1, 1), Load(2), Reapply]
  const SecondFailure: seq<Event> := [Load(3), Load(4), FirstFailed(3, 5), Reapply]

  // Driver 4 listed the rows before that and writes the second failure late; by
  // then the retry has completed, which driver 2 finds.
  const LateFailure := FirstFailed(4, 6)
  const LateVerdict := ProjectRows(2, TwoRows(Completed, Completed), false, true, 9)

  lemma FirstEpisode(w: World)
    requires !IsTerminal(w.row.state) && w.row.completedAt.None?
    ensures var v := Next(Next(Next(Next(w, Load(1)), FirstFailed(1, 1)), Load(2)), Reapply);
            && v.row.state == FailedRetryable && v.row.completedAt.None?
            && 2 in v.held && v.held[2].state == Failed && v.held[2].completedAt == Some(1)
  {
    FailureIsWritten(Next(w, Load(1)), 1, 1);
  }

  lemma SecondEpisode(w: World)
    requires !IsTerminal(w.row.state) && w.row.completedAt.None? && 2 in w.held && w.row.state == FailedRetryable
    ensures var v := Next(Next(Next(Next(w, Load(3)), Load(4)), FirstFailed(3, 5)), Reapply);
            && v.row.state == FailedRetryable && v.row.completedAt.None?
            && 2 in v.held && v.held[2] == w.held[2] && 4 in v.held && v.held[4] == w.row
  {
    var w2 := Next(Next(w, Load(3)), Load(4));
    assert w2.row == w.row && w2.held == w.held[3 := w.row][4 := w.row];
    FailureIsWritten(w2, 3, 5);
  }

  lemma LateWriteRewinds(w: World)
    requires w.row.state == FailedRetryable && w.row.completedAt.None? && 4 in w.held
    requires w.held[4].state == FailedRetryable && w.held[4].completedAt.None?
    requires 2 in w.held && w.held[2].state == Failed && w.held[2].completedAt == Some(1)
    ensures Next(w, LateFailure).row.completedAt == Some(6)
    ensures Next(Next(w, LateFailure), LateVerdict).row.completedAt == Some(1)
  {
    FailureIsWritten(w, 4, 6);
    var v := Next(w, FirstFailed(4, 6));
    TwoRowsVerdict(Completed, Completed);
    VerdictIsWritten(v.row, v.held[2], TwoRows(Completed, Completed), true, 9);
  }

  lemma {:induction false} RunPrefix(w: World, es: seq<Event>, fs: seq<Event>)
    ensures Run(w, es + fs, DeriveApplyState, RolloutState)
            == Run(Run(w, es, DeriveApplyState, RolloutState), fs, DeriveApplyState, RolloutState)
  {
    if |fs| == 0 {
      assert es + fs == es;
    } else {
      RunPrefix(w, es, fs[..|fs| - 1]);
      assert (es + fs)[..|es + fs| - 1] == es + fs[..|fs| - 1];
    }
  }

  lemma FourSteps(w: World, e0: Event, e1: Event, e2: Event, e3: Event)
    ensures Run(w, [e0, e1, e2, e3], DeriveApplyState, RolloutState) == Next(Next(Next(Next(w, e0), e1), e2), e3)
  {
    var es := [e0, e1, e2, e3];
    assert es[..3][..2] == es[..2] && es[..2][..1] == es[..1] && es[..1][..0] == [];
    assert Run(w, es[..1], DeriveApplyState, RolloutState) == Next(w, e0);
    assert Run(w, es[..2], DeriveApplyState, RolloutState) == Next(Next(w, e0), e1);
    assert Run(w, es[..3], DeriveApplyState, RolloutState) == Next(Next(Next(w, e0), e1), e2);
  }

  lemma OneStep(w: World, e: Event)
    ensures Run(w, [e], DeriveApplyState, RolloutState) == Next(w, e)
  {
    assert [e][..0] == [];
  }

  /** A completion time is rewound, on rows a rollout can have: each failed row that
      is no longer failed was reapplied. */
  lemma CompletionTimeCanRewind(errorMessage: string)
    ensures var es := FirstFailure + SecondFailure + [LateFailure];
            && Run(FreshWorld(errorMessage), es, DeriveApplyState, RolloutState).row.completedAt == Some(6)
            && Run(FreshWorld(errorMessage), es + [LateVerdict], DeriveApplyState, RolloutState).row.completedAt
               == Some(1)
  {
    var w := FreshWorld(errorMessage);
    var w1 := Run(w, FirstFailure, DeriveApplyState, RolloutState);
    FourSteps(w, Load(1), FirstFailed(1, 1), Load(2), Reapply);
    FirstEpisode(w);
    var w2 := Run(w1, SecondFailure, DeriveApplyState, RolloutState);
    FourSteps(w1, Load(3), Load(4), FirstFailed(3, 5), Reapply);
    SecondEpisode(w1);
    LateWriteRewinds(w2);
    RunPrefix(w, FirstFailure, SecondFailure);
    RunPrefix(w, FirstFailure + SecondFailure, [LateFailure]);
    RunPrefix(w, FirstFailure + SecondFailure + [LateFailure], [LateVerdict]);
    OneStep(w2, LateFailure);
    OneStep(Next(w2, LateFailure), LateVerdict);
  }
}
