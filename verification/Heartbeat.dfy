/**
 The heartbeat beside a drive (pkg/api/operator.go): every tick writes the
 operation's lease; a lost lease stops the drive at once, and other failures stop
 it when they have lasted for the whole staleness window.

 Times are seconds. Ticks may come early but never more than one interval apart.
 */
module Heartbeat {
  const STALE_AFTER := 60 // after which a peer may claim the operation
  const MAX_INTERVAL := 10

  function Interval(pollInterval: int): int {
    if pollInterval < MAX_INTERVAL then pollInterval else MAX_INTERVAL
  }

  datatype Write = Written | TransientFailure | LeaseLost | ShuttingDown

  datatype Tick = Tick(time: int, write: Write)

  // When the row was last written, seen just before tick n.
  function LastSuccess(start: int, ticks: seq<Tick>, n: nat): int
    requires n <= |ticks|
  {
    if n == 0 then start
    else if ticks[n - 1].write == Written then ticks[n - 1].time
    else LastSuccess(start, ticks, n - 1)
  }

  predicate StopsAt(start: int, ticks: seq<Tick>, i: nat)
    requires i < |ticks|
  {
    || ticks[i].write == LeaseLost
    || (ticks[i].write == TransientFailure && ticks[i].time - LastSuccess(start, ticks, i) >= STALE_AFTER)
  }

  datatype Exit = Driving | ShutDown(tick: nat) | Stopped(tick: nat)

  /** The loop ends at the first tick that must end it, and at no other. */
  method Heartbeats(start: int, ticks: seq<Tick>) returns (exit: Exit)
    ensures exit.Driving? ==>
              forall i :: 0 <= i < |ticks| ==> !StopsAt(start, ticks, i) && ticks[i].write != ShuttingDown
    ensures !exit.Driving? ==> exit.tick < |ticks|
    ensures !exit.Driving? ==>
              forall i :: 0 <= i < exit.tick ==> !StopsAt(start, ticks, i) && ticks[i].write != ShuttingDown
    ensures exit.Stopped? ==> StopsAt(start, ticks, exit.tick)
    ensures exit.ShutDown? ==> ticks[exit.tick].write == ShuttingDown
  {
    var lastSuccess := start;
    for i := 0 to |ticks|
      invariant lastSuccess == LastSuccess(start, ticks, i)
      invariant forall j :: 0 <= j < i ==> !StopsAt(start, ticks, j) && ticks[j].write != ShuttingDown
    {
      match ticks[i].write
      case Written =>
        lastSuccess := ticks[i].time;
      case ShuttingDown =>
        return ShutDown(i);
      case LeaseLost =>
        return Stopped(i);
      case TransientFailure =>
        if ticks[i].time - lastSuccess >= STALE_AFTER {
          return Stopped(i);
        }
    }
    exit := Driving;
  }

  ghost predicate Paced(start: int, ticks: seq<Tick>, interval: int) {
    && 0 < interval
    && (forall i :: 0 <= i < |ticks| ==> Before(start, ticks, i) < ticks[i].time <= Before(start, ticks, i) + interval)
  }

  // The tick before tick i, or the start of the drive.
  function Before(start: int, ticks: seq<Tick>, i: nat): int
    requires i <= |ticks|
  {
    if i == 0 then start else ticks[i - 1].time
  }

  // A drive that is still running was inside the window at its last tick.
  lemma {:induction false} InsideTheWindow(start: int, ticks: seq<Tick>, interval: int, n: nat)
    requires Paced(start, ticks, interval) && n <= |ticks|
    requires forall i :: 0 <= i < n ==> !StopsAt(start, ticks, i) && ticks[i].write != ShuttingDown
    ensures 0 <= Before(start, ticks, n) - LastSuccess(start, ticks, n) < STALE_AFTER
  {
    if n == 0 {
    } else {
      InsideTheWindow(start, ticks, interval, n - 1);
      assert !StopsAt(start, ticks, n - 1);
    }
  }

  /** A drive stopped by transient failures stops no earlier than the staleness
      window of a minute after its last success, and less than one interval of at most
      ten seconds later; so it can overlap a peer that claimed the stale operation for
      less than an interval. */
  lemma TransientFailuresStopPromptly(start: int, ticks: seq<Tick>, pollInterval: int, k: nat)
    requires pollInterval > 0 && Paced(start, ticks, Interval(pollInterval)) && k < |ticks|
    requires forall i :: 0 <= i < k ==> !StopsAt(start, ticks, i) && ticks[i].write != ShuttingDown
    requires StopsAt(start, ticks, k) && ticks[k].write == TransientFailure
    ensures STALE_AFTER <= ticks[k].time - LastSuccess(start, ticks, k) < STALE_AFTER + Interval(pollInterval)
    ensures 60 <= ticks[k].time - LastSuccess(start, ticks, k) < 70
  {
    InsideTheWindow(start, ticks, Interval(pollInterval), k);
  }

  /** At every tick it survives, the drive's row is younger than the window plus
      one interval, so no longer run of failures goes unnoticed. */
  lemma SurvivorsAreFresh(start: int, ticks: seq<Tick>, pollInterval: int, n: nat, now: int)
    requires pollInterval > 0 && Paced(start, ticks, Interval(pollInterval)) && n <= |ticks|
    requires forall i :: 0 <= i < n ==> !StopsAt(start, ticks, i) && ticks[i].write != ShuttingDown
    requires n < |ticks| ==> now <= ticks[n].time
    requires n == |ticks| ==> now <= Before(start, ticks, n) + Interval(pollInterval)
    ensures now - LastSuccess(start, ticks, n) < STALE_AFTER + Interval(pollInterval) <= 70
  {
    InsideTheWindow(start, ticks, Interval(pollInterval), n);
  }
}
