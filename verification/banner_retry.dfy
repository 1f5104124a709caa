/** `retry_on_error` of the robot-order script: while the error banner is
    visible and fewer than `max_retries` clicks were made, click the retry
    target. The banner is observed as a sequence of visibility checks. */
module BannerRetry {
  import opened Optional
  import opened Actions

  const ErrorBanner := "css:.alert.alert-danger"
  const DefaultMaxRetries := 10

  /** The banner as seen by the k-th visibility check; a check past the recorded
      observations finds it gone. */
  predicate Visible(checks: seq<bool>, k: nat) {
    k < |checks| && checks[k]
  }

  /** The number of checks, from the first, that find the banner visible. */
  function VisibleRun(checks: seq<bool>): (n: nat)
    ensures forall k :: 0 <= k < n ==> Visible(checks, k)
    ensures !Visible(checks, n)
    decreases |checks|
  {
    if |checks| > 0 && checks[0] then
      var n := 1 + VisibleRun(checks[1..]);
      assert forall k :: 1 <= k <= n ==> Visible(checks, k) == Visible(checks[1..], k - 1);
      n
    else 0
  }

  function Min(a: int, b: int): int {
    if a <= b then a else b
  }

  /** The loop from a state that has made `count` clicks, each after a visible check. */
  function RetryLoop(checks: seq<bool>, retrySelector: string, maxRetries: int, count: nat): (clicks: seq<Action>)
    requires count <= VisibleRun(checks)
    ensures count + |clicks| == (if count >= maxRetries then count else Min(VisibleRun(checks), maxRetries))
    ensures forall i :: 0 <= i < |clicks| ==> clicks[i] == Click(retrySelector)
    decreases |checks| - count
  {
    if Visible(checks, count) && count < maxRetries then
      [Click(retrySelector)] + RetryLoop(checks, retrySelector, maxRetries, count + 1)
    else []
  }

  /** What one call did: the clicks attempted, the run of those clicks against
      the browser, and whether it ended on the "Max retries reached" warning. */
  datatype RetryOutcome = RetryOutcome(clicks: nat, run: Run, ceilingReached: bool)

  /** `retry_on_error(retry_selector, max_retries)` against a browser rejecting
      `failing`. Reaching the ceiling only sets `ceilingReached`; a rejected
      click raises out of the loop, and since every click targets the same
      element, only the first one can be rejected. */
  function RetryOnError(checks: seq<bool>, retrySelector: string, maxRetries: int, failing: set<Action>): (r: RetryOutcome)
    ensures r.run.Ok() ==> r.clicks == (if maxRetries <= 0 then 0 else Min(VisibleRun(checks), maxRetries))
    ensures maxRetries >= 0 ==> r.clicks <= maxRetries
    ensures !Visible(checks, 0) ==> r.clicks == 0 && r.run.Ok()
    ensures |r.run.trace| == r.clicks
    ensures forall i :: 0 <= i < |r.run.trace| ==> r.run.trace[i] == Click(retrySelector)
    ensures r.run.Ok() <==> Click(retrySelector) !in failing || !Visible(checks, 0) || maxRetries <= 0
    ensures !r.run.Ok() ==> r.clicks == 1 && r.run.fault == Some(ActionFailed(Click(retrySelector)))
    ensures r.ceilingReached <==> r.run.Ok() && r.clicks == maxRetries
  {
    var planned := RetryLoop(checks, retrySelector, maxRetries, 0);
    var run := PerformAll(planned, failing);
    assert |planned| > 0 <==> Visible(checks, 0) && maxRetries > 0;
    assert !run.Ok() ==> run.trace[|run.trace| - 1] == Click(retrySelector);
    RetryOutcome(|run.trace|, run, run.Ok() && |planned| == maxRetries)
  }

  /** A banner visible for exactly k checks, k below the ceiling, costs exactly k
      clicks on an accepted retry target and no warning. */
  lemma VisibleForKChecks(checks: seq<bool>, k: nat, retrySelector: string, maxRetries: int, failing: set<Action>)
    requires k < maxRetries
    requires forall i :: 0 <= i < k ==> Visible(checks, i)
    requires !Visible(checks, k)
    requires Click(retrySelector) !in failing
    ensures RetryOnError(checks, retrySelector, maxRetries, failing) == RetryOutcome(k, Run(seq(k, _ => Click(retrySelector)), None), false)
  {
  }

  /** A banner that stays visible costs exactly `maxRetries` clicks on an accepted
      retry target, ends on the warning, and still returns normally. */
  lemma NeverClears(checks: seq<bool>, retrySelector: string, maxRetries: nat, failing: set<Action>)
    requires maxRetries <= |checks|
    requires forall i :: 0 <= i < |checks| ==> checks[i]
    requires Click(retrySelector) !in failing
    ensures RetryOnError(checks, retrySelector, maxRetries, failing) ==
      RetryOutcome(maxRetries, Run(seq(maxRetries, _ => Click(retrySelector)), None), true)
  {
    AllVisibleRun(checks);
  }

  /** A rejected retry click while the banner shows ends the call with that
      exception after one click, and no warning is printed. */
  lemma RejectedRetryClick(checks: seq<bool>, retrySelector: string, maxRetries: int, failing: set<Action>)
    requires Visible(checks, 0) && maxRetries > 0
    requires Click(retrySelector) in failing
    ensures RetryOnError(checks, retrySelector, maxRetries, failing) ==
      RetryOutcome(1, Run([Click(retrySelector)], Some(ActionFailed(Click(retrySelector)))), false)
  {
  }

  lemma {:induction false} AllVisibleRun(checks: seq<bool>)
    requires forall i :: 0 <= i < |checks| ==> checks[i]
    ensures VisibleRun(checks) == |checks|
    decreases |checks|
  {
    if |checks| > 0 {
      AllVisibleRun(checks[1..]);
    }
  }

  /** The warning is printed whenever the ceiling was hit, even when the banner
      was already gone at the check that ended the loop; and with a ceiling of
      zero it is printed without any banner. */
  lemma WarningDoesNotMeanBannerStayed(retrySelector: string)
    ensures RetryOnError([true, true, false], retrySelector, 2, {}).ceilingReached
    ensures RetryOnError([], retrySelector, 0, {}).ceilingReached
  {
    assert VisibleRun([true, true, false]) == 2 by {
      assert [true, true, false][1..] == [true, false];
      assert [true, false][1..] == [false];
    }
  }
}
