/** `executeScheduledTask`, the scheduled entry point: skip the run when the
    reference market is edit-only, otherwise fetch the balance and the
    positions, decide, and try every closure before reporting failures. */
module ScheduledTask {
  import opened Wrappers
  import opened JsText
  import opened Positions
  import opened Grouping
  import opened Decision
  import opened OpenPositions
  import opened Runs

  /** The answers of the broker during one run: the reference market's
      status or the message `isMarketOpen` throws, the balance or the message
      `getAccountBalance` throws, how the k-th request to the positions
      endpoint settles, and the k-th (from 0) `closePosition` call's outcome:
      `None` when it resolves, `Some(m)` when it throws an error with message
      `m`. */
  datatype Environment = Environment(
    marketStatus: Result<string, string>,
    balance: Result<real, string>,
    positionResponses: nat -> Reply<Response>,
    closeOutcomes: nat -> Option<string>)

  /** The messages of the failed calls among the first `n`, in call order. */
  function CloseFailures(outcomes: nat -> Option<string>, n: nat): seq<string>
  {
    if n == 0 then []
    else CloseFailures(outcomes, n - 1) + (if outcomes(n - 1).Some? then [outcomes(n - 1).value] else [])
  }

  /** Every failure is reported and only failures are: a message is listed
      exactly when some call failed with it, and the list is empty exactly
      when every call succeeded. */
  lemma {:induction false} CloseFailuresAreTheFailures(outcomes: nat -> Option<string>, n: nat)
    ensures CloseFailures(outcomes, n) == [] <==> forall k :: 0 <= k < n ==> outcomes(k).None?
    ensures forall m :: m in CloseFailures(outcomes, n) <==> exists k :: 0 <= k < n && outcomes(k) == Some(m)
    ensures |CloseFailures(outcomes, n)| <= n
  {
    if n > 0 {
      CloseFailuresAreTheFailures(outcomes, n - 1);
    }
  }

  /** The end of the run: one combined error when any close failed, whose
      message names every failure. */
  function CloseReport(errors: seq<string>): (r: RunOutcome)
    ensures r.Threw? <==> errors != []
    ensures r.Threw? ==> "Failed to close positions: " <= r.message
    ensures r.Threw? ==> forall e :: e in errors ==> Contains(r.message, e)
  {
    if |errors| > 0 then
      JoinHoldsEach(errors, ", ");
      ContainsAfter("Failed to close positions: ", Join(errors, ", "));
      Threw("Failed to close positions: " + Join(errors, ", "))
    else Completed
  }

  /** The close loop: every instruction is sent once, in order, whatever
      happened to the earlier ones; each failure is caught and collected. */
  method CloseAll(toClose: seq<ClosureInstruction>, outcomes: nat -> Option<string>)
    returns (errors: seq<string>, calls: seq<Call>)
    ensures calls == CloseCalls(toClose)
    ensures errors == CloseFailures(outcomes, |toClose|)
  {
    errors, calls := [], [];
    for i := 0 to |toClose|
      invariant calls == CloseCalls(toClose[..i])
      invariant errors == CloseFailures(outcomes, i)
    {
      assert toClose[..i + 1][..i] == toClose[..i];
      calls := calls + [ClosePosition(toClose[i])];
      var outcome := outcomes(i);
      if outcome.Some? {
        errors := errors + [outcome.value];
      }
    }
    assert toClose[..|toClose|] == toClose;
  }

  /** One scheduled run. The login and the demo/live base URL are not
      modelled. */
  method ExecuteScheduledTask(env: Environment) returns (outcome: RunOutcome, trace: seq<Call>)
    ensures env.marketStatus.Failure? ==> outcome == Threw(env.marketStatus.error) && trace == [CheckMarketStatus]
    ensures env.marketStatus == Success("EDITS_ONLY") ==> outcome == Completed && trace == [CheckMarketStatus]
    ensures env.marketStatus.Success? && env.marketStatus.value != "EDITS_ONLY" && env.balance.Failure? ==>
      outcome == Threw(env.balance.error) && trace == [CheckMarketStatus, FetchBalance]
    ensures env.marketStatus.Success? && env.marketStatus.value != "EDITS_ONLY" && env.balance.Success? ==>
      var fetched := FetchOpenPositions(env.positionResponses);
      var fetches := [CheckMarketStatus, FetchBalance] + FetchCalls(fetched.attempts);
      if fetched.result.Failure? then
        outcome == Threw(FetchErrorMessage(fetched.result.error)) && trace == fetches
      else
        var toClose := Decide(fetched.result.value, env.balance.value);
        && trace == fetches + CloseCalls(toClose)
        && outcome == CloseReport(CloseFailures(env.closeOutcomes, |toClose|))
        && (outcome.Threw? <==> exists k :: 0 <= k < |toClose| && env.closeOutcomes(k).Some?)
  {
    trace := [CheckMarketStatus];
    if env.marketStatus.Failure? {
      return Threw(env.marketStatus.error), trace;
    }
    if env.marketStatus.value == "EDITS_ONLY" {
      return Completed, trace;
    }
    trace := trace + [FetchBalance];
    if env.balance.Failure? {
      return Threw(env.balance.error), trace;
    }
    var accountBalance := env.balance.value;
    var fetched, made := GetOpenPositions(env.positionResponses);
    trace := trace + FetchCalls(made);
    if fetched.Failure? {
      return Threw(FetchErrorMessage(fetched.error)), trace;
    }
    var ps := fetched.value;

    var toClose := PositionsToClose(ps, accountBalance);
    assert trace == [CheckMarketStatus, FetchBalance] + FetchCalls(FetchOpenPositions(env.positionResponses).attempts);

    var errors, calls := CloseAll(toClose, env.closeOutcomes);
    trace := trace + calls;
    CloseFailuresAreTheFailures(env.closeOutcomes, |toClose|);
    outcome := CloseReport(errors);
  }
}
