/** `stopLoss`, the older entry point: it reads the balance of one account
    from the account list, fetches the positions once, applies the same
    decision, and sends every closure, only logging the ones that fail. */
module StopLoss {
  import opened Wrappers
  import opened JsText
  import opened Positions
  import opened Grouping
  import opened Decision
  import opened Runs

  /** An entry of `accountData.accounts`; `balance` is `balance.balance`. */
  datatype Account = Account(accountName: string, balance: real)

  datatype AccountsResponse = AccountsResponse(ok: bool, status: nat, accounts: seq<Account>)

  datatype PositionsResponse = PositionsResponse(ok: bool, status: nat, positions: seq<Position>)

  datatype CloseResponse = CloseResponse(ok: bool, status: nat)

  /** How the broker's side of one run settles: the accounts request, the
      positions request, and the k-th (from 0) close request. */
  datatype Environment = Environment(
    accounts: Reply<AccountsResponse>,
    positions: Reply<PositionsResponse>,
    closeResponses: nat -> Reply<CloseResponse>)

  /** The account whose balance a live run uses. */
  const LiveAccountName: string := "Spread bet 2"

  /** The TypeError raised when the chosen account does not exist and its
      `balance` is read from `undefined`. */
  const MissingAccountMessage: string := "Cannot read properties of undefined (reading 'balance')"

  /** `accounts.find(acc => acc.accountName === name)`, as an index. */
  function FindAccount(accounts: seq<Account>, name: string): (r: Option<nat>)
    ensures r.Some? ==> r.value < |accounts| && accounts[r.value].accountName == name
    ensures r.Some? ==> forall j :: 0 <= j < r.value ==> accounts[j].accountName != name
    ensures r.None? ==> forall j :: 0 <= j < |accounts| ==> accounts[j].accountName != name
  {
    if accounts == [] then None
    else if accounts[0].accountName == name then Some(0)
    else
      match FindAccount(accounts[1..], name)
      case Some(i) => Some(i + 1)
      case None => None
  }

  /** The balance of the run: the second account for the demo API, the first
      account named "Spread bet 2" for the live one; a missing account is a
      TypeError. */
  function SelectBalance(accounts: seq<Account>, usingDemoAccount: bool): (r: Result<real, string>)
    ensures r.Failure? ==> r.error == MissingAccountMessage
    ensures usingDemoAccount ==> (r.Success? <==> |accounts| >= 2)
    ensures usingDemoAccount && r.Success? ==> r.value == accounts[1].balance
    ensures !usingDemoAccount ==>
      (r.Success? <==> exists i :: 0 <= i < |accounts| && accounts[i].accountName == LiveAccountName)
    ensures !usingDemoAccount && r.Success? ==>
      exists i :: 0 <= i < |accounts| && accounts[i].accountName == LiveAccountName && r.value == accounts[i].balance
                  && (forall j :: 0 <= j < i ==> accounts[j].accountName != LiveAccountName)
  {
    if usingDemoAccount then
      if |accounts| >= 2 then Success(accounts[1].balance) else Failure(MissingAccountMessage)
    else
      match FindAccount(accounts, LiveAccountName)
      case Some(i) => Success(accounts[i].balance)
      case None => Failure(MissingAccountMessage)
  }

  /** The statuses logged for the non-OK responses among the first `n`
      close requests. */
  function FailedStatuses(responses: nat -> Reply<CloseResponse>, n: nat): seq<nat>
  {
    if n == 0 then []
    else
      var reply := responses(n - 1);
      FailedStatuses(responses, n - 1) + (if reply.Answered? && !reply.response.ok then [reply.response.status] else [])
  }

  /** The first of the first `n` close requests that rejects, if any. */
  function FirstRejected(responses: nat -> Reply<CloseResponse>, n: nat): (r: Option<nat>)
    ensures r.Some? ==> r.value < n && responses(r.value).Rejected?
    ensures r.Some? ==> forall j :: 0 <= j < r.value ==> responses(j).Answered?
    ensures r.None? ==> forall j :: 0 <= j < n ==> responses(j).Answered?
  {
    if n == 0 then None
    else
      match FirstRejected(responses, n - 1)
      case Some(k) => Some(k)
      case None => if responses(n - 1).Rejected? then Some(n - 1) else None
  }

  /** The close loop: the instructions are posted one at a time, in order; a
      non-OK response is logged with its status and the loop goes on, but a
      request that rejects ends the loop, and the run, with its error. */
  method PostClosures(toClose: seq<ClosureInstruction>, responses: nat -> Reply<CloseResponse>)
    returns (calls: seq<Call>, failed: seq<nat>, rejection: Option<string>)
    ensures FirstRejected(responses, |toClose|).None? ==>
      calls == CloseCalls(toClose) && failed == FailedStatuses(responses, |toClose|) && rejection == None
    ensures FirstRejected(responses, |toClose|).Some? ==>
      var k := FirstRejected(responses, |toClose|).value;
      && calls == CloseCalls(toClose[..k + 1])
      && failed == FailedStatuses(responses, k)
      && rejection == Some(responses(k).reason)
  {
    calls, failed := [], [];
    for i := 0 to |toClose|
      invariant calls == CloseCalls(toClose[..i])
      invariant failed == FailedStatuses(responses, i)
      invariant FirstRejected(responses, i) == None
    {
      assert toClose[..i + 1][..i] == toClose[..i];
      calls := calls + [ClosePosition(toClose[i])];
      var reply := responses(i);
      if reply.Rejected? {
        assert FirstRejected(responses, i + 1) == Some(i);
        FirstRejectedStays(responses, i, |toClose|);
        return calls, failed, Some(reply.reason);
      }
      if !reply.response.ok {
        failed := failed + [reply.response.status];
      }
    }
    assert toClose[..|toClose|] == toClose;
    rejection := None;
  }

  /** Once some request has rejected, later requests do not change which one
      was first. */
  lemma {:induction false} FirstRejectedStays(responses: nat -> Reply<CloseResponse>, k: nat, n: nat)
    requires k < n && FirstRejected(responses, k + 1) == Some(k)
    ensures FirstRejected(responses, n) == Some(k)
    decreases n
  {
    if n > k + 1 {
      FirstRejectedStays(responses, k, n - 1);
    }
  }

  /** The accounts request answered OK and the chosen account exists. */
  predicate BalanceRead(env: Environment, usingDemoAccount: bool)
  {
    && env.accounts.Answered? && env.accounts.response.ok
    && SelectBalance(env.accounts.response.accounts, usingDemoAccount).Success?
  }

  /** The positions request answered OK. */
  predicate PositionsRead(env: Environment)
  {
    env.positions.Answered? && env.positions.response.ok
  }

  /** One run of `stopLoss`. A rejected or non-OK accounts or positions
      request, or a missing account, throws before any closure. Otherwise the
      closures are posted in order until one request rejects, which throws;
      non-OK close responses are only logged, and `failed` holds the statuses
      logged. The login and the base URL are not modelled. */
  method StopLoss(env: Environment, usingDemoAccount: bool)
    returns (outcome: RunOutcome, trace: seq<Call>, failed: seq<nat>)
    ensures env.accounts.Rejected? ==>
      outcome == Threw(env.accounts.reason) && trace == [FetchAccounts] && failed == []
    ensures env.accounts.Answered? && !env.accounts.response.ok ==>
      outcome == Threw("Error getting account. HTTP status: " + NatText(env.accounts.response.status))
      && trace == [FetchAccounts] && failed == []
    ensures env.accounts.Answered? && env.accounts.response.ok && !BalanceRead(env, usingDemoAccount) ==>
      outcome == Threw(MissingAccountMessage) && trace == [FetchAccounts] && failed == []
    ensures BalanceRead(env, usingDemoAccount) && env.positions.Rejected? ==>
      outcome == Threw(env.positions.reason) && trace == [FetchAccounts, FetchPositions(1)] && failed == []
    ensures BalanceRead(env, usingDemoAccount) && env.positions.Answered? && !env.positions.response.ok ==>
      outcome == Threw("Error getting open positions. HTTP status: " + NatText(env.positions.response.status))
      && trace == [FetchAccounts, FetchPositions(1)] && failed == []
    ensures BalanceRead(env, usingDemoAccount) && PositionsRead(env) ==>
      var balance := SelectBalance(env.accounts.response.accounts, usingDemoAccount).value;
      var toClose := Decide(env.positions.response.positions, balance);
      var fetches := [FetchAccounts, FetchPositions(1)];
      match FirstRejected(env.closeResponses, |toClose|)
      case None =>
        && outcome == Completed
        && trace == fetches + CloseCalls(toClose)
        && failed == FailedStatuses(env.closeResponses, |toClose|)
      case Some(k) =>
        && outcome == Threw(env.closeResponses(k).reason)
        && trace == fetches + CloseCalls(toClose[..k + 1])
        && failed == FailedStatuses(env.closeResponses, k)
  {
    trace, failed := [FetchAccounts], [];
    if env.accounts.Rejected? {
      return Threw(env.accounts.reason), trace, failed;
    }
    var accountResponse := env.accounts.response;
    if !accountResponse.ok {
      return Threw("Error getting account. HTTP status: " + NatText(accountResponse.status)), trace, failed;
    }
    var balance := SelectBalance(accountResponse.accounts, usingDemoAccount);
    if balance.Failure? {
      return Threw(balance.error), trace, failed;
    }
    var accountBalance := balance.value;

    trace := trace + [FetchPositions(1)];
    if env.positions.Rejected? {
      return Threw(env.positions.reason), trace, failed;
    }
    var openPositionsResponse := env.positions.response;
    if !openPositionsResponse.ok {
      return Threw("Error getting open positions. HTTP status: " + NatText(openPositionsResponse.status)), trace, failed;
    }
    var ps := openPositionsResponse.positions;

    var toClose := PositionsToClose(ps, accountBalance);
    assert trace == [FetchAccounts, FetchPositions(1)];

    var calls, rejection;
    calls, failed, rejection := PostClosures(toClose, env.closeResponses);
    trace := trace + calls;
    if rejection.Some? {
      outcome := Threw(rejection.value);
    } else {
      outcome := Completed;
    }
    assert BalanceRead(env, usingDemoAccount) && PositionsRead(env);
  }
}
