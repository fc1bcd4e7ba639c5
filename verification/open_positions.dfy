/** Fetching the open positions with at most three attempts. */
module OpenPositions {
  import opened Wrappers
  import opened JsText
  import opened Positions
  import opened Runs

  /** The attempt limit of the retry loop. */
  const MaxAttempts: nat := 3

  /** What one GET of the positions endpoint answers: `response.ok`, the
      status, the `Content-Type` header if any, the body as text and, when
      the body is JSON, its `positions` array. */
  datatype Response = Response(
    ok: bool,
    status: nat,
    contentType: Option<string>,
    text: string,
    positions: seq<Position>)

  /** `contentType && contentType.includes("application/json")`. */
  predicate IsJson(r: Response)
  {
    r.contentType.Some? && Contains(r.contentType.value, "application/json")
  }

  /** A non-OK response: the loop logs it and, below the limit, tries again. */
  predicate Retried(reply: Reply<Response>)
  {
    reply.Answered? && !reply.response.ok
  }

  /** Why the fetch gave up. */
  datatype FetchError =
    | Rejection(reason: string)                  // `fetch` itself rejected
    | UnexpectedResponseType                     // OK but not JSON
    | HttpFailure(status: nat, snippet: string)  // third non-OK response

  /** The message of the error the function throws. */
  function FetchErrorMessage(e: FetchError): string
  {
    match e
    case Rejection(reason) => reason
    case UnexpectedResponseType => "Unexpected response type. Expected JSON."
    case HttpFailure(status, snippet) =>
      "Error getting open positions. HTTP status: " + NatText(status) + ", Response: " + snippet
  }

  /** The outcome of the retry loop, and how many requests it made. */
  datatype Fetched = Fetched(result: Result<seq<Position>, FetchError>, attempts: nat)

  /** The retry loop from attempt number `attempt` on, where `respond(k)` is
      how the k-th request settles. */
  function AttemptFrom(respond: nat -> Reply<Response>, attempt: nat): (f: Fetched)
    requires 1 <= attempt <= MaxAttempts
    ensures attempt <= f.attempts <= MaxAttempts
    ensures forall k :: attempt <= k < f.attempts ==> Retried(respond(k))
    ensures respond(f.attempts).Rejected? ==> f.result == Failure(Rejection(respond(f.attempts).reason))
    ensures f.result.Success? <==>
      respond(f.attempts).Answered? && respond(f.attempts).response.ok && IsJson(respond(f.attempts).response)
    ensures f.result.Success? ==> f.result.value == respond(f.attempts).response.positions
    ensures respond(f.attempts).Answered? && respond(f.attempts).response.ok && !IsJson(respond(f.attempts).response) ==>
      f.result == Failure(UnexpectedResponseType)
    ensures Retried(respond(f.attempts)) ==>
      var r := respond(f.attempts).response;
      f.attempts == MaxAttempts && f.result == Failure(HttpFailure(r.status, Snippet(r.text)))
    decreases MaxAttempts - attempt
  {
    match respond(attempt)
    case Rejected(reason) => Fetched(Failure(Rejection(reason)), attempt)
    case Answered(r) =>
    if r.ok then
      if IsJson(r) then Fetched(Success(r.positions), attempt)
      else Fetched(Failure(UnexpectedResponseType), attempt)
    else if attempt == MaxAttempts then
      Fetched(Failure(HttpFailure(r.status, Snippet(r.text))), attempt)
    else
      AttemptFrom(respond, attempt + 1)
  }

  /** The whole retry loop: at most three requests; it stops at the first OK
      response, returning its data if it is JSON and failing at once if not,
      stops at once when a request rejects, and retries only after a non-OK
      response, giving up after the third. */
  function FetchOpenPositions(respond: nat -> Reply<Response>): (f: Fetched)
    ensures 1 <= f.attempts <= MaxAttempts
    ensures forall k :: 1 <= k < f.attempts ==> Retried(respond(k))
  {
    AttemptFrom(respond, 1)
  }

  /** `getOpenPositions`: the `while (attempts <= 3)` loop. `attempts` is the
      number of the next request, so the out-parameter `made` counts the
      requests actually made. */
  method GetOpenPositions(respond: nat -> Reply<Response>) returns (result: Result<seq<Position>, FetchError>, made: nat)
    ensures Fetched(result, made) == FetchOpenPositions(respond)
  {
    var attempts: nat := 1;
    while attempts <= MaxAttempts
      invariant 1 <= attempts <= MaxAttempts
      invariant AttemptFrom(respond, attempts) == FetchOpenPositions(respond)
      decreases MaxAttempts - attempts
    {
      var reply := respond(attempts);
      if reply.Rejected? {
        return Failure(Rejection(reply.reason)), attempts;
      }
      var response := reply.response;
      if response.ok {
        if IsJson(response) {
          return Success(response.positions), attempts;
        } else {
          return Failure(UnexpectedResponseType), attempts;
        }
      } else {
        var body := response.text;
        attempts := attempts + 1;
        if attempts > MaxAttempts {
          return Failure(HttpFailure(response.status, Snippet(body))), attempts - 1;
        }
      }
    }
    assert false;
  }
}
