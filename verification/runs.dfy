/** What a run of an entry point does to the outside world, in order, and how
    it ends. */
module Runs {
  import opened Positions

  /** One call to the broker. */
  datatype Call =
    | CheckMarketStatus                            // isMarketOpen
    | FetchBalance                                 // getAccountBalance
    | FetchAccounts                                // GET /accounts
    | FetchPositions(attempt: nat)                 // GET /positions, k-th attempt
    | ClosePosition(instruction: ClosureInstruction) // POST /positions/otc

  /** How a `fetch` settles: it resolves with the server's response, or it
      rejects (a network failure, say) with an error carrying `reason`. */
  datatype Reply<+R> = Answered(response: R) | Rejected(reason: string)

  /** How the entry point's promise settles: it resolves, or it rejects with
      an error carrying `message`. */
  datatype RunOutcome = Completed | Threw(message: string)

  /** The requests of the first `n` attempts to fetch the positions. */
  function FetchCalls(n: nat): (calls: seq<Call>)
    ensures |calls| == n
    ensures forall k :: 0 <= k < n ==> calls[k] == FetchPositions(k + 1)
  {
    if n == 0 then [] else FetchCalls(n - 1) + [FetchPositions(n)]
  }

  /** One close request per instruction, in order. */
  function CloseCalls(toClose: seq<ClosureInstruction>): (calls: seq<Call>)
    ensures |calls| == |toClose|
    ensures forall k :: 0 <= k < |toClose| ==> calls[k] == ClosePosition(toClose[k])
  {
    if toClose == [] then [] else CloseCalls(toClose[..|toClose| - 1]) + [ClosePosition(toClose[|toClose| - 1])]
  }
}
