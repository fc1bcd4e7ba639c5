# Individual stop-loss worker — a Dafny model

The worker runs on a schedule against a broker's REST API. It reads the
account balance and the open positions, sums the profit or loss (P/L) of the
positions per instrument, and flattens every instrument whose summed loss is
more than 1% of the balance while its market is tradeable. This project models
the decision and the loops around it:

- **Per-position P/L** (`Positions`). A long (BUY) position earns `bid - level`
  per unit and a short (SELL) one earns `level - offer`. The P/L is rounded to
  cents with `Math.round(x * 100) / 100`, which is `Floor(x * 100 + 1/2) / 100`
  in exact arithmetic (`JsNumbers.Round2`).
- **Grouping** (`Grouping`). The `summedPositions` object is a datatype
  `Summed`: its entries, plus its keys in `for...in` order, which is insertion
  order. `AggregatePositions` is the `forEach` fold. `AnnotateGroups` is the
  loop that adds `plRatio` and `marketStatus` to each group. The lemmas state
  what the fold builds, as functions of the input sequence: `FirstSeen` (the
  keys), `Members` (a group's positions) and `RunningPl` (the re-rounded
  running sum).
- **Decision** (`Decision`). `SelectPositionsToClose` is the nested loop that
  builds `positionsToClose`. `Decide` states the same thing over the input
  positions, and the lemmas prove that the two agree and that the choice is
  sound, complete and one-to-one.
- **Fetching positions with retry** (`OpenPositions`). `getOpenPositions`
  makes at most three attempts over an abstract sequence of replies.
- **Requests.** Each `fetch` settles as a `Runs.Reply`: it answers with a
  response (OK or not), or it rejects, as on a network failure. A rejection
  is an exception at the `await`. It ends the retry loop at once, and in
  `stopLoss` it ends the close loop and the run.
- **The two entry points.** `ScheduledTask.ExecuteScheduledTask` is
  `executeScheduledTask` in `src/main.js`. `StopLoss.StopLoss` is `stopLoss` in
  `src/logic.js`. Each takes the broker's answers as an `Environment` value. It
  returns the run's outcome (resolved, or thrown with a message) and the trace
  of broker calls it made, in order (`Runs.Call`).

`src/logic.js:59-119` repeats `src/main.js:28-88` line for line. The
`Grouping` and `Decision` members model both copies. The rows below cite the
`main.js` copy.

Money is `real`. A JavaScript number divided by the balance becomes a `Ratio`:
finite, ±Infinity, or NaN. So a zero balance behaves as it does in
JavaScript: any loss gives -Infinity, which is selected. No precondition on
the balance is needed.

The size is multiplied by the price difference as it stands. Take a balance
of 10000 and one long EURUSD position of size 100, opened at 1.100, with the
bid now at 1.050. A reading of the size as a number of points per pip might
expect a loss of 500.00, a ratio of -0.05, which would be selected. The code
computes `(1.050 - 1.100) * 100 = -5.00`. That is a ratio of -0.0005, which is
not selected. The model follows the code (`Positions.EurUsdExample`).

## Model

| member | source | states |
|---|---|---|
| `JsNumbers.Round2` | src/main.js:42 | The result is a whole number of cents, and the argument lies in `[r - 0.005, r + 0.005)`. So `Math.round(x*100)/100` rounds to the nearest cent, with ties going up. |
| `JsNumbers.Round2Unique` | src/main.js:42 | Any cent value `c` with `c - 0.005 <= x < c + 0.005` equals `Round2(x)`. Rounding is therefore fully determined. |
| `JsNumbers.CentsSum` | src/main.js:50 | The sum of two cent values is a cent value, and rounding that sum again leaves it unchanged. |
| `JsNumbers.Divide` | src/main.js:61 | `pl / balance` is finite iff the balance is non-zero, and then the quotient times the balance gives back `pl`. With a zero balance it is +Infinity for a gain, -Infinity for a loss, and NaN for zero. |
| `JsNumbers.ThresholdIsStrictLoss` | src/main.js:61-72 | The test `Below(Divide(pl, balance), -0.01)`, which is JavaScript's `<` with NaN comparing false, stated on the P/L. With a positive balance it holds iff `100 * pl < -balance`. A loss of exactly 1% is not selected. With a zero balance, the test holds iff `pl < 0`. |
| `JsText.ContainsIffOccurs` | src/helper_functions/open_positions.js:20 | `contentType.includes("application/json")`, as `Contains`, holds iff the text occurs at some index of the header value. |
| `JsText.Join` | src/main.js:103 | Joining no items gives the empty string. Otherwise the joined text starts with the first item. |
| `JsText.JoinHoldsEach` | src/main.js:103 | Every item can be found in the text joined with `", "`. |
| `JsText.Snippet` | src/helper_functions/open_positions.js:32-35 | `substring(0, 100)` gives a prefix of the body of at most 100 characters. The prefix is the whole body when the body is shorter, and exactly 100 characters otherwise. |
| `Positions.PositionPl` | src/main.js:37-46 | A position's P/L is a cent value within half a cent of `(bid - level) * size` for BUY, or `(level - offer) * size` for SELL. |
| `Positions.Instruction` | src/main.js:74-84 | A closure instruction keeps the deal id, carries the size as `String(size)`, has the opposite direction, and is `MARKET` / `FILL_OR_KILL`. |
| `Positions.EurUsdExample` | src/main.js:39-42 | The worked example: 100 units long from 1.100 with the bid at 1.050 lose 5.00. On a balance of 10000 that ratio is not below -0.01. |
| `Grouping.Summed.Put` | src/main.js:53 | Assigning a new key appends it to the key order. Assigning an existing key keeps the order. The dictionary stays consistent in both cases. |
| `Grouping.FirstSeenKeys` | src/main.js:48-54 | The dictionary's keys are distinct. An instrument is a key iff at least one position is on it. |
| `Grouping.MembersAreFilter` | src/main.js:31-56 | A position is in the group of `name` iff it is one of the input positions and its instrument is `name`. So every position lands in its own group and in no other. |
| `Grouping.MembersKeepOrder` | src/main.js:51 | The k-th position of a group is the k-th input position on that instrument. The input indices strictly increase. Every input position on the instrument is included. |
| `Grouping.GroupHeadIsEarliest` | src/main.js:63 | The first position of a group, whose market status the group takes, is the earliest input position on that instrument. |
| `Grouping.FirstSeenPrefix` | src/main.js:53 | The keys built from a prefix of the input are a prefix of the final keys. An instrument seen earlier is visited earlier. |
| `Grouping.RunningPlIsSum` | src/main.js:48-53 | The group P/L, re-rounded after every addition, equals the plain sum of the per-position P/Ls, and that sum is a cent value. |
| `Grouping.GroupsPartition` | src/main.js:31-56 | For any set of instruments, their group sizes add up to the number of input positions on those instruments. |
| `Grouping.GroupSizesSumToInput` | src/main.js:31-56 | All group sizes add up to the number of input positions. |
| `Grouping.AggregatePositions` | src/main.js:28-56 | After the `forEach`, the keys are the instruments in first-seen order. Each group holds that instrument's positions in input order, with the re-rounded running P/L. No group is empty. |
| `Grouping.AnnotateGroups` | src/main.js:58-65 | Each group gains `plRatio = pl / balance`, computed against the one balance of the run, and the market status of its first position. The keys and everything else are unchanged. |
| `Decision.Instructions` | src/main.js:73-86 | One instruction per position, at the same index. |
| `Decision.SelectPositionsToClose` | src/main.js:67-88 | The nested loops emit, for each key in order whose group has `plRatio < -0.01` and status `"TRADEABLE"`, the instructions for all of its positions in order. |
| `Decision.SelectionIsDecision` | src/main.js:71-72 | On the annotated dictionary, the loops emit exactly `Decide`: instruments in first-seen order. An instrument is closed iff the plain sum of its P/Ls over the balance is below -0.01 and its earliest position's market is `"TRADEABLE"`. |
| `Decision.PositionsToClose` | src/main.js:28-88 | The whole block that both entry points share (fold, annotation and selection loops) produces exactly `Decide(positions, balance)`. |
| `Decision.DecideSound` | src/main.js:71-88 | Every emitted instruction closes some input position of a breached instrument. Nothing comes from an instrument that is not breached. |
| `Decision.DecideComplete` | src/main.js:71-88 | Every position of a breached instrument is closed, including positions that are individually in profit. |
| `Decision.DecideCount` | src/main.js:71-88 | The number of instructions equals the number of input positions on breached instruments. |
| `Decision.BreachedIffLossOverOnePercent` | src/main.js:72 | The per-group test `ShouldClose` (`plRatio < -0.01` and status `"TRADEABLE"`), stated on the input: with a positive balance, an instrument is closed iff its summed loss exceeds 1% of the balance and its earliest position's market is tradeable. |
| `OpenPositions.AttemptFrom` | src/helper_functions/open_positions.js:5-37 | From attempt k, it never goes past attempt 3, and every earlier attempt in the run was answered non-OK. A rejected request ends the loop at once with that rejection, without a retry. It succeeds iff the last response is OK and JSON, returning that response's positions. OK-but-not-JSON fails with "Unexpected response type". A non-OK last response happens only at attempt 3 and fails quoting its status and a 100-character snippet. |
| `OpenPositions.FetchOpenPositions` | src/helper_functions/open_positions.js:3-38 | The loop makes between 1 and 3 requests, and every request before the last was answered non-OK. So it retries only after a non-OK status, never after a rejection. |
| `OpenPositions.GetOpenPositions` | src/helper_functions/open_positions.js:1-40 | The `while (attempts <= 3)` loop returns exactly the result and request count of `FetchOpenPositions`. It always terminates: the counter rises on each retry and is bounded by 3. |
| `ScheduledTask.CloseFailuresAreTheFailures` | src/main.js:93-104 | The collected failure list is empty iff every close succeeded. A message is in it iff some close failed with that message. It has at most one entry per close. |
| `ScheduledTask.CloseReport` | src/main.js:102-104 | The run throws iff some close failed. The message starts with "Failed to close positions: " and contains every failure's message. |
| `ScheduledTask.CloseAll` | src/main.js:93-100 | Every instruction is sent exactly once, in order, whatever happened to earlier ones. The errors are the failures' messages in call order. |
| `ScheduledTask.ExecuteScheduledTask` | src/main.js:7-106 | An `EDITS_ONLY` market ends the run after the status check, with no balance or position fetch. A failed status check, balance fetch or position fetch throws before any close. Otherwise the closes sent are exactly `Decide(positions, balance)`, in order. The run throws iff some close failed, with "Failed to close positions: " followed by the messages joined by ", ". |
| `StopLoss.FindAccount` | src/logic.js:37 | Returns the index of the first account with that name, or nothing when no account has it. |
| `StopLoss.SelectBalance` | src/logic.js:32-39 | Demo runs use `accounts[1]` and fail iff there are fewer than two accounts. Live runs use the first account named "Spread bet 2" and fail iff there is none. A failure is the TypeError of reading `balance` from `undefined`. |
| `StopLoss.FirstRejected` | src/logic.js:134-139 | Finds the first close request that rejects: every request before it was answered, and with no result every request was answered. |
| `StopLoss.PostClosures` | src/logic.js:134-146 | The instructions are posted in order, once each, up to and including the first request that rejects. No request after it is sent, and its error is returned. The statuses of the non-OK answers before that point are collected in order and logged. |
| `StopLoss.StopLoss` | src/logic.js:3-151 | A rejected or non-OK accounts request, a missing account, or a rejected or non-OK positions request throws before any close. Otherwise the closes are `Decide(positions, balance)` in order. If none of them rejects, all are posted and the run completes, whatever the statuses. Otherwise the run throws at the first rejection, with only the closes up to it posted. |

## Left out

- The login (`loginIG`), the demo/live base URL and the request headers are not modelled, and neither is a failure of `loginIG`. A request is modelled only by how it settles: a response, or a rejection with the error's message. `isMarketOpen` is modelled only by the status it returns or the message it throws, and `getAccountBalance` only by its balance or the message it throws. `closePosition` is modelled only by whether it throws, and with which message.
- Each entry point's asynchronous execution is modelled as one sequential run, because every call is awaited before the next. Console logging is left out, except for the statuses `stopLoss` logs for failed closes.
- JsNumbers.Round2: computed in exact real arithmetic. IEEE-754 doubles are not modelled: binary rounding of prices, float drift in `x * 100`, or a re-rounded running sum that can differ from the plain sum. A zero balance is taken as +0, not -0.
- `Positions.Direction` has only BUY and SELL. With any other direction string, the source's P/L is `undefined` and the group sum becomes `NaN`.
- Key order assumes instrument names are not array-index-like. JavaScript lists such keys first, in numeric order. Names that are `Object.prototype` properties (such as `constructor`) are not modelled; the source's truthiness test misreads them.
- The closure body's `JSON.stringify` and the number formatting of `String(size)` are not modelled. The size is carried as an abstract `StringOf(size)`. The fields that are always null (`epic`, `expiry`, `level`, `quoteId`) are omitted.
- A response whose body fails to parse as JSON is not modelled. Malformed position or account records are not modelled either.
- JsText.Snippet: counts characters, not UTF-16 code units as JavaScript's `substring` does.
- The `request` and `ctx` parameters of the entry points are not modelled, because the source never uses them.
