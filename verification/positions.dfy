/** An open position as the broker reports it, its profit or loss, and the
    order that closes it. */
module Positions {
  import opened JsNumbers

  datatype Direction = BUY | SELL

  /** One entry of `openPositionsData.positions`, with the fields of its
      `market` and `position` sub-objects that the stop-loss logic reads. */
  datatype Position = Position(
    dealId: string,
    instrumentName: string,   // market.instrumentName
    direction: Direction,     // position.direction
    size: real,               // position.size
    level: real,              // position.level, the opening price
    bid: real,                // market.bid
    offer: real,              // market.offer
    marketStatus: string)     // market.marketStatus

  /** `String(size)`: the decimal text of the size, kept abstract. */
  datatype SizeText = StringOf(size: real)

  /** The body posted to close a position; `epic`, `expiry`, `level` and
      `quoteId` are always null and are not represented. */
  datatype ClosureInstruction = ClosureInstruction(
    dealId: string,
    direction: Direction,
    size: SizeText,
    orderType: string,
    timeInForce: string)

  /** The unrounded P/L: a long position gains when the bid rises above the
      opening level, a short one when the offer falls below it. */
  function RawPl(p: Position): real
  {
    match p.direction
    case BUY => (p.bid - p.level) * p.size
    case SELL => (p.level - p.offer) * p.size
  }

  /** The P/L of one position, rounded half up to cents. */
  function PositionPl(p: Position): (pl: real)
    ensures IsCents(pl)
    ensures pl - 0.005 <= RawPl(p) < pl + 0.005
  {
    Round2(RawPl(p))
  }

  function Opposite(d: Direction): Direction
  {
    if d == BUY then SELL else BUY
  }

  /** The market order that flattens `p`: same deal, opposite direction,
      same size, filled at once in full or not at all. */
  function Instruction(p: Position): (c: ClosureInstruction)
    ensures c.dealId == p.dealId && c.size == StringOf(p.size)
    ensures c.direction != p.direction
    ensures c.orderType == "MARKET" && c.timeInForce == "FILL_OR_KILL"
  {
    ClosureInstruction(p.dealId, Opposite(p.direction), StringOf(p.size), "MARKET", "FILL_OR_KILL")
  }

  /** The example of a long EURUSD position opened at 1.100, bid now 1.050,
      size 100: its P/L is -5.00, a ratio of -0.0005 on a balance of 10000,
      far above the -0.01 threshold. */
  lemma EurUsdExample()
    ensures PositionPl(Position("D1", "EURUSD", BUY, 100.0, 1.100, 1.050, 1.051, "TRADEABLE")) == -5.0
    ensures !Below(Divide(-5.0, 10000.0), -0.01)
  {
    var p := Position("D1", "EURUSD", BUY, 100.0, 1.100, 1.050, 1.051, "TRADEABLE");
    assert RawPl(p) == -5.0;
    Round2Unique(-5.0, -5.0);
  }
}
