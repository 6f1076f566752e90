/** The core domain types (src/polymaker/domain.py). */
module Domain {

  datatype Side = BUY | SELL {
    function Opposite(): Side {
      if this == BUY then SELL else BUY
    }
  }

  datatype Regime = QUIET | TRENDING | EVENT | REDUCE_ONLY | HALTED

  datatype OrderState = DRAFT | POSTED | LIVE | PARTIALLY_FILLED | CANCELED | REJECTED | DONE

  datatype TradeState = MATCHED | MINED | CONFIRMED | RETRYING | FAILED

  datatype Position = Position(size: real, avgPrice: real)

  /** A traded quantity. */
  type Shares = x: real | x >= 0.0

  /** One resting order as the engine believes it exists; `size` is what remains. */
  datatype OpenOrder = OpenOrder(orderId: string, tokenId: string, side: Side, price: real,
                                 size: real, state: OrderState, createdTs: real)

  datatype Fill = Fill(tokenId: string, side: Side, price: real, size: Shares, tradeId: string, ts: real) {
    /** Shares added to inventory: positive for a BUY, negative for a SELL. */
    function Signed(): real {
      var shares: real := size;
      if side == BUY then shares else -shares
    }
  }

  datatype Quote = Quote(tokenId: string, side: Side, price: real, size: real)
}
