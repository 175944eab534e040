/** What venue adapters return (internal/pricing/quote.go). */
module Pricing {

  datatype Option<+T> = None | Some(value: T)

  datatype Result<+T> = Success(value: T) | Failure(error: Error)

  datatype Error =
    | InsufficientDepth
    | InvalidSize
    | CallFailed(code: int)
    | UnexpectedOutput
    | GasOverflow(gas: int)

  const UINT64_RANGE: nat := 0x1_0000_0000_0000_0000

  type Uint64 = n: nat | n < UINT64_RANGE

  /** Machine addition, which wraps around. */
  function AddUint64(x: Uint64, y: Uint64): Uint64 {
    (x + y) % UINT64_RANGE
  }

  /** The zero value is not a valid side. */
  datatype Side = UnknownSide | Buy | Sell

  datatype Quote = Quote(size: real, side: Side, price: real, gas: Uint64, err: Option<Error>)

  const ZERO_QUOTE := Quote(0.0, UnknownSide, 0.0, 0, None)

  function Refused(size: real, side: Side, err: Error): Quote {
    Quote(size, side, 0.0, 0, Some(err))
  }

  datatype Quotes = Quotes(buy: seq<Quote>, sell: seq<Quote>) {

    /** What the Pathfinder needs in order not to index out of range. */
    predicate Indexable() {
      |buy| <= |sell|
    }

    /** The contract of the adapters: row i of either side is about sizes[i]. */
    ghost predicate AlignedTo(sizes: seq<real>) {
      && |buy| == |sell| == |sizes|
      && forall i :: 0 <= i < |sizes| ==>
           && buy[i].size == sell[i].size == sizes[i]
           && buy[i].side == Buy && sell[i].side == Sell
    }
  }

  /** Quotes as they travel between the stages; both adapters deliver them. */
  type IndexableQuotes = quotes: Quotes | quotes.Indexable() witness Quotes([], [])
}
