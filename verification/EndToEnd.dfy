/** From what the venues answered to the decision, across the adapters
    (internal/cex/binance, internal/dex/uniswapv3) and the evaluator
    (internal/arbitrage/evaluator.go). */
module EndToEnd {
  import opened Decimals
  import opened Pricing
  import opened Messages
  import opened Orderbook
  import opened Binance
  import opened StaticBook
  import Uniswap
  import opened Arbitrage

  /** What one leg of a trade is priced from: a side of a book, or the raw quote
      of a pool. */
  datatype Leg =
    | BookLeg(levels: seq<Level>, feeBps: nat)
    | PoolLeg(raw: int, decimals: nat, gas: Uint64)

  function QuoteOf(leg: Leg, side: Side, size: real): Quote
    requires size != 0.0
  {
    match leg
    case BookLeg(levels, feeBps) => QuoteFrom(levels, size, side, feeBps)
    case PoolLeg(raw, decimals, gas) =>
      Uniswap.QuoteFor(Uniswap.Outputs(Uniswap.BigInt(raw), Uniswap.BigInt(gas)), side, size, decimals)
  }

  /** The quotient that Div rounds. */
  function PerUnit(cost: real, size: real): real
    requires size != 0.0
  {
    cost / size
  }

  function Scaled(price: real, factor: real): real {
    price * factor
  }

  /** The unit price in exact rational arithmetic. */
  function ExactPrice(leg: Leg, side: Side, size: real): real
    requires size != 0.0
  {
    match leg
    case BookLeg(levels, feeBps) => Scaled(PerUnit(Cost(levels, size), size), FeeFactor(side, feeBps))
    case PoolLeg(raw, decimals, _) => PerUnit(Uniswap.FromRaw(raw, decimals), size)
  }

  ghost predicate SoundLeg(leg: Leg) {
    leg.BookLeg? ==> NonNegative(leg.levels) && leg.feeBps <= 10000
  }

  /** The one division of each leg is its only inexact step. */
  lemma PriceError(leg: Leg, side: Side, size: real)
    requires size != 0.0 && SoundLeg(leg) && QuoteOf(leg, side, size).err.None?
    ensures Abs(QuoteOf(leg, side, size).price - ExactPrice(leg, side, size)) <= ULP
  {
    hide Cost, Div, FeeFactor, ApplyTakerFee, QuoteFrom, PerUnit, Scaled, NonNegative, Depth, Uniswap.FromRaw;
    match leg
    case BookLeg(levels, feeBps) =>
      FilledPrice(levels, size, side, feeBps);
      BookPriceError(Cost(levels, size), size, side, feeBps);
    case PoolLeg(raw, decimals, _) =>
      DivError(Uniswap.FromRaw(raw, decimals), size);
  }

  lemma DivError(x: real, y: real)
    requires y != 0.0
    ensures Abs(Div(x, y) - PerUnit(x, y)) <= ULP / 2.0
  {
    Round16Error(x / y);
  }

  lemma BookPriceError(cost: real, size: real, side: Side, feeBps: nat)
    requires size != 0.0 && feeBps <= 10000
    ensures Abs(ApplyTakerFee(Div(cost, size), side, feeBps)
                - Scaled(PerUnit(cost, size), FeeFactor(side, feeBps))) <= ULP
  {
    hide ApplyTakerFee, FeeFactor, Div, PerUnit, Scaled;
    DivError(cost, size);
    FactorRange(side, feeBps);
    FeeScales(Div(cost, size), side, feeBps);
    ErrorOfProduct(Div(cost, size), PerUnit(cost, size), FeeFactor(side, feeBps));
  }

  lemma FeeScales(price: real, side: Side, feeBps: nat)
    ensures ApplyTakerFee(price, side, feeBps) == Scaled(price, FeeFactor(side, feeBps))
  {
    hide ApplyTakerFee, FeeFactor;
    FeeIsExact(price, side, feeBps);
  }

  lemma FactorRange(side: Side, feeBps: nat)
    requires feeBps <= 10000
    ensures 0.0 <= FeeFactor(side, feeBps) <= 2.0
  {
  }

  lemma ErrorOfProduct(x: real, y: real, factor: real)
    requires Abs(x - y) <= ULP / 2.0 && 0.0 <= factor <= 2.0
    ensures Abs(Scaled(x, factor) - Scaled(y, factor)) <= ULP
  {
    AtMostDoubled(x - y, factor);
    AtMostDoubled(y - x, factor);
    Distribute(x, y, factor);
    Distribute(y, x, factor);
    hide Scaled;
  }

  lemma Distribute(x: real, y: real, factor: real)
    ensures (x - y) * factor == Scaled(x, factor) - Scaled(y, factor)
  {
  }

  lemma AtMostDoubled(error: real, factor: real)
    requires error <= ULP / 2.0 && 0.0 <= factor <= 2.0
    ensures error * factor <= ULP
  {
    MulMonotone(error, 0.00000000000000005, factor);
  }

  /** The candidate that buys one leg and sells the other. */
  function Candidate(block: BlockEvent, buyVenue: string, buy: Leg, sellVenue: string, sell: Leg, size: real)
    : CandidatePath
    requires size != 0.0
  {
    var ask, bid := QuoteOf(buy, Buy, size), QuoteOf(sell, Sell, size);
    CandidatePath(block, size, buyVenue, sellVenue, ask.price, bid.price, AddUint64(ask.gas, bid.gas))
  }

  /** The decision about a candidate is the one exact arithmetic makes, unless
      the exact net profit is within the band around the threshold. */
  lemma DecisionAgreesWithExactArithmetic(path: CandidatePath, buy: Leg, sell: Leg, minNetProfit: real)
    requires path.size > 0.0 && SoundLeg(buy) && SoundLeg(sell)
    requires QuoteOf(buy, Buy, path.size).err.None? && QuoteOf(sell, Sell, path.size).err.None?
    requires path == Candidate(path.block, path.buyVenue, buy, path.sellVenue, sell, path.size)
    ensures var gasETH := GasETH(path.gas, path.block.baseFee);
            var ask, bid := ExactPrice(buy, Buy, path.size), ExactPrice(sell, Sell, path.size);
            var exact := ExactNet(ask, bid, path.size, gasETH);
            && Abs(Evaluate(path).netProfit - exact) <= Band(path.size, gasETH)
            && (Abs(exact - minNetProfit) > Band(path.size, gasETH) ==>
                  (IsProfitable(Evaluate(path), minNetProfit) <==> exact > minNetProfit))
  {
    hide QuoteOf, ExactPrice, Evaluate, ExactNet;
    PriceError(buy, Buy, path.size);
    PriceError(sell, Sell, path.size);
    DecisionIsExactOutsideTheBand(path, ExactPrice(buy, Buy, path.size), ExactPrice(sell, Sell, path.size),
                                  minNetProfit);
  }

  /** One venue against itself: on an uncrossed book no size makes a profit,
      whatever the fee and the gas. */
  lemma NoSelfArbitrage(book: Depths, path: CandidatePath, feeBps: nat)
    requires Sized(book) && Uncrossed(book) && PricesAtLeast(book.bids, 0.0) && path.size > 0.0
    requires var ask := QuoteFrom(Visible(book, Buy), path.size, Buy, feeBps);
             var bid := QuoteFrom(Visible(book, Sell), path.size, Sell, feeBps);
             && ask.err.None? && bid.err.None?
             && path.buyPrice == ask.price && path.sellPrice == bid.price
    ensures Evaluate(path).netProfit <= 0.0
    ensures forall minNetProfit :: minNetProfit >= 0.0 ==> !IsProfitable(Evaluate(path), minNetProfit)
  {
    hide QuoteFrom, Visible, Evaluate;
    NoSpreadWithinAVenue(book, path.size, feeBps);
    NoSpreadNoProfit(path);
  }
}
