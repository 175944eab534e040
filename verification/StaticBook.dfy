/** What effective prices obey while the book stands still: every depth request
    answers a prefix of one book (internal/cex/binance/client.go). */
module StaticBook {
  import opened Decimals
  import opened Pricing
  import opened Orderbook
  import opened Binance

  function Prefix(levels: seq<Level>, limit: int): seq<Level>
    requires limit >= 0
  {
    if limit <= |levels| then levels[..limit] else levels
  }

  /** The exchange answers each tier with the best levels of one book. */
  ghost predicate Serves(fetch: Fetch, book: Depths) {
    book.Books? &&
    forall tier :: tier in TIERS ==> fetch(tier) == Books(Prefix(book.bids, tier), Prefix(book.asks, tier))
  }

  /** The levels the deepest tier would show. */
  function Visible(book: Depths, side: Side): seq<Level> {
    Prefix(SideOf(book, side), 1000)
  }

  lemma ShallowAgreesWithDeep(levels: seq<Level>, limit: int, side: Side, size: real, feeBps: nat)
    requires 0 <= limit <= 1000 && !TooThin(Prefix(levels, limit), size)
    ensures QuoteFrom(Prefix(levels, limit), size, side, feeBps) == QuoteFrom(Prefix(levels, 1000), size, side, feeBps)
  {
    var shallow, deep := Prefix(levels, limit), Prefix(levels, 1000);
    if size > 0.0 {
      PrefixStable(shallow, deep[|shallow|..], size);
      assert deep == shallow + deep[|shallow|..];
    }
  }

  /** Where the tier loop starts does not matter: every size is quoted as if the
      deepest tier had been walked. */
  lemma {:induction false} StartTierIsOnlyACost(fetch: Fetch, book: Depths, tiers: seq<int>, side: Side, size: real,
                                                feeBps: nat)
    requires Serves(fetch, book)
    requires tiers != [] && tiers[|tiers| - 1] == 1000 && forall k :: 0 <= k < |tiers| ==> tiers[k] in TIERS
    ensures TieredQuote(fetch, tiers, side, size, feeBps) == QuoteFrom(Visible(book, side), size, side, feeBps)
  {
    var levels := SideOf(fetch(tiers[0]), side);
    assert levels == Prefix(SideOf(book, side), tiers[0]);
    if TooThin(levels, size) {
      if |tiers| > 1 {
        StartTierIsOnlyACost(fetch, book, tiers[1..], side, size, feeBps);
      }
    } else {
      ShallowAgreesWithDeep(SideOf(book, side), tiers[0], side, size, feeBps);
    }
  }

  lemma EveryStartReachesTheDeepest(max: real, density: real)
    requires max >= 0.0
    ensures var tiers := AtLeast(TIERS, TierFor(max, density));
            tiers != [] && tiers[|tiers| - 1] == 1000 && forall k :: 0 <= k < |tiers| ==> tiers[k] in TIERS
  {
    assert TIERS[1..] == [500, 1000] && TIERS[2..] == [1000];
    assert TIERS[1..][1..] == [1000];
  }

  /** So the answer of EffectivePrices does not depend on the density estimate. */
  lemma DensityDoesNotMatter(fetch: Fetch, book: Depths, max: real, density: real,
                             side: Side, sizes: seq<real>, feeBps: nat, quotes: seq<Quote>)
    requires Serves(fetch, book) && max >= 0.0
    ensures EachByItself(fetch, AtLeast(TIERS, TierFor(max, density)), side, sizes, feeBps, quotes) <==>
            |quotes| == |sizes| && forall i :: 0 <= i < |sizes| ==>
              quotes[i] == QuoteFrom(Visible(book, side), sizes[i], side, feeBps)
  {
    var tiers := AtLeast(TIERS, TierFor(max, density));
    EveryStartReachesTheDeepest(max, density);
    forall i | 0 <= i < |sizes|
      ensures TieredQuote(fetch, tiers, side, sizes[i], feeBps) ==
              QuoteFrom(Visible(book, side), sizes[i], side, feeBps)
    {
      StartTierIsOnlyACost(fetch, book, tiers, side, sizes[i], feeBps);
    }
  }

  // ----- Slippage

  ghost predicate Sized(book: Depths) {
    book.Books? && NonNegative(book.bids) && NonNegative(book.asks)
  }

  ghost predicate SoundBook(book: Depths) {
    Sized(book) && Descending(book.bids) && Ascending(book.asks)
  }

  lemma VisibleIsSound(book: Depths)
    requires SoundBook(book)
    ensures NonNegative(Visible(book, Buy)) && Ascending(Visible(book, Buy))
    ensures NonNegative(Visible(book, Sell)) && Descending(Visible(book, Sell))
  {
  }

  lemma FilledPrice(levels: seq<Level>, size: real, side: Side, feeBps: nat)
    requires NonNegative(levels) && QuoteFrom(levels, size, side, feeBps).err.None?
    ensures 0.0 < size <= Depth(levels)
    ensures QuoteFrom(levels, size, side, feeBps).price == ApplyTakerFee(Div(Cost(levels, size), size), side, feeBps)
  {
    if size > 0.0 {
      CoveredIffDeepEnough(levels, size);
    }
  }

  /** Buying more never gets cheaper per unit, rounding and fee included. */
  lemma BuyPricesRise(asks: seq<Level>, a: real, b: real, feeBps: nat)
    requires NonNegative(asks) && Ascending(asks) && a <= b
    requires QuoteFrom(asks, a, Buy, feeBps).err.None? && QuoteFrom(asks, b, Buy, feeBps).err.None?
    ensures QuoteFrom(asks, a, Buy, feeBps).price <= QuoteFrom(asks, b, Buy, feeBps).price
  {
    hide *;
    FilledPrice(asks, a, Buy, feeBps);
    FilledPrice(asks, b, Buy, feeBps);
    VwapRisesOnAsks(asks, a, b);
    DivMonotone(Cost(asks, a), a, Cost(asks, b), b);
    FeeFactors(feeBps);
    FeesKeepOrder(Div(Cost(asks, a), a), Div(Cost(asks, b), b), Buy, feeBps);
  }

  lemma FeesKeepOrder(x: real, y: real, side: Side, feeBps: nat)
    requires x <= y && FeeFactor(side, feeBps) >= 0.0
    ensures ApplyTakerFee(x, side, feeBps) <= ApplyTakerFee(y, side, feeBps)
  {
    hide *;
    FeeIsExact(x, side, feeBps);
    FeeIsExact(y, side, feeBps);
    ScaledOrder(x, y, FeeFactor(side, feeBps));
  }

  lemma FeeFactors(feeBps: nat)
    ensures FeeFactor(Buy, feeBps) >= 1.0 >= FeeFactor(Sell, feeBps)
    ensures feeBps <= 10000 ==> FeeFactor(Sell, feeBps) >= 0.0
  {
  }

  lemma ScaledOrder(x: real, y: real, factor: real)
    requires x <= y && factor >= 0.0
    ensures x * factor <= y * factor
  {
  }

  /** Selling more never earns more per unit, on any sound book. */
  ghost predicate SellPricesFall(feeBps: nat) {
    forall bids, a, b ::
      && NonNegative(bids) && Descending(bids) && a <= b
      && QuoteFrom(bids, a, Sell, feeBps).err.None? && QuoteFrom(bids, b, Sell, feeBps).err.None?
      ==> QuoteFrom(bids, a, Sell, feeBps).price >= QuoteFrom(bids, b, Sell, feeBps).price
  }

  lemma SellPricesFallUpToFullFee(bids: seq<Level>, a: real, b: real, feeBps: nat)
    requires NonNegative(bids) && Descending(bids) && a <= b && feeBps <= 10000
    requires QuoteFrom(bids, a, Sell, feeBps).err.None? && QuoteFrom(bids, b, Sell, feeBps).err.None?
    ensures QuoteFrom(bids, a, Sell, feeBps).price >= QuoteFrom(bids, b, Sell, feeBps).price
  {
    hide *;
    FilledPrice(bids, a, Sell, feeBps);
    FilledPrice(bids, b, Sell, feeBps);
    VwapFallsOnBids(bids, a, b);
    DivMonotone(Cost(bids, b), b, Cost(bids, a), a);
    FeeFactors(feeBps);
    FeesKeepOrder(Div(Cost(bids, b), b), Div(Cost(bids, a), a), Sell, feeBps);
  }

  /** A fee of more than the whole price turns the slippage of sells around. */
  lemma ExcessiveFeeReverses(feeBps: nat)
    requires feeBps > 10000
    ensures !SellPricesFall(feeBps)
  {
    var bids := [Level(2.0, 1.0), Level(1.0, 1.0)];
    assert bids[1..] == [Level(1.0, 1.0)];
    assert Unfilled(bids, 1.0) == 0.0 && Cost(bids, 1.0) == 2.0;
    assert Unfilled(bids, 2.0) == 0.0 && Cost(bids, 2.0) == 3.0;
    Round16Exact(2.0, 20000000000000000);
    Round16Exact(1.5, 15000000000000000);
    FeeRateIsExact(feeBps);
    assert QuoteFrom(bids, 1.0, Sell, feeBps).price == 2.0 * (1.0 - FeeRate(feeBps));
    assert QuoteFrom(bids, 2.0, Sell, feeBps).price == 1.5 * (1.0 - FeeRate(feeBps));
  }

  lemma SellPricesFallIff(feeBps: nat)
    ensures SellPricesFall(feeBps) <==> feeBps <= 10000
  {
    if feeBps <= 10000 {
      forall bids, a, b |
        && NonNegative(bids) && Descending(bids) && a <= b
        && QuoteFrom(bids, a, Sell, feeBps).err.None? && QuoteFrom(bids, b, Sell, feeBps).err.None?
        ensures QuoteFrom(bids, a, Sell, feeBps).price >= QuoteFrom(bids, b, Sell, feeBps).price
      {
        SellPricesFallUpToFullFee(bids, a, b, feeBps);
      }
    } else {
      ExcessiveFeeReverses(feeBps);
    }
  }

  /** On a standing book Buy prices never fall and Sell prices never rise with
      the index, whatever tier each of them was read from. */
  lemma SlippageGrowsWithSize(fetch: Fetch, book: Depths, max: real, density: real, sizes: seq<real>, feeBps: nat,
                              quotes: Quotes, i: nat, j: nat)
    requires Serves(fetch, book) && SoundBook(book) && max >= 0.0 && feeBps <= 10000
    requires EachByItself(fetch, AtLeast(TIERS, TierFor(max, density)), Buy, sizes, feeBps, quotes.buy)
    requires EachByItself(fetch, AtLeast(TIERS, TierFor(max, density)), Sell, sizes, feeBps, quotes.sell)
    requires SizesAscend(sizes) && i < j < |sizes|
    ensures quotes.buy[i].err.None? && quotes.buy[j].err.None? ==> quotes.buy[i].price <= quotes.buy[j].price
    ensures quotes.sell[i].err.None? && quotes.sell[j].err.None? ==> quotes.sell[i].price >= quotes.sell[j].price
  {
    hide TierFor, TieredQuote, QuoteFrom, Visible, AtLeast;
    VisibleIsSound(book);
    DensityDoesNotMatter(fetch, book, max, density, Buy, sizes, feeBps, quotes.buy);
    DensityDoesNotMatter(fetch, book, max, density, Sell, sizes, feeBps, quotes.sell);
    if quotes.buy[i].err.None? && quotes.buy[j].err.None? {
      BuyPricesRise(Visible(book, Buy), sizes[i], sizes[j], feeBps);
    }
    if quotes.sell[i].err.None? && quotes.sell[j].err.None? {
      SellPricesFallUpToFullFee(Visible(book, Sell), sizes[i], sizes[j], feeBps);
    }
  }

  // ----- Spread

  ghost predicate Uncrossed(book: Depths)
    requires book.Books?
  {
    forall i, j :: 0 <= i < |book.bids| && 0 <= j < |book.asks| ==> book.bids[i].price <= book.asks[j].price
  }

  lemma CostAtLeast(levels: seq<Level>, low: real, size: real)
    requires NonNegative(levels) && PricesAtLeast(levels, low) && 0.0 <= size <= Depth(levels)
    ensures Cost(levels, size) >= Pay(size, low)
  {
    hide *;
    NothingCostsNothing(levels);
    MarginalCost(levels, low, 0.0, size);
  }

  lemma CostAtMost(levels: seq<Level>, high: real, size: real)
    requires NonNegative(levels) && PricesAtMost(levels, high) && 0.0 <= size <= Depth(levels)
    ensures Cost(levels, size) <= Pay(size, high)
  {
    assert PricesAtLeast(Mirror(levels), -high) && NonNegative(Mirror(levels));
    NegatedPay(size, high);
    hide *;
    MirrorNegates(levels, Greedy(levels, size), size);
    CostAtLeast(Mirror(levels), -high, size);
  }

  lemma NegatedPay(size: real, price: real)
    ensures Pay(size, -price) == -Pay(size, price)
  {
  }

  /** Every book has a best bid. */
  lemma {:induction false} BestBid(bids: seq<Level>) returns (price: real)
    requires bids != []
    ensures PricesAtMost(bids, price) && exists i :: 0 <= i < |bids| && bids[i].price == price
  {
    var n := |bids| - 1;
    price := bids[n].price;
    if n > 0 {
      var before := BestBid(bids[..n]);
      assert forall i :: 0 <= i < n ==> bids[i] == bids[..n][i];
      price := if before > price then before else price;
    }
  }

  /** On an uncrossed book, in whatever order its levels are, a size costs at least
      what it would fetch. */
  lemma BuyCostsAtLeastSell(asks: seq<Level>, bids: seq<Level>, size: real)
    requires NonNegative(asks) && NonNegative(bids)
    requires forall i, j :: 0 <= i < |bids| && 0 <= j < |asks| ==> bids[i].price <= asks[j].price
    requires 0.0 < size <= Depth(asks) && size <= Depth(bids)
    ensures Cost(asks, size) >= Cost(bids, size)
  {
    var pivot := BestBid(bids);
    assert PricesAtLeast(asks, pivot);
    hide *;
    CostAtLeast(asks, pivot, size);
    CostAtMost(bids, pivot, size);
  }

  lemma FeesWidenTheSpread(buy: real, sell: real, feeBps: nat)
    requires buy >= sell >= 0.0
    ensures ApplyTakerFee(buy, Buy, feeBps) >= ApplyTakerFee(sell, Sell, feeBps)
    ensures ApplyTakerFee(buy, Buy, feeBps) >= 0.0
  {
    FeeAgainstTrader(buy, feeBps);
    FeeAgainstTrader(sell, feeBps);
  }

  /** A fee raises what a buyer pays and lowers what a seller receives. */
  lemma FeeAgainstTrader(price: real, feeBps: nat)
    requires price >= 0.0
    ensures ApplyTakerFee(price, Sell, feeBps) <= price <= ApplyTakerFee(price, Buy, feeBps)
  {
    hide *;
    FeeFactors(feeBps);
    FeeIsExact(price, Buy, feeBps);
    FeeIsExact(price, Sell, feeBps);
    ScaledOrder(0.0, FeeFactor(Buy, feeBps) - 1.0, price);
    ScaledOrder(0.0, 1.0 - FeeFactor(Sell, feeBps), price);
  }

  lemma CostNonNegative(levels: seq<Level>, size: real)
    requires NonNegative(levels) && PricesAtLeast(levels, 0.0) && 0.0 <= size <= Depth(levels)
    ensures Cost(levels, size) >= 0.0
  {
    MarginalCost(levels, 0.0, 0.0, size);
    NothingCostsNothing(levels);
  }

  /** A venue never offers to buy back for more than it sells. */
  lemma NoSpreadWithinAVenue(book: Depths, size: real, feeBps: nat)
    requires Sized(book) && Uncrossed(book) && PricesAtLeast(book.bids, 0.0)
    requires QuoteFrom(Visible(book, Buy), size, Buy, feeBps).err.None?
    requires QuoteFrom(Visible(book, Sell), size, Sell, feeBps).err.None?
    ensures QuoteFrom(Visible(book, Buy), size, Buy, feeBps).price
         >= QuoteFrom(Visible(book, Sell), size, Sell, feeBps).price
    ensures QuoteFrom(Visible(book, Buy), size, Buy, feeBps).price >= 0.0
  {
    var asks, bids := Visible(book, Buy), Visible(book, Sell);
    assert NonNegative(asks) && NonNegative(bids);
    assert PricesAtLeast(bids, 0.0);
    assert forall i, j :: 0 <= i < |bids| && 0 <= j < |asks| ==> bids[i].price <= asks[j].price;
    hide *;
    FilledPrice(asks, size, Buy, feeBps);
    FilledPrice(bids, size, Sell, feeBps);
    BuyCostsAtLeastSell(asks, bids, size);
    CostNonNegative(bids, size);
    VwapOrder(Cost(asks, size), Cost(bids, size), size);
    FeesWidenTheSpread(Div(Cost(asks, size), size), Div(Cost(bids, size), size), feeBps);
  }

  lemma VwapOrder(high: real, low: real, size: real)
    requires high >= low >= 0.0 && size > 0.0
    ensures Div(high, size) >= Div(low, size) >= 0.0
  {
    MulMonotone(low, high, size);
    DivMonotone(low, size, high, size);
    DivMonotone(0.0, size, low, size);
    assert Div(0.0, size) == 0.0;
  }
}
