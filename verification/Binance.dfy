/** Effective prices from tiered orderbook snapshots (internal/cex/binance/client.go). */
module Binance {
  import opened Decimals
  import opened Pricing
  import opened Orderbook

  datatype Symbol = Symbol(code: string, density: real, takerFeeBps: nat)

  /** What one depth request answers. */
  datatype Depths = Books(bids: seq<Level>, asks: seq<Level>) | FetchFailed(error: Error)

  const TIERS: seq<int> := [100, 500, 1000]

  // ----- Choice of the first tier

  function MaxSize(sizes: seq<real>): (max: real)
    ensures max >= 0.0
    ensures forall i :: 0 <= i < |sizes| ==> sizes[i] <= max
    ensures max == 0.0 || max in sizes
  {
    if sizes == [] then 0.0
    else
      var max := MaxSize(sizes[..|sizes| - 1]);
      if sizes[|sizes| - 1] > max then sizes[|sizes| - 1] else max
  }

  function LevelsNeeded(max: real, density: real): int
    requires density > 0.0
  {
    Ceil(Div(max, density))
  }

  method PickDepthLimit(symbol: Symbol, sizes: seq<real>) returns (limit: int)
    ensures limit == TierFor(MaxSize(sizes), symbol.density)
  {
    var maxSize := 0.0;
    for i := 0 to |sizes|
      invariant maxSize == MaxSize(sizes[..i])
    {
      assert sizes[..i + 1][..i] == sizes[..i];
      if sizes[i] > maxSize {
        maxSize := sizes[i];
      }
    }
    assert sizes[..|sizes|] == sizes;
    if maxSize == 0.0 || symbol.density <= 0.0 {
      return TIERS[0];
    }
    var levelsNeeded := Int64(LevelsNeeded(maxSize, symbol.density));
    assert TIERS[0] == 100 && TIERS[1] == 500 && TIERS[2] == 1000;
    for k := 0 to |TIERS|
      invariant forall j :: 0 <= j < k ==> TIERS[j] < levelsNeeded
    {
      if TIERS[k] >= levelsNeeded {
        return TIERS[k];
      }
    }
    return TIERS[|TIERS| - 1];
  }

  function TierFor(max: real, density: real): int
    requires max >= 0.0
  {
    if max == 0.0 || density <= 0.0 then 100
    else
      var levelsNeeded := Int64(LevelsNeeded(max, density));
      if 100 >= levelsNeeded then 100 else if 500 >= levelsNeeded then 500 else 1000
  }

  /** The quotient is rounded before it is compared, so a tier passes as soon as
      it misses the size by less than half a rounding unit per level. */
  lemma TierPasses(tier: int, max: real, density: real)
    requires tier >= 0 && density > 0.0
    ensures tier >= LevelsNeeded(max, density) <==> max < (tier as real + ULP / 2.0) * density
  {
    var x, bound := max / density, tier as real + ULP / 2.0;
    QuotientTimesDivisor(max, density);
    assert tier >= LevelsNeeded(max, density) <==> tier as real >= Round16(x);
    RoundUnitsAtMost(x * SCALE, tier * 10000000000000000);
    MulOrder(x, bound, density);
  }

  /** The level count survives its conversion to a signed 64-bit integer. */
  predicate CountFits(max: real, density: real)
    requires density > 0.0
  {
    LevelsNeeded(max, density) < INT64_LIMIT
  }

  /** The converted count lies beyond the smaller tiers; false when a count that
      does not fit wraps to a negative or a small one. */
  predicate CountExceeds500(max: real, density: real)
    requires density > 0.0
  {
    Int64(LevelsNeeded(max, density)) > 500
  }

  lemma HalfUnits(tier: int, density: real)
    ensures (tier as real + ULP / 2.0) * density == tier as real * density + density * ULP / 2.0
  {
  }

  lemma CountIsPositive(max: real, density: real)
    requires max > 0.0 && density > 0.0
    ensures LevelsNeeded(max, density) >= 0
    ensures CountFits(max, density) ==> Int64(LevelsNeeded(max, density)) == LevelsNeeded(max, density)
  {
    QuotientTimesDivisor(max, density);
    var x := max / density;
    assert x > 0.0 by {
      if x <= 0.0 {
        MulMonotone(x, 0.0, density);
      }
    }
  }

  /** A count that does not fit belongs to a size that only the deepest tier, if
      any, could cover. */
  lemma HugeSize(max: real, density: real)
    requires max > 0.0 && density > 0.0 && !CountFits(max, density)
    ensures max >= (500.0 + ULP / 2.0) * density
  {
    TierPasses(500, max, density);
  }

  /** A tier is accepted when the size stays below its estimate plus half a rounding
      unit per level; if the count does not fit, when its low 64 bits do. */
  lemma TierAcceptedIff(tier: int, max: real, density: real)
    requires 0 <= tier < INT64_LIMIT && max > 0.0 && density > 0.0
    ensures tier >= Int64(LevelsNeeded(max, density)) <==>
            if CountFits(max, density) then max < (tier as real + ULP / 2.0) * density
            else var low := LevelsNeeded(max, density) % INT64_RANGE; low <= tier || low >= INT64_LIMIT
  {
    CountIsPositive(max, density);
    TierPasses(tier, max, density);
    hide LevelsNeeded;
  }

  /** No smaller tier would cover the size. The picked one covers it up to half a
      rounding unit per level or is the deepest, unless the count wraps. */
  lemma PickedTierCovers(max: real, density: real)
    requires max > 0.0 && density > 0.0
    ensures var tier := TierFor(max, density);
            && tier in TIERS
            && (forall smaller :: smaller in TIERS && smaller < tier ==> smaller as real * density < max)
            && ((tier == 1000 || tier as real * density > max - density * ULP / 2.0) <==>
                (CountFits(max, density) || CountExceeds500(max, density)))
  {
    CountIsPositive(max, density);
    if !CountFits(max, density) {
      HugeSize(max, density);
    }
    var tier := TierFor(max, density);
    HalfUnits(tier, density);
    TierPasses(tier, max, density);
    SmallTiers(max, density);
    MulOrder(100.0, 100.0 + ULP / 2.0, density);
    MulOrder(500.0, 500.0 + ULP / 2.0, density);
    hide LevelsNeeded;
  }

  lemma SmallTiers(max: real, density: real)
    requires density > 0.0
    ensures 100 >= LevelsNeeded(max, density) <==> max < (100.0 + ULP / 2.0) * density
    ensures 500 >= LevelsNeeded(max, density) <==> max < (500.0 + ULP / 2.0) * density
    ensures 100.0 * density < (100.0 + ULP / 2.0) * density < 500.0 * density < (500.0 + ULP / 2.0) * density
  {
    TierPasses(100, max, density);
    TierPasses(500, max, density);
    MulOrder(100.0, 100.0 + ULP / 2.0, density);
    MulOrder(100.0 + ULP / 2.0, 500.0, density);
    MulOrder(500.0, 500.0 + ULP / 2.0, density);
  }

  /** The smallest tier that covers `max` at this density, else the deepest. */
  function SmallestCovering(max: real, density: real): int {
    if max <= 100.0 * density then 100
    else if max <= 500.0 * density then 500
    else 1000
  }

  /** `max` exceeds what the tier covers by so little that the quotient is
      rounded down to the tier itself. */
  predicate JustBeyond(tier: int, max: real, density: real) {
    tier as real * density < max < (tier as real + ULP / 2.0) * density
  }

  /** The documented choice is made exactly when the size is not just beyond one
      of the two smaller tiers and the level count does not wrap to a small one. */
  lemma PicksSmallestCoveringIff(max: real, density: real)
    requires max > 0.0 && density > 0.0
    ensures TierFor(max, density) == SmallestCovering(max, density)
       <==> if CountFits(max, density) then !JustBeyond(100, max, density) && !JustBeyond(500, max, density)
            else CountExceeds500(max, density)
  {
    CountIsPositive(max, density);
    SmallTiers(max, density);
    if !CountFits(max, density) {
      HugeSize(max, density);
    }
    hide LevelsNeeded, CountFits;
  }

  /** A size of two to the power of 63 levels is taken for a negative count. */
  lemma WrapsToTheSmallestTier()
    ensures TierFor(9223372036854775808.0, 1.0) == 100
    ensures SmallestCovering(9223372036854775808.0, 1.0) == 1000
  {
    assert 9223372036854775808.0 / 1.0 == INT64_LIMIT as real;
    Round16Integer(INT64_LIMIT);
    assert LevelsNeeded(9223372036854775808.0, 1.0) == INT64_LIMIT;
  }

  lemma PicksTooSmallATier()
    ensures TierFor(100.00000000000000004, 1.0) == 100
    ensures SmallestCovering(100.00000000000000004, 1.0) == 500
  {
    var max := 100.00000000000000004;
    TierPasses(100, max, 1.0);
    RoundUnitsNearest(max * SCALE, 1000000000000000000);
    assert Div(max, 1.0) == 100.0;
  }

  // ----- Fees

  const BPS_DENOMINATOR: real := 10000.0

  function FeeRate(feeBps: nat): real {
    Div(feeBps as real, BPS_DENOMINATOR)
  }

  function ApplyTakerFee(price: real, side: Side, feeBps: nat): real {
    if feeBps == 0 then price
    else
      match side
      case Buy => price * (1.0 + FeeRate(feeBps))
      case Sell => price * (1.0 - FeeRate(feeBps))
      case UnknownSide => price
  }

  lemma FeeRateIsExact(feeBps: nat)
    ensures FeeRate(feeBps) == feeBps as real / 10000.0
  {
    Round16Exact(feeBps as real / 10000.0, feeBps * 1000000000000);
  }

  /** The exact share of the book price that is paid or received. */
  function FeeFactor(side: Side, feeBps: nat): real {
    match side
    case Buy => 1.0 + feeBps as real / 10000.0
    case Sell => 1.0 - feeBps as real / 10000.0
    case UnknownSide => 1.0
  }

  /** A buyer pays, and a seller gets, the price plus or minus so many ten-thousandths. */
  lemma FeeIsExact(price: real, side: Side, feeBps: nat)
    ensures ApplyTakerFee(price, Buy, feeBps) == price * (1.0 + feeBps as real / 10000.0)
    ensures ApplyTakerFee(price, Sell, feeBps) == price * (1.0 - feeBps as real / 10000.0)
    ensures ApplyTakerFee(price, UnknownSide, feeBps) == price
    ensures ApplyTakerFee(price, side, feeBps) == price * FeeFactor(side, feeBps)
  {
    FeeRateIsExact(feeBps);
  }

  // ----- Filling a side

  /** The quote a walk of `levels` yields. */
  function QuoteFrom(levels: seq<Level>, size: real, side: Side, feeBps: nat): Quote {
    match WalkOf(levels, size)
    case Filled(price, _) => Quote(size, side, ApplyTakerFee(price, side, feeBps), 0, None)
    case InvalidSize => Refused(size, side, Error.InvalidSize)
    case InsufficientDepth => Refused(size, side, Error.InsufficientDepth)
  }

  /** What a book quotes for a size: an error, with nothing else, for a size that is
      not positive or deeper than the book; else a clean price without gas, which is
      the fee applied to the average the walk pays, to half a unit of the 16th place. */
  lemma QuoteFromBook(levels: seq<Level>, size: real, side: Side, feeBps: nat)
    requires NonNegative(levels)
    ensures var quote := QuoteFrom(levels, size, side, feeBps);
            && quote.size == size && quote.side == side && quote.gas == 0
            && (size <= 0.0 ==> quote.err == Some(Error.InvalidSize) && quote.price == 0.0)
            && (size > 0.0 && size > Depth(levels) ==> quote.err == Some(Error.InsufficientDepth) && quote.price == 0.0)
            && (0.0 < size <= Depth(levels) ==> quote.err == None && exists take, average ::
                  && Allocation(levels, take, size) && BestFirst(levels, take)
                  && Abs(average - AllocationCost(levels, take) / size) <= 0.00000000000000005
                  && quote.price == ApplyTakerFee(average, side, feeBps))
  {
    hide ApplyTakerFee, BestFirst, AllocationCost, WalkOf;
    WalkPaysForWhatItTakes(levels, size);
    var walk := WalkOf(levels, size);
    if walk.Filled? {
      var take :| && Allocation(levels, take, size) && BestFirst(levels, take)
                  && walk.cost == AllocationCost(levels, take);
      assert Abs(walk.price - AllocationCost(levels, take) / size) <= 0.00000000000000005;
    }
  }

  predicate TooThin(levels: seq<Level>, size: real) {
    WalkOf(levels, size).InsufficientDepth?
  }

  method FillSide(out: array<Quote>, sizes: seq<real>, from: nat, levels: seq<Level>, side: Side, feeBps: nat)
    returns (next: nat)
    requires out.Length == |sizes| && from <= |sizes|
    modifies out
    ensures from <= next <= |sizes|
    ensures forall i :: from <= i < next ==>
              !TooThin(levels, sizes[i]) && out[i] == QuoteFrom(levels, sizes[i], side, feeBps)
    ensures next < |sizes| ==> TooThin(levels, sizes[next])
    ensures forall i :: 0 <= i < from || next <= i < |sizes| ==> out[i] == old(out[i])
  {
    for i := from to |sizes|
      invariant forall j :: from <= j < i ==>
                  !TooThin(levels, sizes[j]) && out[j] == QuoteFrom(levels, sizes[j], side, feeBps)
      invariant forall j :: 0 <= j < from || i <= j < |sizes| ==> out[j] == old(out[j])
    {
      var walk := WalkOrderbook(levels, sizes[i]);
      match walk
      case Filled(price, _) =>
        out[i] := Quote(sizes[i], side, ApplyTakerFee(price, side, feeBps), 0, None);
      case InsufficientDepth =>
        return i;
      case InvalidSize =>
        out[i] := Refused(sizes[i], side, Error.InvalidSize);
    }
    return |sizes|;
  }

  method MarkInsufficient(out: array<Quote>, sizes: seq<real>, from: nat, side: Side)
    requires out.Length == |sizes| && from <= |sizes|
    modifies out
    ensures forall i :: from <= i < |sizes| ==> out[i] == Refused(sizes[i], side, Error.InsufficientDepth)
    ensures forall i :: 0 <= i < from ==> out[i] == old(out[i])
  {
    for i := from to |sizes|
      invariant forall j :: from <= j < i ==> out[j] == Refused(sizes[j], side, Error.InsufficientDepth)
      invariant forall j :: 0 <= j < from ==> out[j] == old(out[j])
    {
      out[i] := Refused(sizes[i], side, Error.InsufficientDepth);
    }
  }

  // ----- All sizes, all tiers

  type Fetch = int -> Depths

  function SideOf(depths: Depths, side: Side): seq<Level> {
    match depths
    case Books(bids, asks) => if side == Buy then asks else bids
    case FetchFailed(_) => []
  }

  /** One size considered by itself: the first tier that covers it decides. */
  function TieredQuote(fetch: Fetch, tiers: seq<int>, side: Side, size: real, feeBps: nat): Quote {
    if tiers == [] then Refused(size, side, Error.InsufficientDepth)
    else
      var levels := SideOf(fetch(tiers[0]), side);
      if TooThin(levels, size) then TieredQuote(fetch, tiers[1..], side, size, feeBps)
      else QuoteFrom(levels, size, side, feeBps)
  }

  /** Some tier of these is deep enough. */
  ghost predicate Resolved(fetch: Fetch, tiers: seq<int>, side: Side, size: real) {
    exists k :: 0 <= k < |tiers| && !TooThin(SideOf(fetch(tiers[k]), side), size)
  }

  /** The k-th tier decides if it is the first that is deep enough; if none is,
      the quote says so. */
  lemma {:induction false} FirstTierThatCovers(fetch: Fetch, tiers: seq<int>, side: Side, size: real, feeBps: nat,
                                               k: nat)
    requires k <= |tiers|
    requires forall j :: 0 <= j < k ==> TooThin(SideOf(fetch(tiers[j]), side), size)
    requires k < |tiers| ==> !TooThin(SideOf(fetch(tiers[k]), side), size)
    ensures var quote := TieredQuote(fetch, tiers, side, size, feeBps);
            && (k < |tiers| ==> quote == QuoteFrom(SideOf(fetch(tiers[k]), side), size, side, feeBps))
            && (quote.err == Some(Error.InsufficientDepth) <==> k == |tiers|)
  {
    if k > 0 {
      FirstTierThatCovers(fetch, tiers[1..], side, size, feeBps, k - 1);
    }
  }

  /** Every size is resolved on both sides. */
  ghost predicate Complete(fetch: Fetch, tiers: seq<int>, sizes: seq<real>) {
    forall i :: 0 <= i < |sizes| ==>
      Resolved(fetch, tiers, Buy, sizes[i]) && Resolved(fetch, tiers, Sell, sizes[i])
  }

  /** The tiers a call that starts at `initial` may fetch, in order. */
  function AtLeast(tiers: seq<int>, initial: int): seq<int> {
    if tiers == [] then []
    else if tiers[0] < initial then AtLeast(tiers[1..], initial)
    else [tiers[0]] + AtLeast(tiers[1..], initial)
  }

  /** The tiers a call may fetch. */
  function TiersFor(symbol: Symbol, sizes: seq<real>): seq<int> {
    AtLeast(TIERS, TierFor(MaxSize(sizes), symbol.density))
  }

  lemma {:induction false} AtLeastMembers(tiers: seq<int>, initial: int)
    ensures forall tier :: tier in AtLeast(tiers, initial) <==> tier in tiers && tier >= initial
  {
    if tiers != [] {
      AtLeastMembers(tiers[1..], initial);
      assert tiers == [tiers[0]] + tiers[1..];
    }
  }

  ghost predicate Increasing(tiers: seq<int>) {
    forall i, j :: 0 <= i < j < |tiers| ==> tiers[i] < tiers[j]
  }

  lemma IncreasingFrom(first: int, later: seq<int>)
    requires Increasing(later) && forall tier :: tier in later ==> first < tier
    ensures Increasing([first] + later)
  {
    var all := [first] + later;
    forall i, j | 0 <= i < j < |all|
      ensures all[i] < all[j]
    {
      assert all[j] == later[j - 1] && later[j - 1] in later;
      assert i > 0 ==> all[i] == later[i - 1];
    }
  }

  lemma {:induction false} AtLeastIncreases(tiers: seq<int>, initial: int)
    requires Increasing(tiers)
    ensures Increasing(AtLeast(tiers, initial))
  {
    if tiers != [] {
      var rest := tiers[1..];
      assert Increasing(rest) && forall tier :: tier in rest ==> tiers[0] < tier;
      AtLeastIncreases(rest, initial);
      AtLeastMembers(rest, initial);
      hide Increasing;
      IncreasingFrom(tiers[0], AtLeast(rest, initial));
    }
  }

  /** A call may fetch the tiers of 100, 500 and 1000 levels from the picked one up,
      in ascending order. */
  lemma TiersFromThePickedOne(symbol: Symbol, sizes: seq<real>)
    ensures var tiers := TiersFor(symbol, sizes);
            && Increasing(tiers)
            && (forall tier :: tier in tiers <==>
                  (tier == 100 || tier == 500 || tier == 1000) && tier >= TierFor(MaxSize(sizes), symbol.density))
  {
    AtLeastMembers(TIERS, TierFor(MaxSize(sizes), symbol.density));
    AtLeastIncreases(TIERS, TierFor(MaxSize(sizes), symbol.density));
  }

  /** Without a size or an estimate the smallest tier is picked. */
  lemma NothingToEstimate(max: real, density: real)
    requires max == 0.0 || (max > 0.0 && density <= 0.0)
    ensures forall tier :: tier in TIERS ==> TierFor(max, density) <= tier
    ensures TierFor(max, density) in TIERS
  {
  }

  ghost predicate SizesAscend(sizes: seq<real>) {
    forall i, j :: 0 <= i < j < |sizes| ==> sizes[i] <= sizes[j]
  }

  ghost predicate SoundBooks(fetch: Fetch) {
    forall tier :: fetch(tier).Books? ==> NonNegative(fetch(tier).bids) && NonNegative(fetch(tier).asks)
  }

  /** The levels a size is filled from: a buyer takes asks, a seller hits bids. */
  function Opposite(depths: Depths, side: Side): seq<Level>
    requires depths.Books?
  {
    if side == Buy then depths.asks else depths.bids
  }

  /** The slot of a size is filled from the first of the books deep enough for it, and
      refused if none is. */
  lemma SlotFromBooks(fetch: Fetch, tiers: seq<int>, side: Side, size: real, feeBps: nat, k: nat)
    requires SoundBooks(fetch) && size > 0.0 && k <= |tiers|
    requires forall j :: 0 <= j < |tiers| ==> fetch(tiers[j]).Books?
    requires forall j :: 0 <= j < k ==> Depth(Opposite(fetch(tiers[j]), side)) < size
    requires k < |tiers| ==> Depth(Opposite(fetch(tiers[k]), side)) >= size
    ensures var quote := TieredQuote(fetch, tiers, side, size, feeBps);
            && (k == |tiers| ==> quote.err == Some(Error.InsufficientDepth))
            && (k < |tiers| ==> quote.err == None && quote.gas == 0 && exists take, average ::
                  var levels := Opposite(fetch(tiers[k]), side);
                  && Allocation(levels, take, size) && BestFirst(levels, take)
                  && Abs(average - AllocationCost(levels, take) / size) <= 0.00000000000000005
                  && quote.price == ApplyTakerFee(average, side, feeBps))
  {
    forall j | 0 <= j < |tiers|
      ensures SideOf(fetch(tiers[j]), side) == Opposite(fetch(tiers[j]), side)
      ensures NonNegative(Opposite(fetch(tiers[j]), side))
      ensures TooThin(SideOf(fetch(tiers[j]), side), size) <==> Depth(Opposite(fetch(tiers[j]), side)) < size
    {
      SoundSides(fetch, tiers[j]);
      assert fetch(tiers[j]).Books?;
      CoveredIffDeepEnough(SideOf(fetch(tiers[j]), side), size);
    }
    hide ApplyTakerFee, BestFirst, AllocationCost, Depth, QuoteFrom, TieredQuote, TooThin, SideOf, Opposite;
    FirstTierThatCovers(fetch, tiers, side, size, feeBps, k);
    if k < |tiers| {
      assert NonNegative(Opposite(fetch(tiers[k]), side));
      QuoteFromBook(Opposite(fetch(tiers[k]), side), size, side, feeBps);
    }
  }

  lemma {:induction false} TieredAppend(fetch: Fetch, tiers: seq<int>, more: seq<int>, side: Side, size: real,
                                        feeBps: nat)
    ensures TieredQuote(fetch, tiers + more, side, size, feeBps) ==
            if Resolved(fetch, tiers, side, size) then TieredQuote(fetch, tiers, side, size, feeBps)
            else TieredQuote(fetch, more, side, size, feeBps)
  {
    if tiers == [] {
      assert tiers + more == more;
    } else {
      assert (tiers + more)[1..] == tiers[1..] + more;
      if TooThin(SideOf(fetch(tiers[0]), side), size) {
        TieredAppend(fetch, tiers[1..], more, side, size, feeBps);
        ResolvedLater(fetch, tiers, side, size);
      } else {
        assert Resolved(fetch, tiers, side, size);
      }
    }
  }

  lemma ResolvedLater(fetch: Fetch, tiers: seq<int>, side: Side, size: real)
    requires tiers != [] && TooThin(SideOf(fetch(tiers[0]), side), size)
    ensures Resolved(fetch, tiers, side, size) <==> Resolved(fetch, tiers[1..], side, size)
  {
    if Resolved(fetch, tiers, side, size) {
      var k :| 0 <= k < |tiers| && !TooThin(SideOf(fetch(tiers[k]), side), size);
      assert tiers[1..][k - 1] == tiers[k];
    }
  }

  lemma ResolvedAppend(fetch: Fetch, tiers: seq<int>, tier: int, side: Side, size: real)
    ensures Resolved(fetch, tiers + [tier], side, size) <==>
            Resolved(fetch, tiers, side, size) || !TooThin(SideOf(fetch(tier), side), size)
  {
    var all := tiers + [tier];
    assert all[|tiers|] == tier;
    assert forall k :: 0 <= k < |tiers| ==> all[k] == tiers[k];
  }

  /** A book too thin for a size is too thin for every larger one. */
  lemma ThinnessIsMonotone(levels: seq<Level>, small: real, large: real)
    requires NonNegative(levels) && small <= large && TooThin(levels, small)
    ensures TooThin(levels, large)
  {
    CoveredIffDeepEnough(levels, small);
    CoveredIffDeepEnough(levels, large);
  }

  /** `cursor` splits the sizes of one side into those filled and those pending. */
  ghost predicate Cursor(fetch: Fetch, tiers: seq<int>, side: Side, sizes: seq<real>, feeBps: nat,
                         filled: seq<Quote>, cursor: nat)
  {
    && |filled| == |sizes| && cursor <= |sizes|
    && (forall i :: 0 <= i < cursor ==>
          && Resolved(fetch, tiers, side, sizes[i])
          && filled[i] == TieredQuote(fetch, tiers, side, sizes[i], feeBps))
    && (forall i :: cursor <= i < |sizes| ==> !Resolved(fetch, tiers, side, sizes[i]))
  }

  lemma CursorAdvances(fetch: Fetch, tiers: seq<int>, tier: int, side: Side, sizes: seq<real>, feeBps: nat,
                       before: seq<Quote>, after: seq<Quote>, from: nat, next: nat)
    requires SizesAscend(sizes)
    requires Cursor(fetch, tiers, side, sizes, feeBps, before, from)
    requires NonNegative(SideOf(fetch(tier), side))
    requires |after| == |sizes| && from <= next <= |sizes|
    requires forall i :: 0 <= i < from ==> after[i] == before[i]
    requires forall i :: from <= i < next ==>
               && !TooThin(SideOf(fetch(tier), side), sizes[i])
               && after[i] == QuoteFrom(SideOf(fetch(tier), side), sizes[i], side, feeBps)
    requires next < |sizes| ==> TooThin(SideOf(fetch(tier), side), sizes[next])
    ensures Cursor(fetch, tiers + [tier], side, sizes, feeBps, after, next)
  {
    forall i | 0 <= i < |sizes|
      ensures i < next ==>
                && Resolved(fetch, tiers + [tier], side, sizes[i])
                && after[i] == TieredQuote(fetch, tiers + [tier], side, sizes[i], feeBps)
      ensures i >= next ==> !Resolved(fetch, tiers + [tier], side, sizes[i])
    {
      ResolvedAppend(fetch, tiers, tier, side, sizes[i]);
      TieredAppend(fetch, tiers, [tier], side, sizes[i], feeBps);
      if next <= i {
        ThinnessIsMonotone(SideOf(fetch(tier), side), sizes[next], sizes[i]);
      }
    }
  }

  /** Both cursors are at the end exactly when nothing is left to resolve. */
  lemma CursorsTellCompleteness(fetch: Fetch, tiers: seq<int>, sizes: seq<real>, feeBps: nat,
                                buy: seq<Quote>, buyFrom: nat, sell: seq<Quote>, sellFrom: nat)
    requires Cursor(fetch, tiers, Buy, sizes, feeBps, buy, buyFrom)
    requires Cursor(fetch, tiers, Sell, sizes, feeBps, sell, sellFrom)
    ensures Complete(fetch, tiers, sizes) <==> buyFrom == |sizes| && sellFrom == |sizes|
  {
    assert buyFrom < |sizes| ==> !Resolved(fetch, tiers, Buy, sizes[buyFrom]);
    assert sellFrom < |sizes| ==> !Resolved(fetch, tiers, Sell, sizes[sellFrom]);
  }

  /** `quotes` are what each size deserves when it is considered by itself. */
  ghost predicate EachByItself(fetch: Fetch, tiers: seq<int>, side: Side, sizes: seq<real>, feeBps: nat,
                               quotes: seq<Quote>)
  {
    && |quotes| == |sizes|
    && forall i :: 0 <= i < |sizes| ==> quotes[i] == TieredQuote(fetch, tiers, side, sizes[i], feeBps)
  }

  lemma CursorEnds(fetch: Fetch, fetched: seq<int>, rest: seq<int>, side: Side, sizes: seq<real>, feeBps: nat,
                   before: seq<Quote>, after: seq<Quote>, cursor: nat)
    requires Cursor(fetch, fetched, side, sizes, feeBps, before, cursor)
    requires rest == [] || cursor == |sizes|
    requires |after| == |sizes|
    requires forall i :: 0 <= i < cursor ==> after[i] == before[i]
    requires forall i :: cursor <= i < |sizes| ==> after[i] == Refused(sizes[i], side, Error.InsufficientDepth)
    ensures EachByItself(fetch, fetched + rest, side, sizes, feeBps, after)
  {
    forall i | 0 <= i < |sizes|
      ensures after[i] == TieredQuote(fetch, fetched + rest, side, sizes[i], feeBps)
    {
      TieredAppend(fetch, fetched, rest, side, sizes[i], feeBps);
    }
  }

  lemma {:induction false} QuoteKeepsSizeAndSide(fetch: Fetch, tiers: seq<int>, side: Side, size: real, feeBps: nat)
    ensures TieredQuote(fetch, tiers, side, size, feeBps).size == size
    ensures TieredQuote(fetch, tiers, side, size, feeBps).side == side
  {
    if tiers != [] && TooThin(SideOf(fetch(tiers[0]), side), size) {
      QuoteKeepsSizeAndSide(fetch, tiers[1..], side, size, feeBps);
    }
  }

  lemma ByItselfIsAligned(fetch: Fetch, tiers: seq<int>, sizes: seq<real>, feeBps: nat, quotes: Quotes)
    requires EachByItself(fetch, tiers, Buy, sizes, feeBps, quotes.buy)
    requires EachByItself(fetch, tiers, Sell, sizes, feeBps, quotes.sell)
    ensures quotes.AlignedTo(sizes) && quotes.Indexable()
  {
    forall i | 0 <= i < |sizes|
      ensures quotes.buy[i].size == quotes.sell[i].size == sizes[i]
      ensures quotes.buy[i].side == Buy && quotes.sell[i].side == Sell
    {
      QuoteKeepsSizeAndSide(fetch, tiers, Buy, sizes[i], feeBps);
      QuoteKeepsSizeAndSide(fetch, tiers, Sell, sizes[i], feeBps);
    }
  }

  /** The tiers that were fetched, one by one: each while something was still
      unresolved, all answered but possibly the last. */
  ghost predicate FetchedAsNeeded(fetch: Fetch, tiers: seq<int>, sizes: seq<real>, fetched: seq<int>) {
    && fetched <= tiers
    && (forall k :: 0 <= k < |fetched| ==> !Complete(fetch, fetched[..k], sizes))
    && (forall k :: 0 <= k < |fetched| - 1 ==> fetch(fetched[k]).Books?)
  }

  lemma FetchOneMore(fetch: Fetch, tiers: seq<int>, sizes: seq<real>, fetched: seq<int>, tier: int)
    requires FetchedAsNeeded(fetch, tiers, sizes, fetched)
    requires fetched != [] ==> fetch(fetched[|fetched| - 1]).Books?
    requires !Complete(fetch, fetched, sizes)
    requires fetched + [tier] <= tiers
    ensures FetchedAsNeeded(fetch, tiers, sizes, fetched + [tier])
  {
    forall k | 0 <= k < |fetched + [tier]|
      ensures !Complete(fetch, (fetched + [tier])[..k], sizes)
    {
      assert (fetched + [tier])[..k] == fetched[..k];
      assert fetched[..|fetched|] == fetched;
    }
  }

  /** FillSide seen from the tier loop: it moves the cursor over one more tier. */
  method FillPending(fetch: Fetch, ghost tiers: seq<int>, tier: int, side: Side, sizes: seq<real>, feeBps: nat,
                     out: array<Quote>, from: nat)
    returns (next: nat)
    requires SizesAscend(sizes) && NonNegative(SideOf(fetch(tier), side))
    requires Cursor(fetch, tiers, side, sizes, feeBps, out[..], from)
    modifies out
    ensures Cursor(fetch, tiers + [tier], side, sizes, feeBps, out[..], next)
  {
    ghost var before := out[..];
    next := FillSide(out, sizes, from, SideOf(fetch(tier), side), side, feeBps);
    CursorAdvances(fetch, tiers, tier, side, sizes, feeBps, before, out[..], from, next);
  }

  /** MarkInsufficient seen from the tier loop: it settles what is pending. */
  method SettlePending(ghost fetch: Fetch, ghost tiers: seq<int>, ghost rest: seq<int>, side: Side, sizes: seq<real>,
                       ghost feeBps: nat, out: array<Quote>, from: nat)
    requires Cursor(fetch, tiers, side, sizes, feeBps, out[..], from)
    requires rest == [] || from == |sizes|
    modifies out
    ensures EachByItself(fetch, tiers + rest, side, sizes, feeBps, out[..])
  {
    ghost var before := out[..];
    MarkInsufficient(out, sizes, from, side);
    CursorEnds(fetch, tiers, rest, side, sizes, feeBps, before, out[..], from);
  }

  /** Every slot gets the quote of the first tier that covers it, and no tier is
      fetched that an earlier one made superfluous. */
  method EffectivePrices(fetch: Fetch, symbol: Symbol, sizes: seq<real>)
    returns (result: Result<Quotes>, fetched: seq<int>)
    requires SizesAscend(sizes) && SoundBooks(fetch)
    ensures FetchedAsNeeded(fetch, TiersFor(symbol, sizes), sizes, fetched)
    ensures result.Success? ==>
              && (fetched == TiersFor(symbol, sizes) || Complete(fetch, fetched, sizes))
              && (fetched != [] ==> fetch(fetched[|fetched| - 1]).Books?)
              && EachByItself(fetch, TiersFor(symbol, sizes), Buy, sizes, symbol.takerFeeBps, result.value.buy)
              && EachByItself(fetch, TiersFor(symbol, sizes), Sell, sizes, symbol.takerFeeBps, result.value.sell)
              && result.value.AlignedTo(sizes)
    ensures result.Failure? ==> fetched != [] && fetch(fetched[|fetched| - 1]) == FetchFailed(result.error)
  {
    hide *;
    var fee := symbol.takerFeeBps;
    var buy := new Quote[|sizes|](_ => ZERO_QUOTE);
    var sell := new Quote[|sizes|](_ => ZERO_QUOTE);
    var buyFrom, sellFrom := 0, 0;
    fetched := [];

    var initialLimit := PickDepthLimit(symbol, sizes);
    PossibleTiers(symbol, sizes);
    NothingFetched(fetch, initialLimit, sizes, fee, buy[..], sell[..]);
    var t := 0;
    while t < |TIERS|
      invariant TierLoop(fetch, initialLimit, sizes, t, fetched)
      invariant Cursor(fetch, fetched, Buy, sizes, fee, buy[..], buyFrom)
      invariant Cursor(fetch, fetched, Sell, sizes, fee, sell[..], sellFrom)
    {
      CursorsTellCompleteness(fetch, fetched, sizes, fee, buy[..], buyFrom, sell[..], sellFrom);
      NextTier(fetch, initialLimit, sizes, t, fetched);
      var limit := TIERS[t];
      if limit >= initialLimit {
        if buyFrom == |sizes| && sellFrom == |sizes| {
          break;
        }
        var depths := fetch(limit);
        ghost var done := fetched;
        fetched := fetched + [limit];
        if depths.FetchFailed? {
          return Failure(depths.error), fetched;
        }
        SoundSides(fetch, limit);
        buyFrom := FillPending(fetch, done, limit, Buy, sizes, fee, buy, buyFrom);
        sellFrom := FillPending(fetch, done, limit, Sell, sizes, fee, sell, sellFrom);
      }
      t := t + 1;
    }
    CursorsTellCompleteness(fetch, fetched, sizes, fee, buy[..], buyFrom, sell[..], sellFrom);
    ghost var rest := TierLoopEnds(fetch, initialLimit, sizes, t, fetched);
    SettlePending(fetch, fetched, rest, Buy, sizes, fee, buy, buyFrom);
    SettlePending(fetch, fetched, rest, Sell, sizes, fee, sell, sellFrom);
    var quotes := Quotes(buy[..], sell[..]);
    ByItselfIsAligned(fetch, AtLeast(TIERS, initialLimit), sizes, fee, quotes);
    return Success(quotes), fetched;
  }

  lemma PossibleTiers(symbol: Symbol, sizes: seq<real>)
    ensures TiersFor(symbol, sizes) == AtLeast(TIERS, TierFor(MaxSize(sizes), symbol.density))
  {
  }

  /** What the tier loop keeps about the tiers fetched before its t-th turn. */
  ghost predicate TierLoop(fetch: Fetch, initial: int, sizes: seq<real>, t: int, fetched: seq<int>) {
    && 0 <= t <= |TIERS|
    && FetchedAsNeeded(fetch, AtLeast(TIERS, initial), sizes, fetched)
    && (fetched != [] ==> fetch(fetched[|fetched| - 1]).Books?)
    && fetched + AtLeast(TIERS[t..], initial) == AtLeast(TIERS, initial)
  }

  lemma NothingFetched(fetch: Fetch, initial: int, sizes: seq<real>, feeBps: nat, buy: seq<Quote>, sell: seq<Quote>)
    requires |buy| == |sell| == |sizes|
    ensures Cursor(fetch, [], Buy, sizes, feeBps, buy, 0)
    ensures Cursor(fetch, [], Sell, sizes, feeBps, sell, 0)
    ensures TierLoop(fetch, initial, sizes, 0, [])
  {
    assert TIERS[0..] == TIERS;
  }

  lemma NextTier(fetch: Fetch, initial: int, sizes: seq<real>, t: int, fetched: seq<int>)
    requires TierLoop(fetch, initial, sizes, t, fetched) && t < |TIERS|
    ensures 0 <= t
    ensures TIERS[t] < initial ==> TierLoop(fetch, initial, sizes, t + 1, fetched)
    ensures TIERS[t] >= initial && !Complete(fetch, fetched, sizes) ==>
              && FetchedAsNeeded(fetch, AtLeast(TIERS, initial), sizes, fetched + [TIERS[t]])
              && (fetch(TIERS[t]).Books? ==> TierLoop(fetch, initial, sizes, t + 1, fetched + [TIERS[t]]))
  {
    hide Complete;
    assert TIERS[t..][1..] == TIERS[t + 1..];
    var later := AtLeast(TIERS[t + 1..], initial);
    if TIERS[t] >= initial && !Complete(fetch, fetched, sizes) {
      assert fetched + ([TIERS[t]] + later) == fetched + [TIERS[t]] + later;
      FetchOneMore(fetch, AtLeast(TIERS, initial), sizes, fetched, TIERS[t]);
    }
  }

  lemma TierLoopEnds(fetch: Fetch, initial: int, sizes: seq<real>, t: int, fetched: seq<int>) returns (rest: seq<int>)
    requires TierLoop(fetch, initial, sizes, t, fetched)
    ensures fetched + rest == AtLeast(TIERS, initial)
    ensures t >= |TIERS| ==> rest == [] && fetched == AtLeast(TIERS, initial)
    ensures FetchedAsNeeded(fetch, AtLeast(TIERS, initial), sizes, fetched)
    ensures fetched != [] ==> fetch(fetched[|fetched| - 1]).Books?
  {
    rest := AtLeast(TIERS[t..], initial);
  }

  lemma SoundSides(fetch: Fetch, tier: int)
    requires SoundBooks(fetch)
    ensures forall side :: NonNegative(SideOf(fetch(tier), side))
  {
    assert fetch(tier).Books? ==> NonNegative(fetch(tier).bids) && NonNegative(fetch(tier).asks);
  }
}
