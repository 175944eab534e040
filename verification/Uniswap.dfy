/** Effective prices from simulated pool swaps (internal/dex/uniswapv3). */
module Uniswap {
  import opened Decimals
  import opened Pricing

  // ----- Raw token amounts (decimals.go)

  function ToRaw(amount: real, decimals: nat): int {
    Trunc(ShiftUp(amount, decimals))
  }

  function FromRaw(raw: int, decimals: nat): real {
    ShiftDown(raw as real, decimals)
  }

  lemma RawRoundTrip(raw: int, decimals: nat)
    ensures ToRaw(FromRaw(raw, decimals), decimals) == raw
  {
    ShiftInverse(raw as real, decimals);
  }

  predicate IsWhole(x: real) {
    x.Floor as real == x
  }

  /** Converting an amount to raw units and back loses less than one unit, and
      nothing exactly when the amount is a whole number of units. */
  lemma AmountRoundTrip(amount: real, decimals: nat)
    requires amount >= 0.0
    ensures var back := FromRaw(ToRaw(amount, decimals), decimals);
            && back <= amount < back + ShiftDown(1.0, decimals)
            && (back == amount <==> IsWhole(ShiftUp(amount, decimals)))
  {
    hide ShiftUp, ShiftDown;
    var back, unit := FromRaw(ToRaw(amount, decimals), decimals), ShiftDown(1.0, decimals);
    ShiftSum(0.0, 0.0, decimals);
    ShiftOrder(amount, 0.0, decimals);
    ShiftInverse(ToRaw(amount, decimals) as real, decimals);
    ShiftInverse(1.0, decimals);
    ShiftSum(back, unit, decimals);
    ShiftOrder(amount, back, decimals);
    ShiftOrder(back, amount, decimals);
    ShiftOrder(amount, back + unit, decimals);
  }

  /** Negative amounts are truncated towards zero too. */
  lemma NegativeAmounts(amount: real, decimals: nat)
    ensures ToRaw(-amount, decimals) == -ToRaw(amount, decimals)
  {
    hide ShiftUp;
    ShiftSum(amount, 0.0, decimals);
  }

  // ----- Quotes (client.go)

  datatype Token = Token(address: nat, decimals: nat)

  datatype Pool = Pool(base: Token, quote: Token, fee: nat)

  /** The two simulated swaps; neither limits the price. */
  datatype Request =
    | ExactInput(tokenIn: nat, tokenOut: nat, amountIn: int, fee: nat)
    | ExactOutput(tokenIn: nat, tokenOut: nat, amountOut: int, fee: nat)

  datatype AbiValue = BigInt(value: int) | OtherType

  /** The two outputs the adapter looks at, or why there are none. */
  datatype CallResult = Outputs(primary: AbiValue, gas: AbiValue) | CallError(error: Error)

  function RequestFor(pool: Pool, side: Side, size: real): Request {
    if side == Sell then
      ExactInput(pool.base.address, pool.quote.address, ToRaw(size, pool.base.decimals), pool.fee)
    else
      ExactOutput(pool.quote.address, pool.base.address, ToRaw(size, pool.base.decimals), pool.fee)
  }

  function BaseAmount(request: Request): int {
    match request
    case ExactInput(_, _, amountIn, _) => amountIn
    case ExactOutput(_, _, amountOut, _) => amountOut
  }

  /** A sell gives base and a buy takes base; either moves the size up to what is
      less than one raw unit of the base token. */
  lemma RequestMovesTheSize(pool: Pool, side: Side, size: real)
    requires size >= 0.0
    ensures var request := RequestFor(pool, side, size);
            && (side == Sell ==> request.ExactInput?
                                 && request.tokenIn == pool.base.address && request.tokenOut == pool.quote.address)
            && (side == Buy ==> request.ExactOutput?
                                && request.tokenIn == pool.quote.address && request.tokenOut == pool.base.address)
            && request.fee == pool.fee
            && var moved := FromRaw(BaseAmount(request), pool.base.decimals);
               moved <= size < moved + ShiftDown(1.0, pool.base.decimals)
  {
    AmountRoundTrip(size, pool.base.decimals);
  }

  function QuoteFor(called: CallResult, side: Side, size: real, quoteDecimals: nat): Quote
    requires size != 0.0
  {
    match called
    case CallError(error) => Refused(size, side, error)
    case Outputs(primary, gas) =>
      if primary.OtherType? || gas.OtherType? then Refused(size, side, UnexpectedOutput)
      else if !(0 <= gas.value < UINT64_RANGE) then Refused(size, side, GasOverflow(gas.value))
      else Quote(size, side, Div(FromRaw(primary.value, quoteDecimals), size), gas.value, None)
  }

  /** The quote an answer deserves, in terms of the answer: its error; or, for two
      integers with gas of 64 bits, that gas and a price which times the size is the
      amount in whole tokens, up to half a unit of the 16th place of the price. */
  ghost predicate Deserves(called: CallResult, size: real, decimals: nat, quote: Quote) {
    && quote.size == size
    && (quote.err.Some? ==> quote.price == 0.0 && quote.gas == 0)
    && match called
       case CallError(error) => quote.err == Some(error)
       case Outputs(primary, gas) =>
         if primary.OtherType? || gas.OtherType? then quote.err == Some(UnexpectedOutput)
         else if gas.value < 0 || gas.value >= 0x1_0000_0000_0000_0000 then quote.err == Some(GasOverflow(gas.value))
         else
           && quote.err == None && quote.gas == gas.value
           && (size > 0.0 ==>
                 Abs(quote.price * size - primary.value as real / Pow10(decimals)) <= size * 0.00000000000000005)
  }

  /** The goroutine that fills one slot. */
  datatype Task = Task(side: Side, index: nat)

  /** What the node answers each goroutine. */
  type Respond = (Task, Request) -> CallResult

  function SlotQuote(respond: Respond, pool: Pool, task: Task, size: real): Quote
    requires size != 0.0
  {
    QuoteFor(respond(task, RequestFor(pool, task.side, size)), task.side, size, pool.quote.decimals)
  }

  /** The goroutines finish in any order; each slot is written by its own. */
  method EffectivePrices(respond: Respond, pool: Pool, sizes: seq<real>) returns (quotes: Quotes)
    requires forall i :: 0 <= i < |sizes| ==> sizes[i] != 0.0
    ensures quotes.AlignedTo(sizes) && quotes.Indexable()
    ensures forall i :: 0 <= i < |sizes| ==>
              && quotes.buy[i] == SlotQuote(respond, pool, Task(Buy, i), sizes[i])
              && quotes.sell[i] == SlotQuote(respond, pool, Task(Sell, i), sizes[i])
    ensures forall i :: 0 <= i < |sizes| ==>
              && Deserves(respond(Task(Buy, i), BuyRequest(pool, sizes[i])), sizes[i],
                          pool.quote.decimals, quotes.buy[i])
              && Deserves(respond(Task(Sell, i), SellRequest(pool, sizes[i])), sizes[i],
                          pool.quote.decimals, quotes.sell[i])
  {
    hide *;
    var n := |sizes|;
    var buy := new Quote[n](_ => ZERO_QUOTE);
    var sell := new Quote[n](_ => ZERO_QUOTE);
    var running := (set i | 0 <= i < n :: Task(Buy, i)) + (set i | 0 <= i < n :: Task(Sell, i));
    while running != {}
      invariant forall task :: task in running ==> (task.side == Buy || task.side == Sell) && task.index < n
      invariant forall i :: 0 <= i < n && Task(Buy, i) !in running ==>
                  buy[i] == SlotQuote(respond, pool, Task(Buy, i), sizes[i])
      invariant forall i :: 0 <= i < n && Task(Sell, i) !in running ==>
                  sell[i] == SlotQuote(respond, pool, Task(Sell, i), sizes[i])
    {
      var task :| task in running;
      var quote := SlotQuote(respond, pool, task, sizes[task.index]);
      if task.side == Buy {
        buy[task.index] := quote;
      } else {
        sell[task.index] := quote;
      }
      running := running - {task};
    }
    quotes := Quotes(buy[..], sell[..]);
    SlotsAreAligned(respond, pool, sizes, quotes);
    SlotsAreDeserved(respond, pool, sizes, quotes);
  }

  /** A buy asks how much quote token buys exactly the size of base token, a sell how
      much quote token the size of base token brings; in the pool's tokens and fee. */
  function BuyRequest(pool: Pool, size: real): Request {
    ExactOutput(pool.quote.address, pool.base.address, ToRaw(size, pool.base.decimals), pool.fee)
  }

  function SellRequest(pool: Pool, size: real): Request {
    ExactInput(pool.base.address, pool.quote.address, ToRaw(size, pool.base.decimals), pool.fee)
  }

  lemma QuoteIsDeserved(called: CallResult, side: Side, size: real, decimals: nat)
    requires size != 0.0
    ensures Deserves(called, size, decimals, QuoteFor(called, side, size, decimals))
  {
    if size > 0.0 && QuoteFor(called, side, size, decimals).err.None? {
      hide Pow10, Div;
      RoundedTimesSize(FromRaw(called.primary.value, decimals), size);
    }
    hide Div, Pow10;
  }

  lemma SlotIsDeserved(respond: Respond, pool: Pool, i: nat, size: real)
    requires size != 0.0
    ensures Deserves(respond(Task(Buy, i), BuyRequest(pool, size)), size, pool.quote.decimals,
                     SlotQuote(respond, pool, Task(Buy, i), size))
    ensures Deserves(respond(Task(Sell, i), SellRequest(pool, size)), size, pool.quote.decimals,
                     SlotQuote(respond, pool, Task(Sell, i), size))
  {
    hide Deserves, QuoteFor, ToRaw;
    QuoteIsDeserved(respond(Task(Buy, i), BuyRequest(pool, size)), Buy, size, pool.quote.decimals);
    QuoteIsDeserved(respond(Task(Sell, i), SellRequest(pool, size)), Sell, size, pool.quote.decimals);
  }

  lemma SlotsAreDeserved(respond: Respond, pool: Pool, sizes: seq<real>, quotes: Quotes)
    requires forall i :: 0 <= i < |sizes| ==> sizes[i] != 0.0
    requires |quotes.buy| == |quotes.sell| == |sizes|
    requires forall i :: 0 <= i < |sizes| ==>
               && quotes.buy[i] == SlotQuote(respond, pool, Task(Buy, i), sizes[i])
               && quotes.sell[i] == SlotQuote(respond, pool, Task(Sell, i), sizes[i])
    ensures forall i :: 0 <= i < |sizes| ==>
              && Deserves(respond(Task(Buy, i), BuyRequest(pool, sizes[i])), sizes[i],
                          pool.quote.decimals, quotes.buy[i])
              && Deserves(respond(Task(Sell, i), SellRequest(pool, sizes[i])), sizes[i],
                          pool.quote.decimals, quotes.sell[i])
  {
    hide SlotQuote, Deserves, BuyRequest, SellRequest;
    forall i | 0 <= i < |sizes|
      ensures Deserves(respond(Task(Buy, i), BuyRequest(pool, sizes[i])), sizes[i],
                       pool.quote.decimals, quotes.buy[i])
      ensures Deserves(respond(Task(Sell, i), SellRequest(pool, sizes[i])), sizes[i],
                       pool.quote.decimals, quotes.sell[i])
    {
      SlotIsDeserved(respond, pool, i, sizes[i]);
    }
  }

  lemma SlotsAreAligned(respond: Respond, pool: Pool, sizes: seq<real>, quotes: Quotes)
    requires forall i :: 0 <= i < |sizes| ==> sizes[i] != 0.0
    requires |quotes.buy| == |quotes.sell| == |sizes|
    requires forall i :: 0 <= i < |sizes| ==>
               && quotes.buy[i] == SlotQuote(respond, pool, Task(Buy, i), sizes[i])
               && quotes.sell[i] == SlotQuote(respond, pool, Task(Sell, i), sizes[i])
    ensures quotes.AlignedTo(sizes) && quotes.Indexable()
  {
  }

  // ----- What the rounded price still tells

  /** x times half a rounding unit. */
  function HalfUlps(x: real): real {
    x * 0.00000000000000005
  }

  lemma ErrorTimesSize(error: real, size: real)
    requires Abs(error) <= ULP / 2.0 && size > 0.0
    ensures -HalfUlps(size) <= error * size <= HalfUlps(size)
  {
    AtMostHalfUlps(error, size);
    AtMostHalfUlps(-error, size);
  }

  lemma AtMostHalfUlps(error: real, size: real)
    requires error <= ULP / 2.0 && size > 0.0
    ensures error * size <= HalfUlps(size)
  {
    MulMonotone(error, 0.00000000000000005, size);
  }

  /** A slot has a price exactly when the call answered two integers and the gas
      fits; the price times the size is then the quoted amount, up to half a unit
      in the last place of the price. */
  lemma QuotedIffAnswered(called: CallResult, side: Side, size: real, decimals: nat)
    requires size > 0.0
    ensures var quote := QuoteFor(called, side, size, decimals);
            && quote.size == size && quote.side == side
            && (quote.err.None? <==> called.Outputs? && called.primary.BigInt? && called.gas.BigInt?
                                     && 0 <= called.gas.value < UINT64_RANGE)
            && (quote.err.None? ==>
                  && quote.gas == called.gas.value
                  && -HalfUlps(size) <= quote.price * size - FromRaw(called.primary.value, decimals) <= HalfUlps(size))
  {
    if QuoteFor(called, side, size, decimals).err.None? {
      RoundedTimesSize(FromRaw(called.primary.value, decimals), size);
    }
    hide HalfUlps, FromRaw, Div;
  }

  lemma RoundedTimesSize(amount: real, size: real)
    requires size > 0.0
    ensures -HalfUlps(size) <= Div(amount, size) * size - amount <= HalfUlps(size)
  {
    hide Div, HalfUlps;
    var exact := amount / size;
    DivIsNear(amount, size);
    QuotientTimesDivisor(amount, size);
    ErrorTimesSize(Div(amount, size) - exact, size);
    DistributeSize(Div(amount, size), exact, size);
  }

  lemma DivIsNear(amount: real, size: real)
    requires size != 0.0
    ensures Abs(Div(amount, size) - amount / size) <= ULP / 2.0
  {
    Round16Error(amount / size);
  }

  lemma DistributeSize(x: real, y: real, size: real)
    ensures (x - y) * size == x * size - y * size
  {
  }

  function Total(price: real, size: real): real {
    price * size
  }

  /** The price times the size, rounded to raw units. */
  function RawAmount(price: real, size: real, decimals: nat): int {
    RoundUnits(ShiftUp(Total(price, size), decimals))
  }

  function Recovered(raw: int, size: real, decimals: nat): int
    requires size > 0.0
  {
    RawAmount(Div(FromRaw(raw, decimals), size), size, decimals)
  }

  /** What one unit in the last place of the price is worth, in raw units. */
  function Grain(size: real, decimals: nat): real {
    ShiftUp(size, decimals) / SCALE
  }

  lemma ShiftPositive(size: real, decimals: nat)
    requires size > 0.0
    ensures ShiftUp(size, decimals) > 0.0
  {
    ShiftSum(0.0, 0.0, decimals);
    ShiftOrder(0.0, size, decimals);
  }

  function Scaled(k: int, grain: real): real {
    k as real * grain
  }

  /** k grains, rounded to raw units. */
  function Grains(k: int, grain: real): int {
    RoundUnits(Scaled(k, grain))
  }

  function NearestGrain(raw: int, grain: real): int
    requires grain > 0.0
  {
    RoundUnits(raw as real / grain)
  }

  lemma GrainsPerAmount(raw: real, power: real, size: real)
    requires power > 0.0 && size > 0.0 && size * power / SCALE > 0.0
    ensures raw / power / size * SCALE == raw / (size * power / SCALE)
  {
    var x := raw / power / size;
    assert x * size * power == raw;
    assert x * SCALE * (size * power / SCALE) == raw;
  }

  lemma GrainIsPositive(size: real, decimals: nat)
    requires size > 0.0
    ensures Grain(size, decimals) > 0.0
  {
    ShiftPositive(size, decimals);
    hide ShiftUp;
  }

  lemma QuotientInGrains(raw: int, size: real, decimals: nat)
    requires size > 0.0 && Grain(size, decimals) > 0.0
    ensures FromRaw(raw, decimals) / size * SCALE == raw as real / Grain(size, decimals)
  {
    hide Pow10;
    GrainsPerAmount(raw as real, Pow10(decimals), size);
  }

  lemma PriceInGrains(raw: int, size: real, decimals: nat)
    requires size > 0.0 && Grain(size, decimals) > 0.0
    ensures Div(FromRaw(raw, decimals), size) == NearestGrain(raw, Grain(size, decimals)) as real / SCALE
  {
    hide FromRaw, Grain, RoundUnits;
    QuotientInGrains(raw, size, decimals);
  }

  lemma TotalInGrains(price: real, k: int, size: real, decimals: nat)
    requires price == k as real / SCALE
    ensures ShiftUp(Total(price, size), decimals) == Scaled(k, Grain(size, decimals))
  {
    hide Pow10;
  }

  lemma BackInGrains(price: real, k: int, size: real, decimals: nat)
    requires price == k as real / SCALE
    ensures RawAmount(price, size, decimals) == Grains(k, Grain(size, decimals))
  {
    hide Total, Scaled, Grain, ShiftUp, RoundUnits;
    TotalInGrains(price, k, size, decimals);
  }

  /** The price is a whole number of grains, the nearest to the raw amount. */
  lemma RecoveredByGrain(raw: int, size: real, decimals: nat)
    requires size > 0.0
    ensures Grain(size, decimals) > 0.0
    ensures Recovered(raw, size, decimals) ==
            Grains(NearestGrain(raw, Grain(size, decimals)), Grain(size, decimals))
  {
    hide Grain, Grains, NearestGrain, RawAmount, FromRaw, Div;
    GrainIsPositive(size, decimals);
    PriceInGrains(raw, size, decimals);
    BackInGrains(Div(FromRaw(raw, decimals), size), NearestGrain(raw, Grain(size, decimals)), size, decimals);
  }

  lemma UnitGrain(raw: int)
    ensures Grains(NearestGrain(raw, 1.0), 1.0) == raw
  {
    assert raw as real / 1.0 == raw as real;
  }

  lemma NearestIsNear(raw: int, grain: real) returns (x: real)
    requires grain > 0.0
    ensures x * grain == raw as real && -0.5 <= NearestGrain(raw, grain) as real - x <= 0.5
  {
    x := raw as real / grain;
    QuotientTimesDivisor(raw as real, grain);
    RoundUnitsNearest(x, RoundUnits(x));
    hide RoundUnits;
  }

  /** Grains of at most one raw unit distinguish all raw amounts. */
  lemma FineGrains(raw: int, grain: real)
    requires 0.0 < grain <= 1.0
    ensures Grains(NearestGrain(raw, grain), grain) == raw
  {
    hide Grains, NearestGrain;
    if grain == 1.0 {
      UnitGrain(raw);
    } else {
      var x := NearestIsNear(raw, grain);
      NearInGrains(NearestGrain(raw, grain), x, raw, grain);
    }
  }

  lemma Shrunk(x: real, y: real, grain: real)
    requires x - y <= 0.5 && 0.0 < grain < 1.0
    ensures x * grain - y * grain < 0.5
  {
    MulMonotone(x - y, 0.5, grain);
    assert (x - y) * grain == x * grain - y * grain;
  }

  lemma ScaledNear(k: int, x: real, raw: int, grain: real)
    requires -0.5 <= k as real - x <= 0.5 && 0.0 < grain < 1.0 && x * grain == raw as real
    ensures -0.5 < Scaled(k, grain) - raw as real < 0.5
  {
    Shrunk(k as real, x, grain);
    Shrunk(x, k as real, grain);
  }

  lemma NearInGrains(k: int, x: real, raw: int, grain: real)
    requires -0.5 <= k as real - x <= 0.5 && 0.0 < grain < 1.0 && x * grain == raw as real
    ensures Grains(k, grain) == raw
  {
    hide Scaled, RoundUnits;
    ScaledNear(k, x, raw, grain);
    RoundUnitsNearest(Scaled(k, grain), raw);
  }

  lemma ScaledMonotone(k: int, n: int, grain: real)
    requires k <= n && grain > 0.0
    ensures Scaled(k, grain) <= Scaled(n, grain)
  {
    MulMonotone(k as real, n as real, grain);
  }

  lemma GrainsMonotone(k: int, n: int, grain: real)
    requires k <= n && grain > 0.0
    ensures Grains(k, grain) <= Grains(n, grain)
  {
    hide Scaled, RoundUnits;
    ScaledMonotone(k, n, grain);
    RoundUnitsMonotone(Scaled(k, grain), Scaled(n, grain));
  }

  /** Whole numbers of coarser grains skip the first raw amount they overtake. */
  lemma {:induction false} SkippedAmount(grain: real, n: nat) returns (raw: int)
    requires grain > 1.0 && Grains(n, grain) > n
    ensures forall k: int :: Grains(k, grain) != raw
  {
    assert n > 0;
    if Grains(n - 1, grain) > n - 1 {
      raw := SkippedAmount(grain, n - 1);
    } else {
      raw := n;
      hide Grains;
      forall k: int
        ensures Grains(k, grain) != n
      {
        if k >= n {
          GrainsMonotone(n, k, grain);
        } else {
          GrainsMonotone(k, n - 1, grain);
        }
      }
    }
  }

  lemma Overtaken(grain: real) returns (n: nat)
    requires grain > 1.0
    ensures Grains(n, grain) > n
  {
    var gain := grain - 1.0;
    n := (1.0 / gain).Floor + 1;
    QuotientTimesDivisor(1.0, gain);
    MulMonotone(1.0 / gain, n as real, gain);
    assert n as real * grain == n as real + n as real * gain;
    RoundUnitsMonotone((n + 1) as real, n as real * grain);
    assert RoundUnits((n + 1) as real) == n + 1;
  }

  lemma GrainAtMostOne(size: real, decimals: nat)
    ensures Grain(size, decimals) <= 1.0 <==> ShiftUp(size, decimals) <= SCALE
  {
    hide ShiftUp;
  }

  /** Multiplying the price by the size gives the quoted raw amount back. */
  lemma RawAmountRecovered(raw: int, size: real, decimals: nat)
    requires size > 0.0 && ShiftUp(size, decimals) <= SCALE
    ensures Recovered(raw, size, decimals) == raw
  {
    RecoveredByGrain(raw, size, decimals);
    GrainAtMostOne(size, decimals);
    hide *;
    FineGrains(raw, Grain(size, decimals));
  }

  /** Beyond that size some raw amount is lost. */
  lemma RawAmountLost(size: real, decimals: nat) returns (raw: int)
    requires size > 0.0 && ShiftUp(size, decimals) > SCALE
    ensures Recovered(raw, size, decimals) != raw
  {
    GrainAtMostOne(size, decimals);
    hide Recovered, Grain, Grains, NearestGrain, ShiftUp;
    var n := Overtaken(Grain(size, decimals));
    raw := SkippedAmount(Grain(size, decimals), n);
    RecoveredByGrain(raw, size, decimals);
  }

  /** All raw amounts are recovered exactly up to ten to the power of 16, less the
      token's decimals. */
  lemma RawAmountsRecoveredIff(size: real, decimals: nat)
    requires size > 0.0
    ensures (forall raw :: Recovered(raw, size, decimals) == raw) <==> ShiftUp(size, decimals) <= SCALE
    ensures decimals <= 16 ==> (ShiftUp(size, decimals) <= SCALE <==> size <= Pow10(16 - decimals))
  {
    if ShiftUp(size, decimals) <= SCALE {
      forall raw
        ensures Recovered(raw, size, decimals) == raw
      {
        RawAmountRecovered(raw, size, decimals);
      }
    } else {
      var raw := RawAmountLost(size, decimals);
    }
    hide *;
    if decimals <= 16 {
      LargestSize(size, decimals);
    }
  }

  lemma LargestSize(size: real, decimals: nat)
    requires decimals <= 16
    ensures ShiftUp(size, decimals) <= SCALE <==> size <= Pow10(16 - decimals)
  {
    hide Pow10;
    Pow10Sum(16 - decimals, decimals);
    Pow10Of16();
    ShiftOrder(Pow10(16 - decimals), size, decimals);
  }
}
