/** The cost model (internal/arbitrage/evaluator.go). */
module Arbitrage {
  import opened Decimals
  import opened Pricing
  import opened Messages

  datatype Opportunity = Opportunity(
    path: CandidatePath,
    spreadPerUnit: real,
    grossProfit: real,
    gasCost: real,
    netProfit: real,
    netProfitPct: real,
    capital: real)

  const WEI_PER_ETH: real := 1000000000000000000.0

  function GasETH(gas: Uint64, baseFee: Option<nat>): real {
    if baseFee.None? || gas == 0 then 0.0
    else (gas * baseFee.value) as real / WEI_PER_ETH
  }

  function GasCost(gas: Uint64, baseFee: Option<nat>, ethPrice: real): real {
    if baseFee.None? || gas == 0 then 0.0
    else GasETH(gas, baseFee) * ethPrice
  }

  function Evaluate(path: CandidatePath): Opportunity {
    var spread := path.sellPrice - path.buyPrice;
    var gross := spread * path.size;
    var capital := path.buyPrice * path.size;
    var gasCost := GasCost(path.gas, path.block.baseFee, path.buyPrice);
    var net := gross - gasCost;
    var pct := if capital > 0.0 then Div(net, capital) * 100.0 else 0.0;
    Opportunity(path, spread, gross, gasCost, net, pct, capital)
  }

  predicate IsProfitable(op: Opportunity, minNetProfit: real) {
    op.netProfit > minNetProfit
  }

  /** The gas bill is the number of gas units times the base fee in wei, at the buy
      price per ether; nothing without a base fee. */
  lemma GasIsBilledInWei(path: CandidatePath)
    ensures Evaluate(path).gasCost * 1000000000000000000.0 ==
            if path.block.baseFee.Some? then (path.gas * path.block.baseFee.value) as real * path.buyPrice else 0.0
  {
    if path.block.baseFee.Some? && path.gas != 0 {
      var wei := (path.gas * path.block.baseFee.value) as real;
      QuotientTimesDivisor(wei, WEI_PER_ETH);
      Reordered(wei / WEI_PER_ETH, path.buyPrice, WEI_PER_ETH);
    }
  }

  lemma Reordered(x: real, y: real, z: real)
    ensures x * y * z == x * z * y
  {
  }

  // ----- Against exact arithmetic

  /** The net profit at given unit prices, without any rounding. */
  function ExactNet(buy: real, sell: real, size: real, gasETH: real): real {
    (sell - buy) * size - gasETH * buy
  }

  /** How far rounded unit prices can move the net profit. */
  function Band(size: real, gasETH: real): real {
    (2.0 * size + gasETH) * ULP
  }

  lemma EvaluatesExactly(path: CandidatePath)
    ensures Evaluate(path).netProfit ==
            ExactNet(path.buyPrice, path.sellPrice, path.size, GasETH(path.gas, path.block.baseFee))
    ensures GasETH(path.gas, path.block.baseFee) >= 0.0
  {
    if path.block.baseFee.Some? {
      assert path.gas * path.block.baseFee.value >= 0;
    }
  }

  lemma ErrorScaled(error: real, factor: real)
    requires Abs(error) <= ULP && factor >= 0.0
    ensures Abs(error * factor) <= ULP * factor
  {
    AtMostScaled(error, factor);
    AtMostScaled(-error, factor);
  }

  lemma AtMostScaled(error: real, factor: real)
    requires error <= ULP && factor >= 0.0
    ensures error * factor <= ULP * factor
  {
    MulMonotone(error, ULP, factor);
  }

  lemma NetIsLipschitz(buy: real, sell: real, buy': real, sell': real, size: real, gasETH: real)
    requires Abs(buy - buy') <= ULP && Abs(sell - sell') <= ULP
    requires size >= 0.0 && gasETH >= 0.0
    ensures Abs(ExactNet(buy, sell, size, gasETH) - ExactNet(buy', sell', size, gasETH)) <= Band(size, gasETH)
  {
    hide ExactNet, Band;
    SumOfErrors(buy - buy', sell - sell', size, gasETH);
    NetDifference(buy, sell, buy', sell', size, gasETH);
  }

  lemma SumOfErrors(buy: real, sell: real, size: real, gasETH: real)
    requires Abs(buy) <= ULP && Abs(sell) <= ULP
    requires size >= 0.0 && gasETH >= 0.0
    ensures Abs(sell * size - buy * size - buy * gasETH) <= Band(size, gasETH)
  {
    ErrorScaled(sell, size);
    ErrorScaled(buy, size);
    ErrorScaled(buy, gasETH);
    BandSplit(size, gasETH);
    hide Band;
    ThreeErrors(sell * size, buy * size, buy * gasETH, ULP * size, ULP * gasETH);
  }

  lemma BandSplit(size: real, gasETH: real)
    ensures Band(size, gasETH) == ULP * size + ULP * size + ULP * gasETH
  {
  }

  lemma ThreeErrors(x: real, y: real, z: real, e: real, f: real)
    requires Abs(x) <= e && Abs(y) <= e && Abs(z) <= f
    ensures Abs(x - y - z) <= e + e + f
  {
  }

  lemma NetDifference(buy: real, sell: real, buy': real, sell': real, size: real, gasETH: real)
    ensures ExactNet(buy, sell, size, gasETH) - ExactNet(buy', sell', size, gasETH)
         == (sell - sell') * size - (buy - buy') * size - (buy - buy') * gasETH
  {
  }

  /** The computed net profit is within the band of the exact one, so the
      decision is the exact one whenever that is clear of the threshold. */
  lemma DecisionIsExactOutsideTheBand(path: CandidatePath, buy: real, sell: real, minNetProfit: real)
    requires path.size >= 0.0
    requires Abs(path.buyPrice - buy) <= ULP && Abs(path.sellPrice - sell) <= ULP
    ensures var gasETH := GasETH(path.gas, path.block.baseFee);
            var exact := ExactNet(buy, sell, path.size, gasETH);
            && Abs(Evaluate(path).netProfit - exact) <= Band(path.size, gasETH)
            && (Abs(exact - minNetProfit) > Band(path.size, gasETH) ==>
                  (IsProfitable(Evaluate(path), minNetProfit) <==> exact > minNetProfit))
  {
    EvaluatesExactly(path);
    NetIsLipschitz(path.buyPrice, path.sellPrice, buy, sell, path.size, GasETH(path.gas, path.block.baseFee));
  }

  /** The percentage is net profit per capital employed, which is what the size costs
      to buy; it is off by at most half a unit in the 14th place, and zero where no
      capital is. */
  lemma PercentageError(path: CandidatePath)
    ensures var op := Evaluate(path);
            && op.capital == path.buyPrice * path.size
            && (op.capital > 0.0 ==> Abs(op.netProfitPct - op.netProfit / op.capital * 100.0) <= 0.000000000000005)
            && (op.capital <= 0.0 ==> op.netProfitPct == 0.0)
  {
    var op := Evaluate(path);
    if op.capital > 0.0 {
      Round16Error(op.netProfit / op.capital);
    }
  }

  /** The figures of an opportunity belong together: what is paid and received for the
      size, and what is left after gas. */
  lemma FiguresAddUp(path: CandidatePath)
    ensures var op := Evaluate(path);
            && op.path == path
            && op.spreadPerUnit == path.sellPrice - path.buyPrice
            && op.capital == path.buyPrice * path.size
            && op.capital + op.grossProfit == path.sellPrice * path.size
            && op.capital + op.netProfit + op.gasCost == path.sellPrice * path.size
  {
  }

  /** The sign of the percentage never contradicts the sign of the profit. */
  lemma PercentageSign(path: CandidatePath)
    ensures Evaluate(path).netProfit >= 0.0 ==> Evaluate(path).netProfitPct >= 0.0
    ensures Evaluate(path).netProfit <= 0.0 ==> Evaluate(path).netProfitPct <= 0.0
  {
    var op := Evaluate(path);
    if op.capital > 0.0 {
      hide GasCost;
      RoundedSign(op.netProfit, op.capital);
    }
  }

  lemma RoundedSign(x: real, y: real)
    requires y > 0.0
    ensures x >= 0.0 ==> Div(x, y) >= 0.0
    ensures x <= 0.0 ==> Div(x, y) <= 0.0
  {
    hide Round16;
    assert Round16(0.0) == 0.0 by {
      Round16Integer(0);
    }
    assert 0.0 / y == 0.0;
    if x >= 0.0 {
      DivMonotone(0.0, y, x, y);
    }
    if x <= 0.0 {
      DivMonotone(x, y, 0.0, y);
    }
  }

  /** Without a spread there is no profit. */
  lemma NoSpreadNoProfit(path: CandidatePath)
    requires path.buyPrice >= path.sellPrice && path.buyPrice >= 0.0 && path.size >= 0.0
    ensures Evaluate(path).netProfit <= 0.0
  {
    EvaluatesExactly(path);
    MulMonotone(path.sellPrice - path.buyPrice, 0.0, path.size);
    MulMonotone(0.0, path.buyPrice, GasETH(path.gas, path.block.baseFee));
  }
}
