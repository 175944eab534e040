/** Walking an orderbook (internal/cex/binance/orderbook.go). */
module Orderbook {
  import opened Decimals

  datatype Level = Level(price: real, size: real)

  datatype Walk =
    | Filled(price: real, cost: real)
    | InvalidSize
    | InsufficientDepth

  /** What is left of `size` after taking from each level in turn. */
  function Unfilled(levels: seq<Level>, size: real): real {
    if levels == [] || size <= 0.0 then size
    else Unfilled(levels[1..], size - Min(size, levels[0].size))
  }

  function Pay(units: real, price: real): real {
    units * price
  }

  /** What the taken part of `size` costs. */
  function Cost(levels: seq<Level>, size: real): real {
    if levels == [] || size <= 0.0 then 0.0
    else
      var take := Min(size, levels[0].size);
      Pay(take, levels[0].price) + Cost(levels[1..], size - take)
  }

  function Depth(levels: seq<Level>): real {
    if levels == [] then 0.0 else levels[0].size + Depth(levels[1..])
  }

  /** The outcome of walking `levels` for `size`. */
  function WalkOf(levels: seq<Level>, size: real): Walk {
    if size <= 0.0 then InvalidSize
    else if Unfilled(levels, size) > 0.0 then InsufficientDepth
    else Filled(Div(Cost(levels, size), size), Cost(levels, size))
  }

  method WalkOrderbook(levels: seq<Level>, size: real) returns (walk: Walk)
    ensures walk == WalkOf(levels, size)
    ensures NonNegative(levels) && walk.Filled? ==>
              exists take :: && Allocation(levels, take, size) && BestFirst(levels, take)
                             && walk.cost == AllocationCost(levels, take)
                             && Abs(walk.price - walk.cost / size) <= 0.00000000000000005
  {
    if NonNegative(levels) {
      WalkPaysForWhatItTakes(levels, size);
    }
    hide Allocation, BestFirst, AllocationCost, NonNegative;
    if size <= 0.0 {
      return InvalidSize;
    }
    var remaining, totalCost := size, 0.0;
    var i := 0;
    while i < |levels| && remaining > 0.0
      invariant 0 <= i <= |levels|
      invariant Unfilled(levels[i..], remaining) == Unfilled(levels, size)
      invariant totalCost + Cost(levels[i..], remaining) == Cost(levels, size)
    {
      var take := Min(remaining, levels[i].size);
      totalCost := totalCost + Pay(take, levels[i].price);
      remaining := remaining - take;
      assert levels[i..][1..] == levels[i + 1..];
      i := i + 1;
    }
    if remaining > 0.0 {
      return InsufficientDepth;
    }
    return Filled(Div(totalCost, size), totalCost);
  }

  // ----- Books

  ghost predicate NonNegative(levels: seq<Level>) {
    forall i :: 0 <= i < |levels| ==> levels[i].size >= 0.0
  }

  /** Best ask first. */
  ghost predicate Ascending(levels: seq<Level>) {
    forall i, j :: 0 <= i < j < |levels| ==> levels[i].price <= levels[j].price
  }

  /** Best bid first. */
  ghost predicate Descending(levels: seq<Level>) {
    forall i, j :: 0 <= i < j < |levels| ==> levels[i].price >= levels[j].price
  }

  ghost predicate PricesAtLeast(levels: seq<Level>, price: real) {
    forall i :: 0 <= i < |levels| ==> levels[i].price >= price
  }

  ghost predicate PricesAtMost(levels: seq<Level>, price: real) {
    forall i :: 0 <= i < |levels| ==> levels[i].price <= price
  }

  /** A walk succeeds exactly when the side is deep enough. */
  lemma {:induction false} UnfilledIsShortfall(levels: seq<Level>, size: real)
    requires NonNegative(levels) && size >= 0.0
    ensures Depth(levels) >= 0.0
    ensures Unfilled(levels, size) == if size <= Depth(levels) then 0.0 else size - Depth(levels)
  {
    if levels != [] {
      UnfilledIsShortfall(levels[1..], size - Min(size, levels[0].size));
    }
  }

  lemma CoveredIffDeepEnough(levels: seq<Level>, size: real)
    requires NonNegative(levels) && size > 0.0
    ensures WalkOf(levels, size).Filled? <==> size <= Depth(levels)
    ensures WalkOf(levels, size).InsufficientDepth? <==> size > Depth(levels)
  {
    UnfilledIsShortfall(levels, size);
  }

  /** Levels behind the last one needed do not change a walk that succeeded. */
  lemma {:induction false} PrefixStable(levels: seq<Level>, deeper: seq<Level>, size: real)
    requires Unfilled(levels, size) <= 0.0
    ensures Unfilled(levels + deeper, size) == Unfilled(levels, size)
    ensures Cost(levels + deeper, size) == Cost(levels, size)
  {
    if levels == [] {
      assert levels + deeper == deeper;
    } else if size > 0.0 {
      PrefixStable(levels[1..], deeper, size - Min(size, levels[0].size));
      assert (levels + deeper)[1..] == levels[1..] + deeper;
    }
  }

  // ----- Greedy optimality

  /** `take[i]` units are taken from level i, `size` in all. */
  ghost predicate Allocation(levels: seq<Level>, take: seq<real>, size: real) {
    && |take| == |levels|
    && (forall i :: 0 <= i < |take| ==> 0.0 <= take[i] <= levels[i].size)
    && Sum(take) == size
  }

  function Sum(xs: seq<real>): real {
    if xs == [] then 0.0 else xs[0] + Sum(xs[1..])
  }

  /** The sum of units times price over the levels. */
  function AllocationCost(levels: seq<Level>, take: seq<real>): real
    requires |take| == |levels|
  {
    if levels == [] then 0.0
    else take[0] * levels[0].price + AllocationCost(levels[1..], take[1..])
  }

  lemma AllocationCostByLevel(levels: seq<Level>, take: seq<real>)
    requires |take| == |levels| && levels != []
    ensures AllocationCost(levels, take) == Pay(take[0], levels[0].price) + AllocationCost(levels[1..], take[1..])
  {
  }

  /** The allocation the walk makes. */
  function Greedy(levels: seq<Level>, size: real): (take: seq<real>)
    ensures |take| == |levels|
  {
    if levels == [] then []
    else
      var first := if size <= 0.0 then 0.0 else Min(size, levels[0].size);
      [first] + Greedy(levels[1..], size - first)
  }

  lemma {:induction false} GreedyIsAnAllocation(levels: seq<Level>, size: real)
    requires NonNegative(levels) && 0.0 <= size <= Depth(levels)
    ensures Allocation(levels, Greedy(levels, size), size)
  {
    if levels != [] {
      var first := Min(size, levels[0].size);
      UnfilledIsShortfall(levels[1..], 0.0);
      GreedyIsAnAllocation(levels[1..], size - first);
      assert Greedy(levels, size)[1..] == Greedy(levels[1..], size - first);
    }
  }

  /** The walk's cost is the cost of the allocation it makes. */
  lemma {:induction false} GreedyCost(levels: seq<Level>, size: real)
    requires NonNegative(levels) && size >= 0.0
    ensures AllocationCost(levels, Greedy(levels, size)) == Cost(levels, size)
  {
    NothingCostsNothing(levels);
    if levels != [] {
      var first := Min(size, levels[0].size);
      AllocationCostByLevel(levels, Greedy(levels, size));
      hide Cost, Pay, AllocationCost;
      CostByLevel(levels, size);
      NothingCostsNothing(levels[1..]);
      GreedyCost(levels[1..], size - first);
      assert Greedy(levels, size)[1..] == Greedy(levels[1..], size - first);
    }
  }

  lemma NothingCostsNothing(levels: seq<Level>)
    ensures levels == [] ==> forall size :: Cost(levels, size) == 0.0
    ensures Cost(levels, 0.0) == 0.0
  {
  }

  lemma {:induction false} SumNonNegative(xs: seq<real>)
    requires forall i :: 0 <= i < |xs| ==> xs[i] >= 0.0
    ensures Sum(xs) >= 0.0
  {
    if xs != [] {
      SumNonNegative(xs[1..]);
    }
  }

  lemma {:induction false} AllocationFits(levels: seq<Level>, take: seq<real>, size: real)
    requires Allocation(levels, take, size)
    ensures 0.0 <= size <= Depth(levels)
  {
    SumNonNegative(take);
    if levels != [] {
      assert take[1..] == take[1..];
      AllocationFits(levels[1..], take[1..], Sum(take[1..]));
    }
  }

  /** The cost, one level at a time. */
  lemma CostByLevel(levels: seq<Level>, size: real)
    requires NonNegative(levels) && levels != [] && size >= 0.0
    ensures Depth(levels[1..]) >= 0.0
    ensures size <= levels[0].size ==> Cost(levels, size) == Pay(size, levels[0].price)
    ensures size > levels[0].size ==>
              Cost(levels, size) == Pay(levels[0].size, levels[0].price) + Cost(levels[1..], size - levels[0].size)
    ensures var take := Min(size, levels[0].size);
            Cost(levels, size) == Pay(take, levels[0].price) + Cost(levels[1..], size - take)
  {
    UnfilledIsShortfall(levels[1..], 0.0);
    NothingCostsNothing(levels[1..]);
  }

  /** Each further unit costs at least the cheapest price of the book. */
  lemma {:induction false} MarginalCost(levels: seq<Level>, price: real, a: real, b: real)
    requires NonNegative(levels) && PricesAtLeast(levels, price)
    requires 0.0 <= a <= b <= Depth(levels)
    ensures Cost(levels, b) - Cost(levels, a) >= Pay(b - a, price)
  {
    if levels == [] {
      NothingCostsNothing(levels);
    } else {
      hide Cost, Min, Pay;
      var rest, s, p := levels[1..], levels[0].size, levels[0].price;
      var takeA, takeB := Min(a, s), Min(b, s);
      var restA, restB := a - takeA, b - takeB;
      CostByLevel(levels, a);
      CostByLevel(levels, b);
      TakeBounds(a, b, s, Depth(rest));
      MarginalCost(rest, price, restA, restB);
      AddMargins(price, p, takeA, takeB, restA, restB, Cost(rest, restA), Cost(rest, restB));
    }
  }

  lemma TakeBounds(a: real, b: real, s: real, depth: real)
    requires 0.0 <= a <= b && s >= 0.0 && depth >= 0.0
    ensures 0.0 <= Min(a, s) <= Min(b, s) <= s
    ensures 0.0 <= a - Min(a, s) <= b - Min(b, s)
    ensures b <= s + depth ==> b - Min(b, s) <= depth
  {
  }

  lemma AddMargins(price: real, p: real, takeA: real, takeB: real, a: real, b: real, costA: real, costB: real)
    requires price == p || (price < p && takeA <= takeB)
    requires costB - costA >= Pay(b - a, price)
    ensures (Pay(takeB, p) + costB) - (Pay(takeA, p) + costA) >= Pay((takeB + b) - (takeA + a), price)
    ensures takeB + b == takeA + a ==> Pay(takeB, p) + costB >= Pay(takeA, p) + costA
  {
    if price < p {
      MulMonotone(price, p, takeB - takeA);
    }
    assert p * (takeB - takeA) == takeB * p - takeA * p;
    assert price * ((takeB + b) - (takeA + a)) == price * (takeB - takeA) + price * (b - a);
  }

  /** On ascending asks no allocation is cheaper than the walk. */
  lemma {:induction false} GreedyIsCheapest(levels: seq<Level>, take: seq<real>, size: real)
    requires Ascending(levels) && Allocation(levels, take, size)
    ensures Cost(levels, size) <= AllocationCost(levels, take)
  {
    hide Cost, Pay;
    AllocationFits(levels, take, size);
    NothingCostsNothing(levels);
    if levels != [] {
      var rest, s, p := levels[1..], levels[0].size, levels[0].price;
      var x, others, first := take[0], Sum(take[1..]), Min(size, s);
      AllocationFits(rest, take[1..], others);
      GreedyIsCheapest(rest, take[1..], others);
      CostByLevel(levels, size);
      var left := size - first;
      MarginalCost(rest, p, left, others);
      AllocationCostByLevel(levels, take);
      AddMargins(p, p, first, x, left, others, Cost(rest, left), Cost(rest, others));
    }
  }

  /** Negated prices turn bids into asks. */
  function Mirror(levels: seq<Level>): (m: seq<Level>)
    ensures |m| == |levels|
    ensures forall i :: 0 <= i < |m| ==> m[i] == Level(-levels[i].price, levels[i].size)
  {
    if levels == [] then []
    else [Level(-levels[0].price, levels[0].size)] + Mirror(levels[1..])
  }

  lemma MirrorIsAscending(levels: seq<Level>)
    requires NonNegative(levels) && Descending(levels)
    ensures NonNegative(Mirror(levels)) && Ascending(Mirror(levels))
  {
  }

  lemma {:induction false} MirrorNegates(levels: seq<Level>, take: seq<real>, size: real)
    requires |take| == |levels|
    ensures Cost(Mirror(levels), size) == -Cost(levels, size)
    ensures Depth(Mirror(levels)) == Depth(levels)
    ensures AllocationCost(Mirror(levels), take) == -AllocationCost(levels, take)
  {
    if levels != [] {
      var m := Mirror(levels);
      assert m[1..] == Mirror(levels[1..]);
      MirrorNegates(levels[1..], take[1..], size - Min(size, levels[0].size));
    }
  }

  /** On descending bids no allocation earns more than the walk. */
  lemma GreedyEarnsMost(levels: seq<Level>, take: seq<real>, size: real)
    requires Descending(levels) && Allocation(levels, take, size)
    ensures Cost(levels, size) >= AllocationCost(levels, take)
  {
    MirrorNegates(levels, take, size);
    GreedyIsCheapest(Mirror(levels), take, size);
  }

  // ----- What a walk pays

  /** Best levels first: a level is touched only if all before it are used up. */
  ghost predicate BestFirst(levels: seq<Level>, take: seq<real>)
    requires |take| == |levels|
  {
    forall i, j :: 0 <= i < j < |take| && take[i] < levels[i].size ==> take[j] == 0.0
  }

  lemma {:induction false} GreedyTakesNothing(levels: seq<Level>, i: nat)
    requires i < |levels| && NonNegative(levels)
    ensures Greedy(levels, 0.0)[i] == 0.0
  {
    if i > 0 {
      GreedyTakesNothing(levels[1..], i - 1);
    }
  }

  lemma {:induction false} GreedyIsBestFirst(levels: seq<Level>, size: real)
    requires NonNegative(levels) && size >= 0.0
    ensures BestFirst(levels, Greedy(levels, size))
  {
    if levels != [] {
      var rest, first := levels[1..], Min(size, levels[0].size);
      var take := Greedy(levels, size);
      GreedyIsBestFirst(rest, size - first);
      assert take[1..] == Greedy(rest, size - first);
      forall i, j | 0 <= i < j < |take| && take[i] < levels[i].size
        ensures take[j] == 0.0
      {
        if i == 0 {
          GreedyTakesNothing(rest, j - 1);
        } else {
          assert take[1..][i - 1] < rest[i - 1].size;
        }
        assert take[1..][j - 1] == take[j];
      }
    }
  }

  /** A walk is refused for a size that is not positive or deeper than the book.
      Otherwise it pays, level by level, for units that add up to the size, best
      levels first; its price is that total per unit, rounded to 16 places. */
  lemma WalkPaysForWhatItTakes(levels: seq<Level>, size: real)
    requires NonNegative(levels)
    ensures WalkOf(levels, size).InvalidSize? <==> size <= 0.0
    ensures WalkOf(levels, size).InsufficientDepth? <==> size > 0.0 && size > Depth(levels)
    ensures WalkOf(levels, size).Filled? ==>
              exists take :: && Allocation(levels, take, size) && BestFirst(levels, take)
                             && WalkOf(levels, size).cost == AllocationCost(levels, take)
    ensures WalkOf(levels, size).Filled? ==>
              Abs(WalkOf(levels, size).price - WalkOf(levels, size).cost / size) <= 0.00000000000000005
  {
    if size > 0.0 {
      CoveredIffDeepEnough(levels, size);
      if size <= Depth(levels) {
        GreedyIsAnAllocation(levels, size);
        GreedyIsBestFirst(levels, size);
        GreedyCost(levels, size);
        Round16Error(Cost(levels, size) / size);
      }
    }
  }

  lemma {:induction false} FlatCost(levels: seq<Level>, take: seq<real>, price: real)
    requires |take| == |levels| && forall i :: 0 <= i < |levels| ==> levels[i].price == price
    ensures AllocationCost(levels, take) == Sum(take) * price
  {
    if levels != [] {
      FlatCost(levels[1..], take[1..], price);
    }
  }

  /** Where all levels have one price, that is what a unit costs. */
  lemma FlatBook(levels: seq<Level>, size: real, price: real)
    requires NonNegative(levels) && 0.0 < size <= Depth(levels)
    requires forall i :: 0 <= i < |levels| ==> levels[i].price == price
    ensures WalkOf(levels, size).Filled? && WalkOf(levels, size).cost == size * price
    ensures Abs(WalkOf(levels, size).price - price) <= 0.00000000000000005
  {
    hide WalkOf, BestFirst, AllocationCost, NonNegative, Depth;
    WalkPaysForWhatItTakes(levels, size);
    var take :| Allocation(levels, take, size) && WalkOf(levels, size).cost == AllocationCost(levels, take);
    FlatTotal(levels, take, size, price);
    UnitPrice(WalkOf(levels, size).cost, size, price);
  }

  lemma FlatTotal(levels: seq<Level>, take: seq<real>, size: real, price: real)
    requires Allocation(levels, take, size) && forall i :: 0 <= i < |levels| ==> levels[i].price == price
    ensures AllocationCost(levels, take) == size * price
  {
    FlatCost(levels, take, price);
  }

  lemma UnitPrice(cost: real, size: real, price: real)
    requires size != 0.0 && cost == size * price
    ensures cost / size == price
  {
  }

  // ----- Slippage

  lemma {:induction false} VwapRisesOnAsks(levels: seq<Level>, a: real, b: real)
    requires NonNegative(levels) && Ascending(levels)
    requires 0.0 <= a <= b <= Depth(levels)
    ensures Cost(levels, a) * b <= Cost(levels, b) * a
  {
    hide Cost, Pay;
    if levels != [] {
      var rest, s, p := levels[1..], levels[0].size, levels[0].price;
      CostByLevel(levels, a);
      CostByLevel(levels, b);
      if a <= s {
        MarginalCost(levels, p, 0.0, b);
        NothingCostsNothing(levels);
        FirstLevelOnly(a, b, p, Cost(levels, b));
      } else {
        VwapRisesOnAsks(rest, a - s, b - s);
        MarginalCost(rest, p, a - s, b - s);
        AddCommonPart(Cost(rest, a - s), Cost(rest, b - s), a - s, b - s, s, p);
      }
    }
  }

  lemma FirstLevelOnly(a: real, b: real, p: real, costB: real)
    requires costB >= Pay(b, p) && a >= 0.0
    ensures Pay(a, p) * b <= costB * a
  {
    MulMonotone(b * p, costB, a);
    assert a * p * b == b * p * a;
  }

  lemma AddCommonPart(costA: real, costB: real, a: real, b: real, s: real, p: real)
    requires costA * b <= costB * a
    requires costB - costA >= Pay(b - a, p) && s >= 0.0
    ensures (Pay(s, p) + costA) * (b + s) <= (Pay(s, p) + costB) * (a + s)
  {
    MulMonotone(p * (b - a), costB - costA, s);
    assert (s * p + costA) * (b + s) == s * p * b + s * p * s + costA * b + costA * s;
    assert (s * p + costB) * (a + s) == s * p * a + s * p * s + costB * a + costB * s;
    assert p * (b - a) * s == s * p * b - s * p * a;
    assert (costB - costA) * s == costB * s - costA * s;
  }

  lemma VwapFallsOnBids(levels: seq<Level>, a: real, b: real)
    requires NonNegative(levels) && Descending(levels)
    requires 0.0 <= a <= b <= Depth(levels)
    ensures Cost(levels, a) * b >= Cost(levels, b) * a
  {
    hide *;
    MirrorIsAscending(levels);
    MirrorNegates(levels, Greedy(levels, a), a);
    MirrorNegates(levels, Greedy(levels, b), b);
    VwapRisesOnAsks(Mirror(levels), a, b);
    NegatedOrder(Cost(levels, a), b, Cost(levels, b), a);
  }

  lemma NegatedOrder(x: real, b: real, y: real, a: real)
    requires -x * b <= -y * a
    ensures x * b >= y * a
  {
  }

  /** Splitting a buy never costs more; splitting a sell never earns less. */
  lemma CostIsSuperadditive(levels: seq<Level>, a: real, b: real)
    requires NonNegative(levels) && Ascending(levels)
    requires a >= 0.0 && b >= 0.0 && a + b <= Depth(levels)
    ensures Cost(levels, a) + Cost(levels, b) <= Cost(levels, a + b)
  {
    hide Cost;
    VwapRisesOnAsks(levels, a, a + b);
    VwapRisesOnAsks(levels, b, a + b);
    if a + b > 0.0 {
      CancelFactor(Cost(levels, a), Cost(levels, b), Cost(levels, a + b), a, b);
    } else {
      NothingCostsNothing(levels);
    }
  }

  lemma CancelFactor(x: real, y: real, z: real, a: real, b: real)
    requires x * (a + b) <= z * a && y * (a + b) <= z * b && a + b > 0.0
    ensures x + y <= z
  {
    assert (x + y) * (a + b) == x * (a + b) + y * (a + b);
    assert z * (a + b) == z * a + z * b;
    assert (z - (x + y)) * (a + b) >= 0.0;
  }

  lemma ProceedsAreSubadditive(levels: seq<Level>, a: real, b: real)
    requires NonNegative(levels) && Descending(levels)
    requires a >= 0.0 && b >= 0.0 && a + b <= Depth(levels)
    ensures Cost(levels, a) + Cost(levels, b) >= Cost(levels, a + b)
  {
    hide *;
    MirrorIsAscending(levels);
    MirrorNegates(levels, Greedy(levels, a), a);
    MirrorNegates(levels, Greedy(levels, b), b);
    MirrorNegates(levels, Greedy(levels, a + b), a + b);
    CostIsSuperadditive(Mirror(levels), a, b);
  }
}
