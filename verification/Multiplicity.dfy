/** How often each candidate is emitted: once for every row, direction and pair of
    results that it can be read off (internal/pathfinder/pathfinder.go). */
module Multiplicity {
  import opened Messages
  import opened Pathfinder
  import opened PathfinderTraces
  import opened PathfinderLaws

  /** `c` buys row i of one venue and sells it on the other: both sizes agree, both
      legs are clean, and every field is that of the two quotes. */
  predicate Sold(c: CandidatePath, block: BlockEvent, buyer: Partner, seller: Partner, i: int) {
    && 0 <= i < |buyer.quotes.buy| && |buyer.quotes.buy| == |seller.quotes.buy|
    && buyer.quotes.buy[i].size == seller.quotes.buy[i].size
    && buyer.quotes.buy[i].err.None? && seller.quotes.sell[i].err.None?
    && c.block == block && c.size == buyer.quotes.buy[i].size
    && c.buyVenue == buyer.venue && c.sellVenue == seller.venue
    && c.buyPrice == buyer.quotes.buy[i].price && c.sellPrice == seller.quotes.sell[i].price
    && c.gas == (buyer.quotes.buy[i].gas + seller.quotes.sell[i].gas) % 0x1_0000_0000_0000_0000
  }

  /** The rows of which `c` is the trade from `buyer` to `seller`. */
  function Sales(c: CandidatePath, block: BlockEvent, buyer: Partner, seller: Partner, n: nat): set<int> {
    set i | 0 <= i < n && Sold(c, block, buyer, seller, i)
  }

  lemma SoldIsTrade(c: CandidatePath, block: BlockEvent, buyer: Partner, seller: Partner, i: nat)
    requires i < |buyer.quotes.buy| == |seller.quotes.buy|
    ensures Sold(c, block, buyer, seller, i) <==>
              && buyer.quotes.buy[i].size == seller.quotes.buy[i].size
              && CleanRow(buyer, seller, i) && c == Trade(block, buyer, seller, i)
  {
  }

  lemma RowCounts(c: CandidatePath, block: BlockEvent, a: Partner, b: Partner, i: nat)
    requires i < |a.quotes.buy| == |b.quotes.buy|
    ensures multiset(Row(block, a, b, i))[c] ==
            (if Sold(c, block, a, b, i) then 1 else 0) + (if Sold(c, block, b, a, i) then 1 else 0)
  {
    SoldIsTrade(c, block, a, b, i);
    SoldIsTrade(c, block, b, a, i);
    hide Sold, Trade, CleanRow;
  }

  lemma OneMoreRow(c: CandidatePath, block: BlockEvent, buyer: Partner, seller: Partner, n: nat)
    ensures |Sales(c, block, buyer, seller, 0)| == 0
    ensures |Sales(c, block, buyer, seller, n + 1)| ==
            |Sales(c, block, buyer, seller, n)| + if Sold(c, block, buyer, seller, n) then 1 else 0
  {
    hide Sold;
    var before := Sales(c, block, buyer, seller, n);
    assert Sales(c, block, buyer, seller, n + 1) == if Sold(c, block, buyer, seller, n) then before + {n} else before;
  }

  lemma {:induction false} RowsCount(c: CandidatePath, block: BlockEvent, a: Partner, b: Partner, n: nat)
    requires n <= |a.quotes.buy| == |b.quotes.buy|
    ensures multiset(Rows(block, a, b, n))[c] == |Sales(c, block, a, b, n)| + |Sales(c, block, b, a, n)|
  {
    hide Row, Sold, Sales;
    if n == 0 {
      OneMoreRow(c, block, a, b, 0);
      OneMoreRow(c, block, b, a, 0);
    } else {
      RowsCount(c, block, a, b, n - 1);
      RowCounts(c, block, a, b, n - 1);
      OneMoreRow(c, block, a, b, n - 1);
      OneMoreRow(c, block, b, a, n - 1);
    }
  }

  /** A pair of venues yields `c` once for each row and direction it is the trade of. */
  lemma PairsCount(c: CandidatePath, block: BlockEvent, a: Partner, b: Partner)
    ensures multiset(Pairs(block, a, b))[c] ==
            |Sales(c, block, a, b, |a.quotes.buy|)| + |Sales(c, block, b, a, |b.quotes.buy|)|
  {
    if |a.quotes.buy| == |b.quotes.buy| {
      hide Rows, Sold, Sales;
      RowsCount(c, block, a, b, |a.quotes.buy|);
    } else {
      assert Sales(c, block, a, b, |a.quotes.buy|) == {} && Sales(c, block, b, a, |b.quotes.buy|) == {};
    }
  }

  // ----- Over a whole run

  /** Results x and y were matched, and `c` buys row i of x and sells it on y. */
  ghost predicate SoldBy(c: CandidatePath, results: seq<VenueResult>, x: int, y: int, i: int) {
    && 0 <= x < |results| && 0 <= y < |results|
    && (if x < y then Matched(results, x, y) else Matched(results, y, x))
    && Sold(c, results[if x < y then y else x].block, PartnerOf(results[x]), PartnerOf(results[y]), i)
  }

  /** All ways in which `c` can be read off the results. */
  ghost function Sources(c: CandidatePath, results: seq<VenueResult>): set<(int, int, int)> {
    set x, y, i | 0 <= x < |results| && 0 <= y < |results| && 0 <= i < |results[x].quotes.buy|
                  && SoldBy(c, results, x, y, i) :: (x, y, i)
  }

  lemma InSources(c: CandidatePath, results: seq<VenueResult>, t: (int, int, int))
    ensures t in Sources(c, results) <==> SoldBy(c, results, t.0, t.1, t.2)
  {
    hide Matched;
    assert SoldBy(c, results, t.0, t.1, t.2) ==> 0 <= t.2 < |results[t.0].quotes.buy|;
    assert t == (t.0, t.1, t.2);
  }

  /** Those in which the last result is one and an earlier one than m the other. */
  ghost function WithLast(c: CandidatePath, results: seq<VenueResult>, m: nat): set<(int, int, int)>
    requires m < |results|
  {
    set t | t in Sources(c, results) && LastWith(t, |results| - 1, m)
  }

  predicate LastWith(t: (int, int, int), j: int, m: int) {
    (t.0 == j && t.1 < m) || (t.1 == j && t.0 < m)
  }

  function Tagged(rows: set<int>, x: int, y: int): set<(int, int, int)> {
    set i | i in rows :: (x, y, i)
  }

  lemma InTagged(rows: set<int>, x: int, y: int, t: (int, int, int))
    ensures t in Tagged(rows, x, y) <==> t.0 == x && t.1 == y && t.2 in rows
  {
    if t.0 == x && t.1 == y && t.2 in rows {
      var i := t.2;
      assert i in rows && (x, y, i) == t;
    }
  }

  lemma Pick<T>(s: set<T>) returns (x: T)
    requires s != {}
    ensures x in s
  {
    x :| x in s;
  }

  lemma {:induction false} TaggedSize(rows: set<int>, x: int, y: int)
    ensures |Tagged(rows, x, y)| == |rows|
    decreases |rows|
  {
    if rows != {} {
      var i := Pick(rows);
      TaggedSize(rows - {i}, x, y);
      forall t
        ensures t in Tagged(rows, x, y) <==> t in Tagged(rows - {i}, x, y) || t == (x, y, i)
        ensures (x, y, i) !in Tagged(rows - {i}, x, y)
      {
        InTagged(rows, x, y, t);
        InTagged(rows - {i}, x, y, t);
        InTagged(rows - {i}, x, y, (x, y, i));
      }
      hide Tagged;
      assert Tagged(rows, x, y) == Tagged(rows - {i}, x, y) + {(x, y, i)};
    } else {
      forall t
        ensures t !in Tagged(rows, x, y)
      {
        InTagged(rows, x, y, t);
      }
      hide Tagged;
      assert Tagged(rows, x, y) == {};
    }
  }

  /** What matching the last result with result m adds. */
  ghost function SalesBetween(c: CandidatePath, results: seq<VenueResult>, x: nat, y: nat): set<int>
    requires x < |results| && y < |results|
  {
    Sales(c, results[|results| - 1].block, PartnerOf(results[x]), PartnerOf(results[y]), |results[x].quotes.buy|)
  }

  /** Which positions that adds. */
  ghost function Bought(c: CandidatePath, results: seq<VenueResult>, m: nat): set<(int, int, int)>
    requires m < |results|
  {
    Tagged(SalesBetween(c, results, |results| - 1, m), |results| - 1, m)
  }

  ghost function BoughtBack(c: CandidatePath, results: seq<VenueResult>, m: nat): set<(int, int, int)>
    requires m < |results|
  {
    Tagged(SalesBetween(c, results, m, |results| - 1), m, |results| - 1)
  }

  lemma InBought(c: CandidatePath, results: seq<VenueResult>, m: nat, t: (int, int, int))
    requires m + 1 < |results| && Matched(results, m, |results| - 1)
    ensures var j := |results| - 1;
            && (t in Bought(c, results, m) <==> t.0 == j && t.1 == m && SoldBy(c, results, j, m, t.2))
            && (t in BoughtBack(c, results, m) <==> t.0 == m && t.1 == j && SoldBy(c, results, m, j, t.2))
  {
    var j := |results| - 1;
    InTagged(SalesBetween(c, results, j, m), j, m, t);
    InTagged(SalesBetween(c, results, m, j), m, j, t);
    SoldInRange(c, results[j].block, PartnerOf(results[j]), PartnerOf(results[m]), t.2);
    SoldInRange(c, results[j].block, PartnerOf(results[m]), PartnerOf(results[j]), t.2);
    hide Matched, Sold, Tagged;
  }

  lemma InWithLast(c: CandidatePath, results: seq<VenueResult>, m: nat, t: (int, int, int))
    requires m < |results|
    ensures t in WithLast(c, results, m) <==> SoldBy(c, results, t.0, t.1, t.2) && LastWith(t, |results| - 1, m)
  {
    InSources(c, results, t);
    hide SoldBy, Sources;
  }

  lemma MatchMembers(c: CandidatePath, results: seq<VenueResult>, m: nat, t: (int, int, int))
    requires m + 1 < |results|
    ensures Matched(results, m, |results| - 1) ==>
              && (t in WithLast(c, results, m + 1) <==>
                  t in WithLast(c, results, m) || t in Bought(c, results, m) || t in BoughtBack(c, results, m))
              && !(t in WithLast(c, results, m) && t in Bought(c, results, m))
              && !(t in WithLast(c, results, m) && t in BoughtBack(c, results, m))
              && !(t in Bought(c, results, m) && t in BoughtBack(c, results, m))
    ensures !Matched(results, m, |results| - 1) ==> (t in WithLast(c, results, m + 1) <==> t in WithLast(c, results, m))
  {
    InWithLast(c, results, m, t);
    InWithLast(c, results, m + 1, t);
    if Matched(results, m, |results| - 1) {
      InBought(c, results, m, t);
    }
    hide Sold, Matched, WithLast, Bought, BoughtBack;
  }

  lemma SizeOfThree<T>(all: set<T>, a: set<T>, b: set<T>, c: set<T>)
    requires forall t :: t in all <==> t in a || t in b || t in c
    requires forall t :: !(t in a && t in b) && !(t in a && t in c) && !(t in b && t in c)
    ensures |all| == |a| + |b| + |c|
  {
    assert all == a + b + c;
  }

  lemma OneMoreMatch(c: CandidatePath, results: seq<VenueResult>, m: nat)
    requires m + 1 < |results|
    ensures var j := |results| - 1;
            |WithLast(c, results, m + 1)| == |WithLast(c, results, m)| +
              if Matched(results, m, j) then |SalesBetween(c, results, j, m)| + |SalesBetween(c, results, m, j)| else 0
  {
    var j := |results| - 1;
    TaggedSize(SalesBetween(c, results, j, m), j, m);
    TaggedSize(SalesBetween(c, results, m, j), m, j);
    assert |Bought(c, results, m)| == |SalesBetween(c, results, j, m)|;
    assert |BoughtBack(c, results, m)| == |SalesBetween(c, results, m, j)|;
    hide WithLast, SalesBetween, Bought, BoughtBack, Matched;
    forall t {
      MatchMembers(c, results, m, t);
    }
    if Matched(results, m, j) {
      SizeOfThree(WithLast(c, results, m + 1), WithLast(c, results, m), Bought(c, results, m),
                  BoughtBack(c, results, m));
    } else {
      assert WithLast(c, results, m + 1) == WithLast(c, results, m);
    }
  }

  lemma SoldInRange(c: CandidatePath, block: BlockEvent, buyer: Partner, seller: Partner, i: int)
    ensures Sold(c, block, buyer, seller, i) ==> 0 <= i < |buyer.quotes.buy|
  {
  }

  lemma NoMatchYet(c: CandidatePath, results: seq<VenueResult>)
    requires results != []
    ensures AddedWith(c, results, 0) == |WithLast(c, results, 0)| == 0
  {
    forall t
      ensures t !in WithLast(c, results, 0)
    {
      InWithLast(c, results, 0, t);
    }
    hide WithLast;
    assert WithLast(c, results, 0) == {};
  }

  /** How often the candidates of the last result with the first m others are `c`. */
  ghost function AddedWith(c: CandidatePath, results: seq<VenueResult>, m: nat): nat
    requires m < |results|
  {
    var j := |results| - 1;
    multiset(AgainstAll(results[j].block, PartnerOf(results[j]), Partners(results, j, m)))[c]
  }

  lemma OneMorePartnerOf(results: seq<VenueResult>, m: nat)
    requires m + 1 < |results|
    ensures var j := |results| - 1;
            Partners(results, j, m + 1) ==
            Partners(results, j, m) + if Matched(results, m, j) then [PartnerOf(results[m])] else []
  {
    hide Matched;
  }

  lemma AgainstOneMore(c: CandidatePath, block: BlockEvent, me: Partner, others: seq<Partner>, other: Partner)
    ensures multiset(AgainstAll(block, me, others + [other]))[c] ==
            multiset(AgainstAll(block, me, others))[c] + multiset(Pairs(block, me, other))[c]
  {
    hide AgainstAll, Pairs;
    var all := others + [other];
    assert all[..|all| - 1] == others && all[|all| - 1] == other;
    AgainstLast(block, me, all);
  }

  lemma OneMoreAdded(c: CandidatePath, results: seq<VenueResult>, m: nat)
    requires m + 1 < |results|
    ensures var j := |results| - 1;
            AddedWith(c, results, m + 1) == AddedWith(c, results, m) +
              if Matched(results, m, j)
              then multiset(Pairs(results[j].block, PartnerOf(results[j]), PartnerOf(results[m])))[c] else 0
  {
    hide AgainstAll, Pairs, Matched, Partners;
    var j := |results| - 1;
    var before := Partners(results, j, m);
    OneMorePartnerOf(results, m);
    AgainstOneMore(c, results[j].block, PartnerOf(results[j]), before, PartnerOf(results[m]));
    assert before + [] == before;
  }

  lemma BetweenCounts(c: CandidatePath, results: seq<VenueResult>, m: nat)
    requires m < |results|
    ensures var j := |results| - 1;
            multiset(Pairs(results[j].block, PartnerOf(results[j]), PartnerOf(results[m])))[c] ==
            |SalesBetween(c, results, j, m)| + |SalesBetween(c, results, m, j)|
  {
    var j := |results| - 1;
    hide Pairs, Sales;
    PairsCount(c, results[j].block, PartnerOf(results[j]), PartnerOf(results[m]));
  }

  /** The last result adds `c` once for each such way. */
  lemma {:induction false} AddedCounts(c: CandidatePath, results: seq<VenueResult>, m: nat)
    requires m < |results|
    ensures AddedWith(c, results, m) == |WithLast(c, results, m)|
  {
    hide AddedWith, WithLast, SalesBetween, Matched, Pairs;
    if m == 0 {
      NoMatchYet(c, results);
    } else {
      AddedCounts(c, results, m - 1);
      OneMoreMatch(c, results, m - 1);
      OneMoreAdded(c, results, m - 1);
      BetweenCounts(c, results, m - 1);
    }
  }

  lemma SoldByPrefix(c: CandidatePath, results: seq<VenueResult>, t: (int, int, int))
    requires results != []
    ensures var j := |results| - 1;
            SoldBy(c, results, t.0, t.1, t.2) <==>
              SoldBy(c, results[..j], t.0, t.1, t.2) || (LastWith(t, j, j) && SoldBy(c, results, t.0, t.1, t.2))
    ensures SoldBy(c, results[..|results| - 1], t.0, t.1, t.2) ==> t.0 < |results| - 1 && t.1 < |results| - 1
  {
    var j := |results| - 1;
    hide Sold;
    if 0 <= t.0 < j && 0 <= t.1 < j {
      MatchedPrefix(results, j, t.0, t.1);
      MatchedPrefix(results, j, t.1, t.0);
    }
    assert !Matched(results, j, j);
    hide Matched;
  }

  lemma SourcesSplit(c: CandidatePath, results: seq<VenueResult>)
    requires results != []
    ensures |Sources(c, results)| == |Sources(c, results[..|results| - 1])| + |WithLast(c, results, |results| - 1)|
  {
    var j := |results| - 1;
    var before, last := Sources(c, results[..j]), WithLast(c, results, j);
    forall t
      ensures t in Sources(c, results) <==> t in before || t in last
      ensures t in before ==> t !in last
    {
      InSources(c, results, t);
      InSources(c, results[..j], t);
      SoldByPrefix(c, results, t);
      hide SoldBy, Sources;
    }
    hide Sources, WithLast;
    assert Sources(c, results) == before + last;
  }

  /** Over any run `c` is emitted exactly as often as there are matched results x and
      y and rows i such that it buys row i of x and sells it on y. */
  lemma {:induction false} ExpectedCounts(results: seq<VenueResult>, c: CandidatePath)
    ensures Expected(results)[c] == |Sources(c, results)|
  {
    if results == [] {
      assert Sources(c, results) == {};
    } else {
      var j := |results| - 1;
      ExpectedCounts(results[..j], c);
      SourcesSplit(c, results);
      AddedCounts(c, results, j);
      hide Sources, WithLast, AgainstAll, Partners;
    }
  }

  lemma EmittedAsOftenAsSold(results: seq<VenueResult>, out: seq<CandidatePath>, c: CandidatePath)
    requires Runs(results, out)
    ensures multiset(out)[c] == |Sources(c, results)|
  {
    TraceIsExact(results, out);
    ExpectedCounts(results, c);
  }
}
