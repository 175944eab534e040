/** Runs in which every venue reports at most once per block: arrival order does
    not matter for the freshest block, no venue trades with itself, and the
    number of candidates is bounded (internal/pathfinder/pathfinder.go). */
module ArrivalOrder {
  import opened Pricing
  import opened Messages
  import opened Pathfinder
  import opened PathfinderTraces
  import opened PathfinderLaws

  /** At most one result per venue and block; results of one block carry one event. */
  ghost predicate OneEach(results: seq<VenueResult>) {
    && (forall r :: r in results ==> multiset(results)[r] == 1)
    && (forall r, r' :: r in results && r' in results && r.block.number == r'.block.number ==>
          r.block == r'.block && (r.venue == r'.venue ==> r == r'))
  }

  lemma RepeatCounts<T>(s: seq<T>, i: int, j: int)
    requires 0 <= i < j < |s|
    ensures s[i] == s[j] ==> multiset(s)[s[i]] >= 2
  {
    assert s == s[..j] + s[j..];
    assert s[..j][i] in multiset(s[..j]) && s[j..][0] in multiset(s[j..]);
  }

  lemma OneEachByIndex(results: seq<VenueResult>, i: int, j: int)
    requires OneEach(results) && 0 <= i < j < |results|
    ensures results[i].venue != results[j].venue || results[i].block.number != results[j].block.number
  {
    RepeatCounts(results, i, j);
    assert results[i] in results && results[j] in results;
  }

  lemma PermutedMembers<T>(s: seq<T>, t: seq<T>)
    requires multiset(s) == multiset(t)
    ensures forall x :: x in s <==> x in t
    ensures |s| == |t|
  {
    assert |multiset(s)| == |s| && |multiset(t)| == |t|;
    assert forall x :: x in s <==> x in multiset(s);
    assert forall x :: x in t <==> x in multiset(t);
  }

  lemma OneEachPermuted(results: seq<VenueResult>, others: seq<VenueResult>)
    requires OneEach(results) && multiset(results) == multiset(others)
    ensures OneEach(others)
  {
    PermutedMembers(results, others);
  }

  lemma OneEachPrefix(results: seq<VenueResult>)
    requires OneEach(results) && results != []
    ensures OneEach(results[..|results| - 1])
  {
    var n := |results| - 1;
    assert results == results[..n] + [results[n]];
    forall r | r in results[..n]
      ensures r in results && multiset(results[..n])[r] == 1
    {
      assert multiset(results)[r] >= multiset(results[..n])[r] > 0;
    }
  }

  /** Then two results are matched as soon as they are clean, about one block,
      and that block is the freshest when the second arrives. */
  lemma MatchedUnlessStale(results: seq<VenueResult>, i: int, j: int)
    requires OneEach(results) && 0 <= i < j < |results|
    ensures Matched(results, i, j) <==>
            && results[i].err.None? && results[j].err.None?
            && results[i].block.number == results[j].block.number
            && Fresh(results, j)
  {
    forall k | i < k < j
      ensures !(results[k].block.number == results[i].block.number && results[k].venue == results[i].venue)
    {
      OneEachByIndex(results, i, k);
    }
    assert forall k :: 0 <= k < j ==> results[..j][k] == results[k];
  }

  lemma NoVenueTradesWithItself(results: seq<VenueResult>, out: seq<CandidatePath>, c: CandidatePath)
    requires OneEach(results) && Runs(results, out) && c in out
    ensures c.buyVenue != c.sellVenue
  {
    NoCandidateMixesBlocks(results, out, c);
    hide OneEach, Runs, FromPair;
    var i, j :| && FromPair(c, results, i, j)
                && 0 <= i < j < |results|
                && results[i].block.number == results[j].block.number == c.block.number
                && {c.buyVenue, c.sellVenue} == {results[i].venue, results[j].venue};
    OneEachByIndex(results, i, j);
    assert results[i].venue in {c.buyVenue, c.sellVenue} && results[j].venue in {c.buyVenue, c.sellVenue};
  }

  /** A venue that reports twice on one block is paired with itself. */
  lemma RepeatedVenueTradesWithItself(block: BlockEvent, quotes: IndexableQuotes)
    requires quotes.buy != [] && quotes.buy[0].err.None? && quotes.sell[0].err.None?
    ensures var r := VenueResult("v", block, quotes, None);
            exists c :: c in Expected([r, r]) && c.buyVenue == c.sellVenue
  {
    var r := VenueResult("v", block, quotes, None);
    var c := Trade(block, PartnerOf(r), PartnerOf(r), 0);
    assert [r, r][..1] == [r];
    assert Matched([r, r], 0, 1);
    assert FromRow(c, block, PartnerOf(r), PartnerOf(r), 0);
    assert FromPair(c, [r, r], 0, 1);
    EmittedIffFromPair([r, r], c);
  }

  /** Two matched results of one venue have a row of equal size that can be bought
      on one of them and sold on the other. */
  ghost predicate SelfTrade(results: seq<VenueResult>, i: int, j: int, row: int) {
    && Matched(results, i, j) && results[i].venue == results[j].venue
    && var q, q' := results[i].quotes, results[j].quotes;
       && 0 <= row < |q.buy| == |q'.buy| && q.buy[row].size == q'.buy[row].size
       && (|| (q.buy[row].err.None? && q'.sell[row].err.None?)
           || (q'.buy[row].err.None? && q.sell[row].err.None?))
  }

  lemma SelfTradeIsEmitted(results: seq<VenueResult>, i: int, j: int, row: int)
    requires SelfTrade(results, i, j, row)
    ensures exists c :: c in Expected(results) && c.buyVenue == c.sellVenue
  {
    var block, a, b := results[j].block, PartnerOf(results[j]), PartnerOf(results[i]);
    var c := if CleanRow(a, b, row) then Trade(block, a, b, row) else Trade(block, b, a, row);
    assert FromRow(c, block, a, b, row);
    hide Matched, Expected;
    assert FromPair(c, results, i, j);
    EmittedIffFromPair(results, c);
  }

  lemma SelfTradeBehind(results: seq<VenueResult>, c: CandidatePath)
    requires c in Expected(results) && c.buyVenue == c.sellVenue
    ensures exists i, j, row :: SelfTrade(results, i, j, row)
  {
    EmittedIffFromPair(results, c);
    hide Expected, Fresh, Latest;
    var i, j :| FromPair(c, results, i, j);
    var row :| FromRow(c, results[j].block, PartnerOf(results[j]), PartnerOf(results[i]), row);
    assert SelfTrade(results, i, j, row);
  }

  /** Over any stream of results, a venue is paired with itself exactly then. */
  lemma VenueTradesWithItselfIff(results: seq<VenueResult>, out: seq<CandidatePath>)
    requires Runs(results, out)
    ensures (exists c :: c in out && c.buyVenue == c.sellVenue) <==>
            exists i, j, row :: SelfTrade(results, i, j, row)
  {
    TraceIsExact(results, out);
    assert forall c :: c in out <==> c in multiset(out);
    hide Expected, SelfTrade, Runs;
    if c :| c in out && c.buyVenue == c.sellVenue {
      SelfTradeBehind(results, c);
    }
    if i, j, row :| SelfTrade(results, i, j, row) {
      SelfTradeIsEmitted(results, i, j, row);
    }
  }

  // ----- All pairs of one block

  /** What all unordered pairs of the partners yield. */
  function AllPairs(block: BlockEvent, ps: seq<Partner>): multiset<CandidatePath> {
    if ps == [] then multiset{}
    else
      var n := |ps| - 1;
      AllPairs(block, ps[..n]) + multiset(AgainstAll(block, ps[n], ps[..n]))
  }

  lemma RowIsSymmetric(block: BlockEvent, a: Partner, b: Partner, i: nat)
    requires i < |a.quotes.buy| == |b.quotes.buy|
    ensures multiset(Row(block, a, b, i)) == multiset(Row(block, b, a, i))
  {
  }

  lemma {:induction false} RowsAreSymmetric(block: BlockEvent, a: Partner, b: Partner, n: nat)
    requires n <= |a.quotes.buy| == |b.quotes.buy|
    ensures multiset(Rows(block, a, b, n)) == multiset(Rows(block, b, a, n))
  {
    hide Row;
    if n > 0 {
      RowsAreSymmetric(block, a, b, n - 1);
      RowIsSymmetric(block, a, b, n - 1);
    }
  }

  /** Both directions are tried, so it does not matter who reported last. */
  lemma PairsAreSymmetric(block: BlockEvent, a: Partner, b: Partner)
    ensures multiset(Pairs(block, a, b)) == multiset(Pairs(block, b, a))
  {
    if |a.quotes.buy| == |b.quotes.buy| {
      RowsAreSymmetric(block, a, b, |a.quotes.buy|);
    }
  }

  lemma {:induction false} AllPairsWithout(block: BlockEvent, ps: seq<Partner>, k: nat)
    requires k < |ps|
    ensures var less := ps[..k] + ps[k + 1..];
            AllPairs(block, ps) == AllPairs(block, less) + multiset(AgainstAll(block, ps[k], less))
  {
    hide AllPairs, AgainstAll, Pairs;
    var n := |ps| - 1;
    var less := ps[..k] + ps[k + 1..];
    AllPairsLast(block, ps);
    if k == n {
      assert less == ps[..n];
    } else {
      var init := ps[..n][..k] + ps[..n][k + 1..];
      assert less[..n - 1] == init && less[n - 1] == ps[n];
      AllPairsWithout(block, ps[..n], k);
      AllPairsLast(block, less);
      AgainstAllWithout(block, ps[n], ps[..n], k);
      AgainstLast(block, ps[k], less);
      PairsAreSymmetric(block, ps[n], ps[k]);
    }
  }

  lemma AllPairsLast(block: BlockEvent, ps: seq<Partner>)
    requires ps != []
    ensures var n := |ps| - 1;
            AllPairs(block, ps) == AllPairs(block, ps[..n]) + multiset(AgainstAll(block, ps[n], ps[..n]))
  {
  }

  lemma {:induction false} AllPairsPermuted(block: BlockEvent, ps: seq<Partner>, qs: seq<Partner>)
    requires multiset(ps) == multiset(qs)
    ensures AllPairs(block, ps) == AllPairs(block, qs)
    decreases |ps|
  {
    if ps == [] {
      assert |multiset(qs)| == 0;
    } else {
      var n := |ps| - 1;
      var k := PermutedRest(ps, qs);
      AllPairsPermuted(block, ps[..n], qs[..k] + qs[k + 1..]);
      AllPairsWithout(block, qs, k);
      AgainstAllPermuted(block, ps[n], ps[..n], qs[..k] + qs[k + 1..]);
    }
  }

  /** The venues that quoted the block without error, in order of arrival. */
  function CleanOn(results: seq<VenueResult>, n: int): seq<Partner> {
    if results == [] then []
    else
      var j := |results| - 1;
      CleanOn(results[..j], n) + IfClean(results[j], n)
  }

  function IfClean(r: VenueResult, n: int): seq<Partner> {
    if r.err.None? && r.block.number == n then [PartnerOf(r)] else []
  }

  lemma CleanOnLast(results: seq<VenueResult>, n: int)
    requires results != []
    ensures var j := |results| - 1;
            CleanOn(results, n) == CleanOn(results[..j], n) + IfClean(results[j], n)
  {
  }

  lemma {:induction false} CleanOnWithout(results: seq<VenueResult>, n: int, k: nat)
    requires k < |results|
    ensures multiset(CleanOn(results, n)) ==
            multiset(CleanOn(results[..k] + results[k + 1..], n)) + multiset(IfClean(results[k], n))
  {
    hide CleanOn, IfClean;
    var j := |results| - 1;
    var less := results[..k] + results[k + 1..];
    CleanOnLast(results, n);
    if k == j {
      assert less == results[..j];
    } else {
      CleanOnWithout(results[..j], n, k);
      CleanOnLast(less, n);
      assert less[..j - 1] == results[..j][..k] + results[..j][k + 1..];
      assert less[j - 1] == results[j];
    }
  }

  lemma {:induction false} CleanOnPermuted(results: seq<VenueResult>, others: seq<VenueResult>, n: int)
    requires multiset(results) == multiset(others)
    ensures multiset(CleanOn(results, n)) == multiset(CleanOn(others, n))
    decreases |results|
  {
    if results == [] {
      assert |multiset(others)| == 0;
    } else {
      var j := |results| - 1;
      var k := PermutedRest(results, others);
      CleanOnPermuted(results[..j], others[..k] + others[k + 1..], n);
      CleanOnWithout(others, n, k);
    }
  }

  // ----- One block of a run

  function OnBlock(out: seq<CandidatePath>, n: int): seq<CandidatePath> {
    if out == [] then []
    else
      var k := |out| - 1;
      OnBlock(out[..k], n) + (if out[k].block.number == n then [out[k]] else [])
  }

  lemma CountOfLast<T>(s: seq<T>, x: T)
    requires s != []
    ensures multiset(s)[x] == multiset(s[..|s| - 1])[x] + if s[|s| - 1] == x then 1 else 0
  {
    var k := |s| - 1;
    assert s == s[..k] + [s[k]];
  }

  lemma OnBlockLast(out: seq<CandidatePath>, n: int, c: CandidatePath)
    requires out != []
    ensures var k := |out| - 1;
            multiset(OnBlock(out, n))[c] ==
            multiset(OnBlock(out[..k], n))[c] + if out[k] == c && c.block.number == n then 1 else 0
  {
    var k := |out| - 1;
    if out[k].block.number == n {
      var on := OnBlock(out, n);
      CountOfLast(on, c);
      assert on[..|on| - 1] == OnBlock(out[..k], n);
    }
  }

  lemma {:induction false} OnBlockCount(out: seq<CandidatePath>, n: int, c: CandidatePath)
    ensures multiset(OnBlock(out, n))[c] == if c.block.number == n then multiset(out)[c] else 0
  {
    if out != [] {
      OnBlockLast(out, n, c);
      CountOfLast(out, c);
      OnBlockCount(out[..|out| - 1], n, c);
      hide OnBlock;
    }
  }

  /** When a clean result on the block arrives in time, its partners are all the
      venues that were clean before. */
  lemma {:induction false} PartnersAreCleanOn(results: seq<VenueResult>, j: nat, m: nat)
    requires OneEach(results) && m <= j < |results| && results[j].err.None? && Fresh(results, j)
    ensures Partners(results, j, m) == CleanOn(results[..m], results[j].block.number)
  {
    if m > 0 {
      PartnersAreCleanOn(results, j, m - 1);
      MatchedUnlessStale(results, m - 1, j);
      assert results[..m][..m - 1] == results[..m - 1];
    }
  }

  /** What a run emits for a block is what its pairs yield, at most; and all of
      it for the freshest block. */
  lemma {:induction false} ExpectedOnBlock(results: seq<VenueResult>, block: BlockEvent, c: CandidatePath)
    requires OneEach(results) && c.block.number == block.number
    requires forall r :: r in results && r.block.number == block.number ==> r.block == block
    ensures Expected(results)[c] <= AllPairs(block, CleanOn(results, block.number))[c]
    ensures block.number >= MaxBlock(results) ==>
              Expected(results)[c] == AllPairs(block, CleanOn(results, block.number))[c]
  {
    if results != [] {
      var j := |results| - 1;
      assert forall r :: r in results[..j] ==> r in results;
      OneEachPrefix(results);
      LastStepAdds(results, block);
      LastOnBlock(results, block, c);
      MaxBlockStep(results);
      hide *;
      ExpectedOnBlock(results[..j], block, c);
    }
  }

  /** What the last result adds to the emitted candidates. */
  ghost function Added(results: seq<VenueResult>): multiset<CandidatePath>
    requires results != []
  {
    var j := |results| - 1;
    multiset(AgainstAll(results[j].block, PartnerOf(results[j]), Partners(results, j, j)))
  }

  /** What the last result adds to the pairs of a block. */
  function AddedPairs(results: seq<VenueResult>, block: BlockEvent): multiset<CandidatePath>
    requires results != []
  {
    var j := |results| - 1;
    if results[j].err.None? && results[j].block.number == block.number then
      multiset(AgainstAll(block, PartnerOf(results[j]), CleanOn(results[..j], block.number)))
    else multiset{}
  }

  lemma LastStepAdds(results: seq<VenueResult>, block: BlockEvent)
    requires results != []
    ensures var j := |results| - 1;
            && Expected(results) == Expected(results[..j]) + Added(results)
            && AllPairs(block, CleanOn(results, block.number)) ==
               AllPairs(block, CleanOn(results[..j], block.number)) + AddedPairs(results, block)
  {
    var j := |results| - 1;
    hide AgainstAll, Partners, AllPairs, CleanOn;
    CleanOnLast(results, block.number);
    var before, all := CleanOn(results[..j], block.number), CleanOn(results, block.number);
    if results[j].err.None? && results[j].block.number == block.number {
      assert all[..|all| - 1] == before && all[|all| - 1] == PartnerOf(results[j]);
      AllPairsLast(block, all);
    } else {
      assert all == before;
    }
  }

  lemma LastOnBlock(results: seq<VenueResult>, block: BlockEvent, c: CandidatePath)
    requires OneEach(results) && c.block.number == block.number && results != []
    requires forall r :: r in results && r.block.number == block.number ==> r.block == block
    ensures Added(results)[c] <= AddedPairs(results, block)[c]
    ensures block.number >= MaxBlock(results) ==> Added(results)[c] == AddedPairs(results, block)[c]
  {
    var j := |results| - 1;
    var r := results[j];
    hide AgainstAll, Partners, CleanOn, MaxBlock;
    if r.block.number != block.number {
      ForeignBlock(r, Partners(results, j, j), c);
    } else if r.err.Some? {
      NeverMatched(results, j);
    } else if Fresh(results, j) {
      assert r in results;
      PartnersAreCleanOn(results, j, j);
    } else {
      NeverMatched(results, j);
      MaxBlockBounds(results);
    }
  }

  lemma ForeignBlock(r: VenueResult, others: seq<Partner>, c: CandidatePath)
    requires c.block.number != r.block.number
    ensures multiset(AgainstAll(r.block, PartnerOf(r), others))[c] == 0
  {
    if c in AgainstAll(r.block, PartnerOf(r), others) {
      BlockOfCandidate(c, r.block, PartnerOf(r), others);
    }
  }

  lemma NeverMatched(results: seq<VenueResult>, j: nat)
    requires j < |results| && (results[j].err.Some? || !Fresh(results, j))
    ensures AgainstAll(results[j].block, PartnerOf(results[j]), Partners(results, j, j)) == []
  {
    NothingMatched(results, j, j);
  }

  /** The candidates for the freshest block are those of all pairs of venues
      that were clean on it, in any run over the results. */
  lemma FreshestBlockIsComplete(results: seq<VenueResult>, out: seq<CandidatePath>, block: BlockEvent)
    requires OneEach(results) && Runs(results, out) && block.number == MaxBlock(results)
    requires forall r :: r in results && r.block.number == block.number ==> r.block == block
    ensures multiset(OnBlock(out, block.number)) == AllPairs(block, CleanOn(results, block.number))
  {
    TraceIsExact(results, out);
    forall c
      ensures multiset(OnBlock(out, block.number))[c] == AllPairs(block, CleanOn(results, block.number))[c]
    {
      OnBlockCount(out, block.number, c);
      if c.block.number == block.number {
        ExpectedOnBlock(results, block, c);
      } else {
        AllPairsBlock(block, CleanOn(results, block.number), c);
      }
    }
  }

  lemma {:induction false} AllPairsBlock(block: BlockEvent, ps: seq<Partner>, c: CandidatePath)
    ensures c in AllPairs(block, ps) ==> c.block == block
  {
    if ps != [] {
      var n := |ps| - 1;
      AllPairsBlock(block, ps[..n], c);
      if c in AgainstAll(block, ps[n], ps[..n]) {
        BlockOfCandidate(c, block, ps[n], ps[..n]);
      }
    }
  }

  /** Two runs over the same results in different orders, with any iteration
      order of the stored venues, emit the same for the freshest block. */
  lemma ArrivalOrderDoesNotMatter(results: seq<VenueResult>, out: seq<CandidatePath>,
                                  others: seq<VenueResult>, out': seq<CandidatePath>, n: nat)
    requires OneEach(results) && multiset(results) == multiset(others)
    requires Runs(results, out) && Runs(others, out')
    requires n == MaxBlock(results)
    ensures n == MaxBlock(others)
    ensures multiset(OnBlock(out, n)) == multiset(OnBlock(out', n))
  {
    SameMax(results, others);
    PermutedMembers(results, others);
    if results == [] {
      EmptyRun(results, out);
      EmptyRun(others, out');
    } else {
      OneEachPermuted(results, others);
      var block := EventOf(results);
      hide *;
      FreshestBlockIsComplete(results, out, block);
      FreshestBlockIsComplete(others, out', block);
      CleanOnPermuted(results, others, n);
      AllPairsPermuted(block, CleanOn(results, n), CleanOn(others, n));
    }
  }

  /** The event all results of the freshest block carry. */
  lemma EventOf(results: seq<VenueResult>) returns (block: BlockEvent)
    requires OneEach(results) && results != []
    ensures block.number == MaxBlock(results)
    ensures forall r :: r in results && r.block.number == block.number ==> r.block == block
  {
    MaxBlockBounds(results);
    var i :| 0 <= i < |results| && results[i].block.number == MaxBlock(results);
    block := results[i].block;
    assert results[i] in results;
  }

  lemma SameMax(results: seq<VenueResult>, others: seq<VenueResult>)
    requires multiset(results) == multiset(others)
    ensures MaxBlock(results) == MaxBlock(others)
  {
    PermutedMembers(results, others);
    MaxIsMember(results);
    MaxIsMember(others);
  }

  lemma MaxIsMember(results: seq<VenueResult>)
    ensures forall r :: r in results ==> r.block.number <= MaxBlock(results)
    ensures results == [] ==> MaxBlock(results) == 0
    ensures results != [] ==> exists r :: r in results && r.block.number == MaxBlock(results)
  {
    MaxBlockBounds(results);
    if results != [] {
      var i :| 0 <= i < |results| && results[i].block.number == MaxBlock(results);
      assert results[i] in results;
    }
  }
}
