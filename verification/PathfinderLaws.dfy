/** Consequences of the exact characterisation: provenance, order, staleness and
    independence of the arrival order (internal/pathfinder/pathfinder.go). */
module PathfinderLaws {
  import opened Pricing
  import opened Messages
  import opened Pathfinder
  import opened PathfinderTraces

  // ----- Where a candidate comes from

  /** A clean row of equal size, bought on one of the two and sold on the other. */
  ghost predicate FromRow(c: CandidatePath, block: BlockEvent, a: Partner, b: Partner, i: int) {
    && 0 <= i < |a.quotes.buy| == |b.quotes.buy|
    && a.quotes.buy[i].size == b.quotes.buy[i].size
    && (|| (CleanRow(a, b, i) && c == Trade(block, a, b, i))
        || (CleanRow(b, a, i) && c == Trade(block, b, a, i)))
  }

  lemma RowMembers(c: CandidatePath, block: BlockEvent, a: Partner, b: Partner, i: nat)
    requires i < |a.quotes.buy| == |b.quotes.buy|
    ensures c in Row(block, a, b, i) <==> FromRow(c, block, a, b, i)
  {
  }

  lemma InLastRowOrBefore(c: CandidatePath, block: BlockEvent, a: Partner, b: Partner, n: nat)
    requires n <= |a.quotes.buy| == |b.quotes.buy|
    ensures n == 0 ==> c !in Rows(block, a, b, n)
    ensures n > 0 ==> (c in Rows(block, a, b, n) <==> c in Rows(block, a, b, n - 1) || c in Row(block, a, b, n - 1))
  {
    hide Row;
  }

  lemma {:induction false} RowsMembers(c: CandidatePath, block: BlockEvent, a: Partner, b: Partner, n: nat)
    requires n <= |a.quotes.buy| == |b.quotes.buy|
    ensures c in Rows(block, a, b, n) <==> exists i :: 0 <= i < n && FromRow(c, block, a, b, i)
  {
    hide FromRow, Row, Rows;
    InLastRowOrBefore(c, block, a, b, n);
    if n > 0 {
      RowsMembers(c, block, a, b, n - 1);
      RowMembers(c, block, a, b, n - 1);
    }
  }

  lemma PairsMembers(c: CandidatePath, block: BlockEvent, a: Partner, b: Partner)
    ensures c in Pairs(block, a, b) <==> exists i :: FromRow(c, block, a, b, i)
  {
    if |a.quotes.buy| == |b.quotes.buy| {
      RowsMembers(c, block, a, b, |a.quotes.buy|);
    }
  }

  /** Two partners quoted for one list of sizes never lose a row: each that is clean
      in a direction yields the trade of its size, whoever reports last. */
  lemma AlignedRowsAreKept(block: BlockEvent, buyer: Partner, seller: Partner, sizes: seq<real>, i: nat)
    requires buyer.quotes.AlignedTo(sizes) && seller.quotes.AlignedTo(sizes)
    requires i < |sizes| && CleanRow(buyer, seller, i)
    ensures var trade := Trade(block, buyer, seller, i);
            && trade.size == sizes[i]
            && trade in Pairs(block, buyer, seller) && trade in Pairs(block, seller, buyer)
  {
    var trade := Trade(block, buyer, seller, i);
    PairsMembers(trade, block, buyer, seller);
    PairsMembers(trade, block, seller, buyer);
    assert FromRow(trade, block, buyer, seller, i) && FromRow(trade, block, seller, buyer, i);
  }

  lemma {:induction false} AgainstAllMembers(c: CandidatePath, block: BlockEvent, a: Partner, others: seq<Partner>)
    ensures c in AgainstAll(block, a, others) <==> exists p :: p in others && c in Pairs(block, a, p)
  {
    hide Pairs;
    if others != [] {
      var n := |others| - 1;
      AgainstAllMembers(c, block, a, others[..n]);
      assert others == others[..n] + [others[n]];
    }
  }

  lemma BlockOfCandidate(c: CandidatePath, block: BlockEvent, a: Partner, others: seq<Partner>)
    requires c in AgainstAll(block, a, others)
    ensures c.block == block
  {
    AgainstAllMembers(c, block, a, others);
    var p :| p in others && c in Pairs(block, a, p);
    PairsMembers(c, block, a, p);
  }

  /** A candidate of a pair of results: a clean row of both. */
  ghost predicate FromPair(c: CandidatePath, results: seq<VenueResult>, i: int, j: int) {
    && Matched(results, i, j)
    && exists row :: FromRow(c, results[j].block, PartnerOf(results[j]), PartnerOf(results[i]), row)
  }

  lemma MatchedPrefix(results: seq<VenueResult>, n: nat, i: int, j: int)
    requires j < n <= |results|
    ensures Matched(results[..n], i, j) <==> Matched(results, i, j)
  {
    if 0 <= i < j {
      assert results[..n][..j] == results[..j];
    }
  }

  /** Soundness and completeness: a candidate is emitted exactly when it is a
      clean row of two matched results. */
  lemma {:induction false} EmittedIffFromPair(results: seq<VenueResult>, c: CandidatePath)
    ensures c in Expected(results) <==> exists i, j :: FromPair(c, results, i, j)
  {
    if results != [] {
      var n := |results| - 1;
      EmittedIffFromPair(results[..n], c);
      LastContribution(results, c);
      hide Expected, Matched, FromRow, AgainstAll, Partners;
      forall i, j | FromPair(c, results[..n], i, j)
        ensures FromPair(c, results, i, j)
      {
        MatchedInRange(results[..n], i, j);
        MatchedPrefix(results, n, i, j);
      }
      forall i, j | FromPair(c, results, i, j)
        ensures j == n || FromPair(c, results[..n], i, j)
      {
        MatchedInRange(results, i, j);
        if j < n {
          MatchedPrefix(results, n, i, j);
        }
      }
    }
  }

  lemma MatchedInRange(results: seq<VenueResult>, i: int, j: int)
    requires Matched(results, i, j)
    ensures 0 <= i < j < |results| && results[i].err.None? && results[j].err.None?
    ensures results[i].block.number == results[j].block.number
  {
  }

  lemma LastContribution(results: seq<VenueResult>, c: CandidatePath)
    requires results != []
    ensures var n := |results| - 1;
            c in Expected(results) <==> c in Expected(results[..n]) || exists i :: FromPair(c, results, i, n)
  {
    hide Pairs, FromRow, Partners, AgainstAll, Matched;
    var n := |results| - 1;
    var me := PartnerOf(results[n]);
    PartnersAreMatched(results, n, n);
    AgainstAllMembers(c, results[n].block, me, Partners(results, n, n));
    assert c in Expected(results) <==>
           c in Expected(results[..n]) || c in AgainstAll(results[n].block, me, Partners(results, n, n));
    forall i | FromPair(c, results, i, n)
      ensures c in AgainstAll(results[n].block, me, Partners(results, n, n))
    {
      MatchedInRange(results, i, n);
      PairsMembers(c, results[n].block, me, PartnerOf(results[i]));
      assert PartnerOf(results[i]) in Partners(results, n, n);
    }
    if c in AgainstAll(results[n].block, me, Partners(results, n, n)) {
      var p :| p in Partners(results, n, n) && c in Pairs(results[n].block, me, p);
      PairsMembers(c, results[n].block, me, p);
      var i :| 0 <= i < n && Matched(results, i, n) && PartnerOf(results[i]) == p;
      assert FromPair(c, results, i, n);
    }
  }

  /** Every emitted candidate combines two clean results about its own block. */
  lemma NoCandidateMixesBlocks(results: seq<VenueResult>, out: seq<CandidatePath>, c: CandidatePath)
    requires Runs(results, out) && c in out
    ensures exists i, j :: && FromPair(c, results, i, j)
                           && 0 <= i < j < |results|
                           && results[i].block.number == results[j].block.number == c.block.number
                           && {c.buyVenue, c.sellVenue} == {results[i].venue, results[j].venue}
  {
    TraceIsExact(results, out);
    assert c in multiset(out);
    EmittedIffFromPair(results, c);
    hide Expected, Runs, Matched;
    var i, j :| FromPair(c, results, i, j);
    MatchedInRange(results, i, j);
    var row :| FromRow(c, results[j].block, PartnerOf(results[j]), PartnerOf(results[i]), row);
  }

  /** Row i of both results: the candidate buys at the buyer's clean ask and sells
      at the seller's clean bid, and its gas is the sum of both unless it wraps. */
  ghost predicate PricedBy(c: CandidatePath, buyer: VenueResult, seller: VenueResult, i: int) {
    && c.buyVenue == buyer.venue && c.sellVenue == seller.venue
    && 0 <= i < |buyer.quotes.buy| == |seller.quotes.buy| && i < |seller.quotes.sell|
    && var ask, bid := buyer.quotes.buy[i], seller.quotes.sell[i];
       && ask.err.None? && bid.err.None?
       && c.buyPrice == ask.price && c.sellPrice == bid.price
       && c.size == ask.size == seller.quotes.buy[i].size
       && (ask.gas + bid.gas < UINT64_RANGE ==> c.gas == ask.gas + bid.gas)
       && ((exists sizes :: seller.quotes.AlignedTo(sizes)) ==> c.size == bid.size)
  }

  lemma RowIsPriced(c: CandidatePath, r: VenueResult, r': VenueResult, i: int)
    requires FromRow(c, r.block, PartnerOf(r), PartnerOf(r'), i)
    ensures PricedBy(c, r, r', i) || PricedBy(c, r', r, i)
  {
    forall sizes, q: Quotes | q.AlignedTo(sizes) && i < |q.buy|
      ensures q.buy[i].size == q.sell[i].size
    {
    }
  }

  /** Every emitted candidate is priced by two error-free results on its block. */
  lemma EveryCandidateIsPriced(results: seq<VenueResult>, out: seq<CandidatePath>, c: CandidatePath)
    requires Runs(results, out) && c in out
    ensures exists buyer, seller, i :: && buyer in results && seller in results && PricedBy(c, buyer, seller, i)
                                       && buyer.err.None? && seller.err.None?
                                       && buyer.block.number == seller.block.number == c.block.number
  {
    NoCandidateMixesBlocks(results, out, c);
    hide Runs, Matched, PricedBy, FromRow;
    var i, j :| && FromPair(c, results, i, j)
                && 0 <= i < j < |results|
                && results[i].block.number == results[j].block.number == c.block.number
                && {c.buyVenue, c.sellVenue} == {results[i].venue, results[j].venue};
    MatchedInRange(results, i, j);
    var row :| FromRow(c, results[j].block, PartnerOf(results[j]), PartnerOf(results[i]), row);
    RowIsPriced(c, results[j], results[i], row);
    assert results[i] in results && results[j] in results;
  }

  // ----- Order of the output

  /** Block numbers never decrease. */
  ghost predicate InBlockOrder(out: seq<CandidatePath>) {
    forall x, y :: 0 <= x < y < |out| ==> out[x].block.number <= out[y].block.number
  }

  lemma {:induction false} OfferedInBlockOrder(results: seq<VenueResult>, out: seq<CandidatePath>)
    requires Runs(results, out)
    ensures InBlockOrder(out)
    ensures forall x :: 0 <= x < |out| ==> out[x].block.number <= MaxBlock(results)
    ensures StateAfter(results).currentBlock == MaxBlock(results)
    decreases |results|
  {
    EmptyRun(results, out);
    hide *;
    StateRemembers(results);
    RemembersMax(StateAfter(results), results);
    if results == [] {
      NothingInOrder(out);
    } else {
      var j := |results| - 1;
      var k := LastStep(results, out);
      OfferedInBlockOrder(results[..j], out[..k]);
      EmittedBlock(StateAfter(results[..j]), results[j], out[k..]);
      MaxBlockStep(results);
      StateRemembers(results[..j]);
      RemembersMax(StateAfter(results[..j]), results[..j]);
      OrderedSplit(out, k, MaxBlock(results[..j]), results[j].block.number);
    }
  }

  lemma NothingInOrder(out: seq<CandidatePath>)
    ensures out == [] ==> InBlockOrder(out)
  {
  }

  lemma FromInterleaved(all: seq<CandidatePath>, sent: seq<CandidatePath>, dropped: seq<CandidatePath>, x: nat)
    requires Interleaves(all, sent, dropped) && x < |sent|
    ensures sent[x] in all
  {
    InterleavedCounts(all, sent, dropped);
    hide Interleaves;
    assert multiset(sent)[sent[x]] > 0;
    assert sent[x] in multiset(all);
  }

  /** Dropping candidates keeps the others in order. */
  lemma {:induction false} SentInBlockOrder(all: seq<CandidatePath>, sent: seq<CandidatePath>,
                                            dropped: seq<CandidatePath>)
    requires Interleaves(all, sent, dropped) && InBlockOrder(all)
    ensures InBlockOrder(sent)
    decreases |all|
  {
    if all != [] {
      var n, m := |all| - 1, |sent| - 1;
      if sent != [] && sent[m] == all[n] && Interleaves(all[..n], sent[..m], dropped) {
        SentInBlockOrder(all[..n], sent[..m], dropped);
        forall x: nat | x < m
          ensures sent[x].block.number <= sent[m].block.number
        {
          FromInterleaved(all[..n], sent[..m], dropped, x);
          hide Interleaves;
          var y :| 0 <= y < n && all[..n][y] == sent[..m][x];
        }
        hide Interleaves;
        assert forall x, y :: 0 <= x < y < m ==> sent[x] == sent[..m][x] && sent[y] == sent[..m][y];
      } else {
        SentInBlockOrder(all[..n], sent, dropped[..|dropped| - 1]);
      }
    }
  }

  /** Block numbers never decrease along what is sent, cancelled or not, and never
      exceed the current block, which is the maximum so far. */
  lemma OutputIsBlockOrdered(results: seq<VenueResult>, offered: seq<CandidatePath>,
                             sent: seq<CandidatePath>, dropped: seq<CandidatePath>)
    requires Runs(results, offered) && Interleaves(offered, sent, dropped)
    ensures InBlockOrder(sent)
    ensures forall x :: 0 <= x < |sent| ==> sent[x].block.number <= MaxBlock(results)
    ensures StateAfter(results).currentBlock == MaxBlock(results)
  {
    hide Runs, Interleaves, InBlockOrder, MaxBlock, StateAfter;
    OfferedInBlockOrder(results, offered);
    SentInBlockOrder(offered, sent, dropped);
    forall x: nat | x < |sent|
      ensures sent[x].block.number <= MaxBlock(results)
    {
      FromInterleaved(offered, sent, dropped, x);
      var y :| 0 <= y < |offered| && offered[y] == sent[x];
    }
  }

  lemma OrderedSplit(out: seq<CandidatePath>, k: nat, max: nat, n: nat)
    requires k <= |out|
    requires InBlockOrder(out[..k])
    requires forall x :: 0 <= x < k ==> out[..k][x].block.number <= max
    requires forall x :: 0 <= x < |out| - k ==> out[k..][x].block.number == n >= max
    ensures InBlockOrder(out)
    ensures forall x :: 0 <= x < |out| ==> out[x].block.number <= max || out[x].block.number == n
  {
    assert forall x :: 0 <= x < k ==> out[x] == out[..k][x];
    assert forall x :: k <= x < |out| ==> out[x] == out[k..][x - k];
  }

  lemma EmittedBlock(s: State, r: VenueResult, emitted: seq<CandidatePath>)
    requires Emits(s, r, emitted)
    ensures forall x :: 0 <= x < |emitted| ==> emitted[x].block == r.block && r.block.number >= s.currentBlock
  {
    hide AgainstAll;
    if r.block.number >= s.currentBlock && r.err.None? {
      var partners :| Enumerates(partners, Advance(s, r.block.number).venueQuotes)
                   && emitted == AgainstAll(r.block, PartnerOf(r), partners);
      forall x | 0 <= x < |emitted|
        ensures emitted[x].block == r.block
      {
        BlockOfCandidate(emitted[x], r.block, PartnerOf(r), partners);
      }
    }
  }

  // ----- Stale results

  /** The results that are not stale when they arrive. */
  function Live(results: seq<VenueResult>): seq<VenueResult> {
    if results == [] then []
    else
      var n := |results| - 1;
      Live(results[..n]) + (if results[n].block.number < MaxBlock(results[..n]) then [] else [results[n]])
  }

  /** Dropping every stale result from the input changes neither the state nor
      what may be emitted. */
  lemma {:induction false} StaleResultsAreInvisible(results: seq<VenueResult>, out: seq<CandidatePath>)
    ensures StateAfter(Live(results)) == StateAfter(results)
    ensures Runs(Live(results), out) <==> Runs(results, out)
    decreases |results|
  {
    if results != [] {
      var n := |results| - 1;
      var r, s := results[n], StateAfter(results[..n]);
      forall k | 0 <= k <= |out|
        ensures Runs(Live(results[..n]), out[..k]) <==> Runs(results[..n], out[..k])
      {
        StaleResultsAreInvisible(results[..n], out[..k]);
      }
      StaleResultsAreInvisible(results[..n], []);
      StateRemembers(results[..n]);
      if r.block.number < MaxBlock(results[..n]) {
        DroppedResult(results, out);
        assert out[..|out|] == out;
        assert Live(results) == Live(results[..n]);
      } else {
        assert Live(results)[..|Live(results)| - 1] == Live(results[..n]);
      }
    }
  }

  lemma DroppedResult(results: seq<VenueResult>, out: seq<CandidatePath>)
    requires results != [] && results[|results| - 1].block.number < StateAfter(results[..|results| - 1]).currentBlock
    ensures StateAfter(results) == StateAfter(results[..|results| - 1])
    ensures Runs(results, out) <==> Runs(results[..|results| - 1], out)
  {
    var n := |results| - 1;
    if Runs(results, out) {
      var k := LastStep(results, out);
      assert out[..k] == out;
    }
    if Runs(results[..n], out) {
      assert out[..|out|] == out && out[|out|..] == [];
    }
  }
}
