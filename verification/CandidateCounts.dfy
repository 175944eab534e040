/** How many candidates one block can yield (internal/pathfinder/pathfinder.go). */
module CandidateCounts {
  import opened Messages
  import opened Pathfinder
  import opened PathfinderTraces
  import opened ArrivalOrder

  /** Every row of the venue is clean and about the given sizes. */
  ghost predicate CleanAndAligned(p: Partner, sizes: seq<real>) {
    && p.quotes.AlignedTo(sizes)
    && forall i :: 0 <= i < |sizes| ==> p.quotes.buy[i].err.None? && p.quotes.sell[i].err.None?
  }

  lemma {:induction false} RowsCount(block: BlockEvent, a: Partner, b: Partner, n: nat)
    requires n <= |a.quotes.buy| == |b.quotes.buy|
    ensures |Rows(block, a, b, n)| <= 2 * n
    ensures (forall i :: 0 <= i < n ==>
               a.quotes.buy[i].size == b.quotes.buy[i].size && CleanRow(a, b, i) && CleanRow(b, a, i)) ==>
              |Rows(block, a, b, n)| == 2 * n
  {
    if n > 0 {
      RowsCount(block, a, b, n - 1);
    }
  }

  lemma PairsCount(block: BlockEvent, a: Partner, b: Partner, sizes: seq<real>)
    requires |a.quotes.buy| <= |sizes|
    ensures |Pairs(block, a, b)| <= 2 * |sizes|
    ensures CleanAndAligned(a, sizes) && CleanAndAligned(b, sizes) ==> |Pairs(block, a, b)| == 2 * |sizes|
  {
    if |a.quotes.buy| == |b.quotes.buy| {
      RowsCount(block, a, b, |a.quotes.buy|);
    }
  }

  lemma {:induction false} AgainstAllCount(block: BlockEvent, a: Partner, others: seq<Partner>, sizes: seq<real>)
    requires |a.quotes.buy| <= |sizes|
    ensures |AgainstAll(block, a, others)| <= 2 * |sizes| * |others|
    ensures CleanAndAligned(a, sizes) && (forall p :: p in others ==> CleanAndAligned(p, sizes)) ==>
              |AgainstAll(block, a, others)| == 2 * |sizes| * |others|
  {
    hide Pairs, CleanAndAligned;
    if others != [] {
      var n := |others| - 1;
      AgainstAllCount(block, a, others[..n], sizes);
      PairsCount(block, a, others[n], sizes);
      assert 2 * |sizes| * |others| == 2 * |sizes| * n + 2 * |sizes|;
    }
  }

  lemma {:induction false} AllPairsCount(block: BlockEvent, ps: seq<Partner>, sizes: seq<real>)
    requires forall p :: p in ps ==> |p.quotes.buy| <= |sizes|
    ensures |AllPairs(block, ps)| <= |sizes| * (|ps| * (|ps| - 1))
    ensures (forall p :: p in ps ==> CleanAndAligned(p, sizes)) ==>
              |AllPairs(block, ps)| == |sizes| * (|ps| * (|ps| - 1))
  {
    hide AgainstAll, CleanAndAligned;
    if ps != [] {
      var n := |ps| - 1;
      AllPairsCount(block, ps[..n], sizes);
      AgainstAllCount(block, ps[n], ps[..n], sizes);
      CountStep(|sizes|, n);
      assert |multiset(AgainstAll(block, ps[n], ps[..n]))| == |AgainstAll(block, ps[n], ps[..n])|;
    }
  }

  lemma CountStep(s: nat, n: nat)
    ensures s * (n * (n - 1)) + 2 * s * n == s * ((n + 1) * n)
  {
  }

  lemma {:induction false} DistinctVenues(ps: seq<Partner>, venues: set<string>)
    requires forall i, j :: 0 <= i < j < |ps| ==> ps[i].venue != ps[j].venue
    requires forall p :: p in ps ==> p.venue in venues
    ensures |ps| <= |venues|
    ensures (forall v :: v in venues ==> exists p :: p in ps && p.venue == v) ==> |ps| == |venues|
    decreases |ps|
  {
    if ps == [] {
      if venues != {} {
        var v :| v in venues;
        assert forall p :: p !in ps;
      }
    } else {
      var n := |ps| - 1;
      var fewer := venues - {ps[n].venue};
      forall p | p in ps[..n]
        ensures p.venue in fewer
      {
        var i :| 0 <= i < n && ps[i] == p;
      }
      DistinctVenues(ps[..n], fewer);
      if forall v :: v in venues ==> exists p :: p in ps && p.venue == v {
        forall v | v in fewer
          ensures exists p :: p in ps[..n] && p.venue == v
        {
          var p :| p in ps && p.venue == v;
          assert p in ps[..n];
        }
      }
      assert venues == fewer + {ps[n].venue};
    }
  }

  lemma {:induction false} CleanOnMembers(results: seq<VenueResult>, n: int)
    ensures forall p :: p in CleanOn(results, n) <==>
              exists r :: r in results && r.err.None? && r.block.number == n && PartnerOf(r) == p
  {
    if results != [] {
      var j := |results| - 1;
      CleanOnMembers(results[..j], n);
      CleanOnLast(results, n);
      assert results == results[..j] + [results[j]];
      hide CleanOn;
    }
  }

  lemma {:induction false} CleanOnDistinct(results: seq<VenueResult>, n: int)
    requires OneEach(results)
    ensures forall i, k :: 0 <= i < k < |CleanOn(results, n)| ==>
              CleanOn(results, n)[i].venue != CleanOn(results, n)[k].venue
  {
    if results != [] {
      var j := |results| - 1;
      var before := CleanOn(results[..j], n);
      OneEachPrefix(results);
      CleanOnDistinct(results[..j], n);
      CleanOnMembers(results[..j], n);
      if results[j].err.None? && results[j].block.number == n {
        forall i | 0 <= i < |before|
          ensures before[i].venue != results[j].venue
        {
          assert before[i] in before;
          var r :| r in results[..j] && r.err.None? && r.block.number == n && PartnerOf(r) == before[i];
          var k :| 0 <= k < j && results[k] == r;
          OneEachByIndex(results, k, j);
        }
      }
    }
  }

  lemma SubmultisetCount<T>(a: multiset<T>, b: multiset<T>)
    requires forall x :: a[x] <= b[x]
    ensures |a| <= |b|
  {
    assert a <= b;
    assert b == a + (b - a);
  }

  /** With V venues and S sizes no block yields more than V (V - 1) S candidates. */
  lemma AtMostAllPairs(results: seq<VenueResult>, out: seq<CandidatePath>, block: BlockEvent,
                       venues: set<string>, sizes: seq<real>)
    requires OneEach(results) && Runs(results, out)
    requires forall r :: r in results ==> r.venue in venues && |r.quotes.buy| <= |sizes|
    requires forall r :: r in results && r.block.number == block.number ==> r.block == block
    ensures |OnBlock(out, block.number)| <= |sizes| * (|venues| * (|venues| - 1))
  {
    CleanPartners(results, block.number, venues, sizes);
    OnBlockAtMost(results, out, block);
    hide *;
    PartnersCount(block, CleanOn(results, block.number), venues, sizes);
  }

  lemma CleanPartners(results: seq<VenueResult>, n: int, venues: set<string>, sizes: seq<real>)
    requires OneEach(results)
    requires forall r :: r in results ==> r.venue in venues && |r.quotes.buy| <= |sizes|
    ensures var ps := CleanOn(results, n);
            && (forall i, j :: 0 <= i < j < |ps| ==> ps[i].venue != ps[j].venue)
            && (forall p :: p in ps ==> p.venue in venues && |p.quotes.buy| <= |sizes|)
  {
    CleanOnMembers(results, n);
    CleanOnDistinct(results, n);
  }

  lemma PartnersCount(block: BlockEvent, ps: seq<Partner>, venues: set<string>, sizes: seq<real>)
    requires forall i, j :: 0 <= i < j < |ps| ==> ps[i].venue != ps[j].venue
    requires forall p :: p in ps ==> p.venue in venues && |p.quotes.buy| <= |sizes|
    ensures |AllPairs(block, ps)| <= |sizes| * (|venues| * (|venues| - 1))
  {
    hide *;
    DistinctVenues(ps, venues);
    AllPairsCount(block, ps, sizes);
    SquareMonotone(|sizes|, |ps|, |venues|);
  }

  lemma OnBlockAtMost(results: seq<VenueResult>, out: seq<CandidatePath>, block: BlockEvent)
    requires OneEach(results) && Runs(results, out)
    requires forall r :: r in results && r.block.number == block.number ==> r.block == block
    ensures |OnBlock(out, block.number)| <= |AllPairs(block, CleanOn(results, block.number))|
  {
    TraceIsExact(results, out);
    forall c
      ensures multiset(OnBlock(out, block.number))[c] <= AllPairs(block, CleanOn(results, block.number))[c]
    {
      OnBlockCount(out, block.number, c);
      if c.block.number == block.number {
        ExpectedOnBlock(results, block, c);
      }
    }
    SubmultisetCount(multiset(OnBlock(out, block.number)), AllPairs(block, CleanOn(results, block.number)));
    assert |multiset(OnBlock(out, block.number))| == |OnBlock(out, block.number)|;
  }

  lemma PairsMonotone(k: nat, v: nat)
    requires k <= v
    ensures k * (k - 1) <= v * (v - 1)
  {
    var more := v - k;
    assert v * (v - 1) == k * (k - 1) + more * (2 * k + more - 1);
    if more > 0 {
      assert more * (2 * k + more - 1) >= 0;
    }
  }

  lemma ScaledMonotone(s: nat, x: int, y: int)
    requires x <= y
    ensures s * x <= s * y
  {
  }

  lemma SquareMonotone(s: nat, k: nat, v: nat)
    requires k <= v
    ensures s * (k * (k - 1)) <= s * (v * (v - 1))
  {
    PairsMonotone(k, v);
    ScaledMonotone(s, k * (k - 1), v * (v - 1));
  }

  /** When all results of the block are clean, its partners are all the venues. */
  lemma AllPartnersClean(results: seq<VenueResult>, n: int, venues: set<string>, sizes: seq<real>)
    requires OneEach(results)
    requires forall r :: r in results ==> r.venue in venues
    requires forall r :: r in results && r.block.number == n ==> r.err.None? && CleanAndAligned(PartnerOf(r), sizes)
    requires forall v :: v in venues ==> exists r :: r in results && r.block.number == n && r.venue == v
    ensures forall p :: p in CleanOn(results, n) ==> p.venue in venues && CleanAndAligned(p, sizes)
    ensures |CleanOn(results, n)| == |venues|
  {
    hide OneEach, CleanAndAligned, CleanOn;
    var ps := CleanOn(results, n);
    CleanOnMembers(results, n);
    CleanOnDistinct(results, n);
    forall v | v in venues
      ensures exists p :: p in ps && p.venue == v
    {
      var r :| r in results && r.block.number == n && r.venue == v;
      assert PartnerOf(r) in ps;
    }
    DistinctVenues(ps, venues);
  }

  lemma AlignedLength(p: Partner, sizes: seq<real>)
    ensures CleanAndAligned(p, sizes) ==> |p.quotes.buy| == |sizes|
  {
  }

  lemma AllPairsOfClean(block: BlockEvent, ps: seq<Partner>, sizes: seq<real>)
    requires forall p :: p in ps ==> CleanAndAligned(p, sizes)
    ensures |AllPairs(block, ps)| == |sizes| * (|ps| * (|ps| - 1))
  {
    hide CleanAndAligned;
    forall p | p in ps {
      AlignedLength(p, sizes);
    }
    AllPairsCount(block, ps, sizes);
  }

  /** The bound is reached when every venue quotes every size cleanly for the
      freshest block. */
  lemma AllPairsWhenClean(results: seq<VenueResult>, out: seq<CandidatePath>, block: BlockEvent,
                          venues: set<string>, sizes: seq<real>)
    requires OneEach(results) && Runs(results, out) && block.number == MaxBlock(results)
    requires forall r :: r in results ==> r.venue in venues
    requires forall r :: r in results && r.block.number == block.number ==>
               r.block == block && r.err.None? && CleanAndAligned(PartnerOf(r), sizes)
    requires forall v :: v in venues ==> exists r :: r in results && r.block.number == block.number && r.venue == v
    ensures |OnBlock(out, block.number)| == |sizes| * (|venues| * (|venues| - 1))
  {
    hide *;
    var n := block.number;
    AllPartnersClean(results, n, venues, sizes);
    FreshestBlockIsComplete(results, out, block);
    AllPairsOfClean(block, CleanOn(results, n), sizes);
    assert |multiset(OnBlock(out, n))| == |OnBlock(out, n)|;
  }
}
