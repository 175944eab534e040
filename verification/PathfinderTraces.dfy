/** What the Pathfinder emits over whole runs, whatever the order in which
    results arrive and stored venues are visited
    (internal/pathfinder/pathfinder.go). */
module PathfinderTraces {
  import opened Pricing
  import opened Messages
  import opened Pathfinder

  // ----- Orders do not matter to what is emitted in all

  lemma {:induction false} AgainstAllWithout(block: BlockEvent, a: Partner, others: seq<Partner>, k: nat)
    requires k < |others|
    ensures multiset(AgainstAll(block, a, others)) ==
            multiset(AgainstAll(block, a, others[..k] + others[k + 1..])) + multiset(Pairs(block, a, others[k]))
  {
    hide Pairs, AgainstAll;
    var n := |others| - 1;
    var less := others[..k] + others[k + 1..];
    AgainstLast(block, a, others);
    if k == n {
      assert less == others[..n];
    } else {
      AgainstAllWithout(block, a, others[..n], k);
      AgainstLast(block, a, less);
      assert less[..n - 1] == others[..n][..k] + others[..n][k + 1..];
    }
  }

  lemma AgainstLast(block: BlockEvent, a: Partner, others: seq<Partner>)
    requires others != []
    ensures var n := |others| - 1;
            multiset(AgainstAll(block, a, others)) ==
            multiset(AgainstAll(block, a, others[..n])) + multiset(Pairs(block, a, others[n]))
  {
  }

  lemma {:induction false} AgainstAllPermuted(block: BlockEvent, a: Partner, ps: seq<Partner>, qs: seq<Partner>)
    requires multiset(ps) == multiset(qs)
    ensures multiset(AgainstAll(block, a, ps)) == multiset(AgainstAll(block, a, qs))
    decreases |ps|
  {
    if ps == [] {
      assert |multiset(qs)| == 0;
    } else {
      var n := |ps| - 1;
      var k := PermutedRest(ps, qs);
      AgainstAllPermuted(block, a, ps[..n], qs[..k] + qs[k + 1..]);
      AgainstAllWithout(block, a, qs, k);
    }
  }

  /** Where the last element of one order is in the other. */
  lemma PermutedRest<T>(ps: seq<T>, qs: seq<T>) returns (k: nat)
    requires ps != [] && multiset(ps) == multiset(qs)
    ensures k < |qs| && qs[k] == ps[|ps| - 1]
    ensures multiset(ps[..|ps| - 1]) == multiset(qs[..k] + qs[k + 1..])
  {
    var n := |ps| - 1;
    assert ps == ps[..n] + [ps[n]];
    assert ps[n] in multiset(qs);
    k :| 0 <= k < |qs| && qs[k] == ps[n];
    assert qs == qs[..k] + [qs[k]] + qs[k + 1..];
    CancelElement(multiset(ps[..n]), multiset(qs[..k]), multiset(qs[k + 1..]), ps[n]);
  }

  lemma CancelElement<T>(x: multiset<T>, y: multiset<T>, z: multiset<T>, p: T)
    requires x + multiset{p} == y + multiset{p} + z
    ensures x == y + z
  {
    forall q
      ensures x[q] == (y + z)[q]
    {
      assert (x + multiset{p})[q] == (y + multiset{p} + z)[q];
    }
  }

  lemma {:induction false} DistinctCount(ps: seq<Partner>, p: Partner)
    requires forall i, j :: 0 <= i < j < |ps| ==> ps[i].venue != ps[j].venue
    ensures multiset(ps)[p] == if p in ps then 1 else 0
  {
    if ps != [] {
      var n := |ps| - 1;
      DistinctCount(ps[..n], p);
      assert ps == ps[..n] + [ps[n]];
    }
  }

  /** Two enumerations of one map are permutations of each other. */
  lemma EnumerationsPermute(ps: seq<Partner>, qs: seq<Partner>, m: map<string, IndexableQuotes>)
    requires Enumerates(ps, m) && Enumerates(qs, m)
    ensures multiset(ps) == multiset(qs)
  {
    forall p
      ensures multiset(ps)[p] == multiset(qs)[p]
    {
      DistinctCount(ps, p);
      DistinctCount(qs, p);
    }
  }

  // ----- Which results are paired

  function MaxBlock(results: seq<VenueResult>): nat {
    if results == [] then 0
    else
      var n := |results| - 1;
      var max := MaxBlock(results[..n]);
      if results[n].block.number > max then results[n].block.number else max
  }

  lemma {:induction false} MaxBlockBounds(results: seq<VenueResult>)
    ensures forall i :: 0 <= i < |results| ==> results[i].block.number <= MaxBlock(results)
    ensures results != [] ==> exists i :: 0 <= i < |results| && results[i].block.number == MaxBlock(results)
  {
    if results != [] {
      MaxBlockBounds(results[..|results| - 1]);
      assert results[|results| - 1].block.number <= MaxBlock(results);
      if |results| > 1 && MaxBlock(results) != results[|results| - 1].block.number {
        var i :| 0 <= i < |results| - 1 && results[..|results| - 1][i].block.number == MaxBlock(results);
        assert results[i].block.number == MaxBlock(results);
      }
    }
  }

  predicate Answers(r: VenueResult, block: int, venue: string) {
    r.err.None? && r.block.number == block && r.venue == venue
  }

  /** Result i is the last word of a venue on a block. */
  ghost predicate Latest(results: seq<VenueResult>, i: int, block: int, venue: string) {
    && 0 <= i < |results|
    && Answers(results[i], block, venue)
    && forall k :: i < k < |results| ==> !Answers(results[k], block, venue)
  }

  /** No earlier result is about a fresher block. */
  ghost predicate Fresh(results: seq<VenueResult>, j: int)
    requires 0 <= j < |results|
  {
    forall k :: 0 <= k < j ==> results[k].block.number <= results[j].block.number
  }

  /** Results i < j are paired when j arrives: both are clean, about one block
      that is then the freshest, and i has not been superseded by its venue. */
  ghost predicate Matched(results: seq<VenueResult>, i: int, j: int) {
    && 0 <= i < j < |results|
    && results[j].err.None? && Fresh(results, j)
    && Latest(results[..j], i, results[j].block.number, results[i].venue)
  }

  ghost function Partners(results: seq<VenueResult>, j: nat, n: nat): seq<Partner>
    requires n <= j < |results|
  {
    if n == 0 then []
    else Partners(results, j, n - 1) + (if Matched(results, n - 1, j) then [PartnerOf(results[n - 1])] else [])
  }

  /** All candidates of all matched pairs. */
  ghost function Expected(results: seq<VenueResult>): multiset<CandidatePath> {
    if results == [] then multiset{}
    else
      var j := |results| - 1;
      Expected(results[..j]) + multiset(AgainstAll(results[j].block, PartnerOf(results[j]), Partners(results, j, j)))
  }

  lemma MaxBlockStep(results: seq<VenueResult>)
    requires results != []
    ensures MaxBlock(results) >= MaxBlock(results[..|results| - 1])
    ensures MaxBlock(results) >= results[|results| - 1].block.number
  {
  }

  // ----- What the state remembers

  /** The state is a function of the freshest block's last answers. */
  ghost predicate Remembers(s: State, results: seq<VenueResult>) {
    && s.currentBlock == MaxBlock(results)
    && (forall v :: v in s.venueQuotes ==>
          exists i :: Latest(results, i, s.currentBlock, v) && results[i].quotes == s.venueQuotes[v])
    && (forall i, v :: Latest(results, i, s.currentBlock, v) ==>
          v in s.venueQuotes && s.venueQuotes[v] == results[i].quotes)
  }

  lemma LatestAfter(results: seq<VenueResult>, r: VenueResult, i: int, block: int, venue: string)
    ensures Latest(results + [r], i, block, venue) <==>
            if Answers(r, block, venue) then i == |results| else Latest(results, i, block, venue)
  {
    var all := results + [r];
    assert all[|results|] == r;
    assert forall k :: 0 <= k < |results| ==> all[k] == results[k];
  }

  lemma RememberStep(s: State, results: seq<VenueResult>, r: VenueResult)
    requires Remembers(s, results)
    ensures Remembers(After(s, r), results + [r])
  {
    var s', all := After(s, r), results + [r];
    assert all[..|all| - 1] == results;
    MaxBlockBounds(results);
    hide Latest, MaxBlock;
    NoAnswersBeyond(results);
    forall i, v {:trigger Latest(all, i, s'.currentBlock, v)}
      ensures Latest(all, i, s'.currentBlock, v) ==> v in s'.venueQuotes && s'.venueQuotes[v] == all[i].quotes
      ensures Latest(all, i, s'.currentBlock, v) <==>
              if Answers(r, s'.currentBlock, v) then i == |results| else Latest(results, i, s'.currentBlock, v)
    {
      LatestAfter(results, r, i, s'.currentBlock, v);
      LatestInRange(results, i, s'.currentBlock, v);
    }
    forall v | v in s'.venueQuotes
      ensures exists i :: Latest(all, i, s'.currentBlock, v) && all[i].quotes == s'.venueQuotes[v]
    {
      if Answers(r, s'.currentBlock, v) {
        assert Latest(all, |results|, s'.currentBlock, v);
      } else {
        assert v in s.venueQuotes && s'.currentBlock == s.currentBlock;
        var i :| Latest(results, i, s.currentBlock, v) && results[i].quotes == s.venueQuotes[v];
        LatestInRange(results, i, s.currentBlock, v);
        assert Latest(all, i, s'.currentBlock, v);
      }
    }
  }

  lemma LatestInRange(results: seq<VenueResult>, i: int, block: int, venue: string)
    ensures Latest(results, i, block, venue) ==> 0 <= i < |results| && Answers(results[i], block, venue)
  {
  }

  /** Nothing answers for a block fresher than all. */
  lemma NoAnswersBeyond(results: seq<VenueResult>)
    ensures forall i, block, venue :: Latest(results, i, block, venue) ==> block <= MaxBlock(results)
  {
    MaxBlockBounds(results);
  }

  lemma {:induction false} StateRemembers(results: seq<VenueResult>)
    ensures Remembers(StateAfter(results), results)
  {
    if results != [] {
      var n := |results| - 1;
      StateRemembers(results[..n]);
      RememberStep(StateAfter(results[..n]), results[..n], results[n]);
      assert results[..n] + [results[n]] == results;
    }
  }

  // ----- Exact characterisation of a run

  lemma {:induction false} PartnersAreMatched(results: seq<VenueResult>, j: nat, n: nat)
    requires n <= j < |results|
    ensures forall p :: p in Partners(results, j, n) <==>
              exists i :: 0 <= i < n && Matched(results, i, j) && PartnerOf(results[i]) == p
    ensures forall x, y :: 0 <= x < y < |Partners(results, j, n)| ==>
              Partners(results, j, n)[x].venue != Partners(results, j, n)[y].venue
  {
    if n > 0 {
      PartnersAreMatched(results, j, n - 1);
      var before := Partners(results, j, n - 1);
      if Matched(results, n - 1, j) {
        forall p | p in before
          ensures p.venue != results[n - 1].venue
        {
          var i :| 0 <= i < n - 1 && Matched(results, i, j) && PartnerOf(results[i]) == p;
          assert !Answers(results[..j][n - 1], results[j].block.number, p.venue);
        }
      }
    }
  }

  /** The matched partners are the entries stored when the result arrives. */
  lemma PartnersEnumerateState(results: seq<VenueResult>, s: State)
    requires results != [] && Remembers(s, results[..|results| - 1])
    requires var r := results[|results| - 1]; r.err.None? && r.block.number >= s.currentBlock
    ensures var j := |results| - 1;
            Enumerates(Partners(results, j, j), Advance(s, results[j].block.number).venueQuotes)
  {
    var j := |results| - 1;
    var before, n := results[..j], results[j].block.number;
    var m := Advance(s, n).venueQuotes;
    PartnersAreMatched(results, j, j);
    RemembersMax(s, before);
    MatchedNow(results);
    hide Partners, Matched, MaxBlock, Latest, Remembers, Advance;
    forall p
      ensures p in Partners(results, j, j) <==> p.venue in m && m[p.venue] == p.quotes
    {
      StoredIffLatest(s, before, n, p);
      if p in Partners(results, j, j) {
        var i :| 0 <= i < j && Matched(results, i, j) && PartnerOf(results[i]) == p;
        assert before[i] == results[i] && Latest(before, i, n, p.venue);
      }
      if p.venue in m && m[p.venue] == p.quotes {
        var i :| Latest(before, i, n, p.venue) && before[i].quotes == p.quotes;
        LatestInRange(before, i, n, p.venue);
        assert before[i] == results[i] && Matched(results, i, j);
      }
    }
  }

  lemma StoredIffLatest(s: State, results: seq<VenueResult>, n: Uint64, p: Partner)
    requires Remembers(s, results) && n >= s.currentBlock
    ensures var m := Advance(s, n).venueQuotes;
            p.venue in m && m[p.venue] == p.quotes <==>
            exists i :: Latest(results, i, n, p.venue) && results[i].quotes == p.quotes
  {
    NoAnswersBeyond(results);
    hide MaxBlock, Latest;
  }

  /** For a fresh clean result, matched means stored. */
  lemma MatchedNow(results: seq<VenueResult>)
    requires results != []
    requires var r := results[|results| - 1]; r.err.None? && r.block.number >= MaxBlock(results[..|results| - 1])
    ensures var j := |results| - 1;
            forall i :: 0 <= i < j ==>
              (Matched(results, i, j) <==> Latest(results[..j], i, results[j].block.number, results[i].venue))
  {
    var j := |results| - 1;
    MaxBlockBounds(results[..j]);
    assert forall k :: 0 <= k < j ==> results[k] == results[..j][k];
  }

  lemma StaleIsUnmatched(results: seq<VenueResult>, n: nat)
    requires results != [] && n <= |results| - 1
    requires var r := results[|results| - 1]; r.err.Some? || r.block.number < MaxBlock(results[..|results| - 1])
    ensures Partners(results, |results| - 1, n) == []
  {
    var j := |results| - 1;
    MaxBlockBounds(results[..j]);
    assert results[j].err.None? ==> !Fresh(results, j) by {
      if results[j].err.None? {
        var k :| 0 <= k < j && results[..j][k].block.number == MaxBlock(results[..j]);
        assert results[k].block.number == MaxBlock(results[..j]);
      }
    }
    NothingMatched(results, j, n);
  }

  lemma {:induction false} NothingMatched(results: seq<VenueResult>, j: nat, n: nat)
    requires n <= j < |results|
    requires forall i :: !Matched(results, i, j)
    ensures Partners(results, j, n) == []
  {
    if n > 0 {
      NothingMatched(results, j, n - 1);
    }
  }

  /** Over any run, the emitted candidates are exactly those of the matched
      pairs, each as often as it has sources. */
  lemma {:induction false} TraceIsExact(results: seq<VenueResult>, out: seq<CandidatePath>)
    requires Runs(results, out)
    ensures multiset(out) == Expected(results)
    decreases |results|
  {
    EmptyRun(results, out);
    hide *;
    if results != [] {
      var j := |results| - 1;
      var k := LastStep(results, out);
      TraceIsExact(results[..j], out[..k]);
      StateRemembers(results[..j]);
      StepIsExact(results, StateAfter(results[..j]), out[k..]);
      Split(out, k);
    }
  }

  lemma Split(out: seq<CandidatePath>, k: nat)
    requires k <= |out|
    ensures multiset(out) == multiset(out[..k]) + multiset(out[k..])
  {
    assert out == out[..k] + out[k..];
  }

  lemma EmptyRun(results: seq<VenueResult>, out: seq<CandidatePath>)
    requires Runs(results, out)
    ensures results == [] ==> out == [] && Expected(results) == multiset{}
  {
  }

  lemma LastStep(results: seq<VenueResult>, out: seq<CandidatePath>) returns (k: nat)
    requires Runs(results, out) && results != []
    ensures var j := |results| - 1;
            k <= |out| && Runs(results[..j], out[..k]) && Emits(StateAfter(results[..j]), results[j], out[k..])
  {
    var j := |results| - 1;
    k :| 0 <= k <= |out| && Runs(results[..j], out[..k]) && Emits(StateAfter(results[..j]), results[j], out[k..]);
  }

  lemma StepIsExact(results: seq<VenueResult>, s: State, emitted: seq<CandidatePath>)
    requires results != [] && Remembers(s, results[..|results| - 1]) && Emits(s, results[|results| - 1], emitted)
    ensures Expected(results) == Expected(results[..|results| - 1]) + multiset(emitted)
  {
    var j := |results| - 1;
    var r := results[j];
    hide AgainstAll, Partners, Remembers, Advance;
    if r.block.number < s.currentBlock || r.err.Some? {
      RemembersMax(s, results[..j]);
      StaleIsUnmatched(results, j);
      AgainstNone(r);
    } else {
      var partners :| Enumerates(partners, Advance(s, r.block.number).venueQuotes)
                   && emitted == AgainstAll(r.block, PartnerOf(r), partners);
      PartnersEnumerateState(results, s);
      EnumerationsPermute(partners, Partners(results, j, j), Advance(s, r.block.number).venueQuotes);
      AgainstAllPermuted(r.block, PartnerOf(r), partners, Partners(results, j, j));
    }
  }

  lemma RemembersMax(s: State, results: seq<VenueResult>)
    requires Remembers(s, results)
    ensures s.currentBlock == MaxBlock(results)
  {
  }

  lemma AgainstNone(r: VenueResult)
    ensures AgainstAll(r.block, PartnerOf(r), []) == []
  {
  }
}
