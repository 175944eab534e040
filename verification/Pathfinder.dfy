/** Correlation of venue results by block (internal/pathfinder/pathfinder.go). */
module Pathfinder {
  import opened Pricing
  import opened Messages

  /** A venue and what it quoted for the block under consideration. */
  datatype Partner = Partner(venue: string, quotes: IndexableQuotes)

  function PartnerOf(r: VenueResult): Partner {
    Partner(r.venue, r.quotes)
  }

  // ----- Pairing two venues

  /** Buy row i of one venue, sell it on the other. */
  function Trade(block: BlockEvent, buyer: Partner, seller: Partner, i: nat): CandidatePath
    requires i < |buyer.quotes.buy| && i < |seller.quotes.sell|
  {
    var ask, bid := buyer.quotes.buy[i], seller.quotes.sell[i];
    CandidatePath(block, ask.size, buyer.venue, seller.venue, ask.price, bid.price, AddUint64(ask.gas, bid.gas))
  }

  predicate CleanRow(buyer: Partner, seller: Partner, i: nat)
    requires i < |buyer.quotes.buy| && i < |seller.quotes.sell|
  {
    buyer.quotes.buy[i].err.None? && seller.quotes.sell[i].err.None?
  }

  /** What row i yields, in both directions. */
  function Row(block: BlockEvent, a: Partner, b: Partner, i: nat): seq<CandidatePath>
    requires i < |a.quotes.buy| == |b.quotes.buy|
  {
    if a.quotes.buy[i].size != b.quotes.buy[i].size then []
    else
      (if CleanRow(a, b, i) then [Trade(block, a, b, i)] else [])
      + (if CleanRow(b, a, i) then [Trade(block, b, a, i)] else [])
  }

  function Rows(block: BlockEvent, a: Partner, b: Partner, n: nat): seq<CandidatePath>
    requires n <= |a.quotes.buy| == |b.quotes.buy|
  {
    if n == 0 then [] else Rows(block, a, b, n - 1) + Row(block, a, b, n - 1)
  }

  lemma RowsByOne(block: BlockEvent, a: Partner, b: Partner)
    requires |a.quotes.buy| == |b.quotes.buy|
    ensures Rows(block, a, b, 0) == []
    ensures forall i: nat {:trigger Row(block, a, b, i)} :: i < |a.quotes.buy| ==>
              Rows(block, a, b, i + 1) == Rows(block, a, b, i) + Row(block, a, b, i)
  {
  }

  /** Everything a pair of venues yields; nothing if their size sets differ in length. */
  function Pairs(block: BlockEvent, a: Partner, b: Partner): seq<CandidatePath> {
    if |a.quotes.buy| != |b.quotes.buy| then [] else Rows(block, a, b, |a.quotes.buy|)
  }

  /** One venue against several, in their order. */
  function AgainstAll(block: BlockEvent, a: Partner, others: seq<Partner>): seq<CandidatePath> {
    if others == [] then []
    else
      var n := |others| - 1;
      AgainstAll(block, a, others[..n]) + Pairs(block, a, others[n])
  }

  // ----- State

  datatype State = State(currentBlock: Uint64, venueQuotes: map<string, IndexableQuotes>)

  const START := State(0, map[])

  /** A fresher block evicts what was stored for the previous one. */
  function Advance(s: State, block: Uint64): State {
    if block > s.currentBlock then State(block, map[]) else s
  }

  function After(s: State, r: VenueResult): State {
    if r.block.number < s.currentBlock then s
    else
      var s' := Advance(s, r.block.number);
      if r.err.Some? then s' else s'.(venueQuotes := s'.venueQuotes[r.venue := r.quotes])
  }

  /** `partners` are the entries of a map in some order. */
  ghost predicate Enumerates(partners: seq<Partner>, m: map<string, IndexableQuotes>) {
    && (forall i, j :: 0 <= i < j < |partners| ==> partners[i].venue != partners[j].venue)
    && (forall p :: p in partners <==> p.venue in m && m[p.venue] == p.quotes)
  }

  /** What handling `r` in state `s` may emit: stored venues in any order. */
  ghost predicate Emits(s: State, r: VenueResult, emitted: seq<CandidatePath>) {
    if r.block.number < s.currentBlock || r.err.Some? then emitted == []
    else
      exists partners ::
        && Enumerates(partners, Advance(s, r.block.number).venueQuotes)
        && emitted == AgainstAll(r.block, PartnerOf(r), partners)
  }

  function StateAfter(results: seq<VenueResult>): State {
    if results == [] then START
    else After(StateAfter(results[..|results| - 1]), results[|results| - 1])
  }

  /** `out` is what an uncancelled run over `results` may emit. */
  ghost predicate Runs(results: seq<VenueResult>, out: seq<CandidatePath>)
    decreases |results|
  {
    if results == [] then out == []
    else
      var n := |results| - 1;
      exists k :: && 0 <= k <= |out|
                  && Runs(results[..n], out[..k]) && Emits(StateAfter(results[..n]), results[n], out[k..])
  }

  lemma RunExtends(results: seq<VenueResult>, out: seq<CandidatePath>, r: VenueResult, emitted: seq<CandidatePath>)
    requires Runs(results, out) && Emits(StateAfter(results), r, emitted)
    ensures Runs(results + [r], out + emitted)
    ensures StateAfter(results + [r]) == After(StateAfter(results), r)
  {
    var all, sent := results + [r], out + emitted;
    assert all[..|all| - 1] == results;
    assert sent[..|out|] == out && sent[|out|..] == emitted;
  }

  lemma OneMorePartner(partners: seq<Partner>, stored: map<string, IndexableQuotes>, rest: set<string>, v: string,
                       block: BlockEvent, a: Partner)
    requires v in rest && rest <= stored.Keys && Enumerates(partners, stored - rest)
    ensures Enumerates(partners + [Partner(v, stored[v])], stored - (rest - {v}))
    ensures AgainstAll(block, a, partners + [Partner(v, stored[v])])
         == AgainstAll(block, a, partners) + Pairs(block, a, Partner(v, stored[v]))
  {
    var more := partners + [Partner(v, stored[v])];
    assert more[..|more| - 1] == partners;
    forall i, j | 0 <= i < j < |more|
      ensures more[i].venue != more[j].venue
    {
      assert more[i] in partners;
    }
    forall p
      ensures p in more <==> p.venue in stored - (rest - {v}) && stored[p.venue] == p.quotes
    {
      assert p in more <==> p in partners || p == Partner(v, stored[v]);
    }
  }

  lemma NoPartnersYet(stored: map<string, IndexableQuotes>, r: VenueResult)
    ensures Enumerates([], stored - stored.Keys)
    ensures AgainstAll(r.block, PartnerOf(r), []) == []
    ensures stored - {} == stored
  {
  }

  lemma HandleCases(s: State, r: VenueResult)
    ensures r.block.number < s.currentBlock || r.err.Some? ==> Emits(s, r, [])
    ensures r.block.number < s.currentBlock ==> After(s, r) == s
    ensures r.block.number >= s.currentBlock ==>
              var m := if r.block.number > s.currentBlock then map[] else s.venueQuotes;
              && Advance(s, r.block.number) == State(r.block.number, m)
              && After(s, r) == State(r.block.number, if r.err.Some? then m else m[r.venue := r.quotes])
  {
  }

  lemma EmitsInOrder(s: State, r: VenueResult, partners: seq<Partner>, emitted: seq<CandidatePath>)
    requires r.block.number >= s.currentBlock && r.err.None?
    requires Enumerates(partners, Advance(s, r.block.number).venueQuotes)
    requires emitted == AgainstAll(r.block, PartnerOf(r), partners)
    ensures Emits(s, r, emitted)
  {
  }

  // ----- What becomes of the candidates

  /** `all` is an interleaving of `sent` and `dropped`: each keeps its order. */
  predicate Interleaves(all: seq<CandidatePath>, sent: seq<CandidatePath>, dropped: seq<CandidatePath>)
    decreases |all|
  {
    if all == [] then sent == [] && dropped == []
    else
      var n := |all| - 1;
      || (sent != [] && sent[|sent| - 1] == all[n] && Interleaves(all[..n], sent[..|sent| - 1], dropped))
      || (dropped != [] && dropped[|dropped| - 1] == all[n] && Interleaves(all[..n], sent, dropped[..|dropped| - 1]))
  }

  lemma SettleOne(all: seq<CandidatePath>, sent: seq<CandidatePath>, dropped: seq<CandidatePath>, c: CandidatePath)
    requires Interleaves(all, sent, dropped)
    ensures Interleaves(all + [c], sent + [c], dropped)
    ensures Interleaves(all + [c], sent, dropped + [c])
  {
    assert (all + [c])[..|all|] == all;
    assert (sent + [c])[..|sent|] == sent && (dropped + [c])[..|dropped|] == dropped;
  }

  lemma {:induction false} InterleavedCounts(all: seq<CandidatePath>, sent: seq<CandidatePath>,
                                             dropped: seq<CandidatePath>)
    requires Interleaves(all, sent, dropped)
    ensures multiset(all) == multiset(sent) + multiset(dropped)
    decreases |all|
  {
    if all != [] {
      var n := |all| - 1;
      AllButLast(all);
      if sent != [] && sent[|sent| - 1] == all[n] && Interleaves(all[..n], sent[..|sent| - 1], dropped) {
        AllButLast(sent);
        InterleavedCounts(all[..n], sent[..|sent| - 1], dropped);
      } else {
        AllButLast(dropped);
        InterleavedCounts(all[..n], sent, dropped[..|dropped| - 1]);
      }
      hide Interleaves;
    }
  }

  lemma AllButLast(s: seq<CandidatePath>)
    requires s != []
    ensures multiset(s) == multiset(s[..|s| - 1]) + multiset{s[|s| - 1]}
  {
    assert s == s[..|s| - 1] + [s[|s| - 1]];
  }

  lemma {:induction false} NothingDropped(all: seq<CandidatePath>, sent: seq<CandidatePath>)
    requires Interleaves(all, sent, [])
    ensures all == sent
    decreases |all|
  {
    if all != [] {
      NothingDropped(all[..|all| - 1], sent[..|sent| - 1]);
    }
  }

  // ----- The object

  class Pathfinder {
    var currentBlock: Uint64
    var venueQuotes: map<string, IndexableQuotes>
    var out: seq<CandidatePath>  // what was sent on the output channel
    var ctxDone: bool
    ghost var offered: seq<CandidatePath>
    ghost var dropped: seq<CandidatePath>

    ghost function Abstract(): State
      reads this
    {
      State(currentBlock, venueQuotes)
    }

    /** What was offered is sent or dropped, in order, and nothing is dropped unless
        the context is done. */
    ghost predicate Valid()
      reads this
    {
      Interleaves(offered, out, dropped) && (dropped != [] ==> ctxDone)
    }

    constructor ()
      ensures Valid() && Abstract() == START && offered == out == [] && !ctxDone
    {
      currentBlock, venueQuotes, out, ctxDone, offered, dropped := 0, map[], [], false, [], [];
    }

    /** The context may be cancelled at any moment. */
    method Elapse()
      modifies this`ctxDone
      ensures (old(ctxDone) ==> ctxDone) && (old(Valid()) ==> Valid())
    {
      if * {
        ctxDone := true;
      }
    }

    /** The output channel is unbuffered: the send goes through, or a done context
        releases it. */
    method Emit(c: CandidatePath)
      requires Valid()
      modifies this`out, this`ctxDone, this`offered, this`dropped
      ensures Valid() && offered == old(offered) + [c] && (old(ctxDone) ==> ctxDone)
      ensures || (out == old(out) + [c] && dropped == old(dropped))
              || (out == old(out) && dropped == old(dropped) + [c] && ctxDone)
    {
      hide Interleaves;
      SettleOne(offered, out, dropped, c);
      offered := offered + [c];
      Elapse();
      if ctxDone {
        if * {
          dropped := dropped + [c];
          return;
        }
      }
      out := out + [c];
    }

    method EmitPairs(r: VenueResult, otherVenue: string, otherQuotes: IndexableQuotes)
      requires Valid()
      modifies this`out, this`ctxDone, this`offered, this`dropped
      ensures Valid() && (old(ctxDone) ==> ctxDone) && old(out) <= out && old(dropped) <= dropped
      ensures offered == old(offered) + Pairs(r.block, PartnerOf(r), Partner(otherVenue, otherQuotes))
    {
      hide Abstract, Valid, Rows;
      ghost var me, other := PartnerOf(r), Partner(otherVenue, otherQuotes);
      if |r.quotes.buy| != |otherQuotes.buy| {
        return;
      }
      RowsByOne(r.block, me, other);
      for i := 0 to |r.quotes.buy|
        invariant Valid() && (old(ctxDone) ==> ctxDone) && old(out) <= out && old(dropped) <= dropped
        invariant offered == old(offered) + Rows(r.block, me, other, i)
      {
        ghost var row := Row(r.block, me, other, i);
        var size := r.quotes.buy[i].size;
        if size != otherQuotes.buy[i].size {
          continue;
        }
        if r.quotes.buy[i].err.None? && otherQuotes.sell[i].err.None? {
          Emit(CandidatePath(r.block, size, r.venue, otherVenue, r.quotes.buy[i].price, otherQuotes.sell[i].price,
                             AddUint64(r.quotes.buy[i].gas, otherQuotes.sell[i].gas)));
        }
        if otherQuotes.buy[i].err.None? && r.quotes.sell[i].err.None? {
          Emit(CandidatePath(r.block, size, otherVenue, r.venue, otherQuotes.buy[i].price, r.quotes.sell[i].price,
                             AddUint64(otherQuotes.buy[i].gas, r.quotes.sell[i].gas)));
        }
      }
    }

    /** The stored venues are visited in no particular order. */
    method Handle(r: VenueResult)
      requires Valid()
      modifies this
      ensures Valid() && (old(ctxDone) ==> ctxDone) && old(out) <= out && old(dropped) <= dropped
      ensures Abstract() == After(old(Abstract()), r)
      ensures old(offered) <= offered && Emits(old(Abstract()), r, offered[|old(offered)|..])
    {
      hide After, Emits, Enumerates, AgainstAll, Pairs, Advance, Interleaves;
      ghost var s, before, emitted := Abstract(), offered, [];
      HandleCases(s, r);
      assert offered[|before|..] == [];
      var n := r.block.number;
      if n < currentBlock {
        return;
      }
      if n > currentBlock {
        currentBlock := n;
        venueQuotes := map[];
      }
      if r.err.Some? {
        return;
      }
      ghost var stored, partners := venueQuotes, [];
      NoPartnersYet(stored, r);
      var rest := venueQuotes.Keys;
      while rest != {}
        invariant Valid() && (old(ctxDone) ==> ctxDone) && old(out) <= out && old(dropped) <= dropped
        invariant rest <= stored.Keys && venueQuotes == stored && currentBlock == n
        invariant Enumerates(partners, stored - rest)
        invariant offered == before + emitted && emitted == AgainstAll(r.block, PartnerOf(r), partners)
      {
        var otherVenue :| otherVenue in rest;
        ghost var other := Partner(otherVenue, venueQuotes[otherVenue]);
        EmitPairs(r, otherVenue, venueQuotes[otherVenue]);
        OneMorePartner(partners, stored, rest, otherVenue, r.block, PartnerOf(r));
        ghost var more := Pairs(r.block, PartnerOf(r), other);
        assert before + emitted + more == before + (emitted + more);
        emitted := emitted + more;
        partners := partners + [other];
        rest := rest - {otherVenue};
      }
      assert offered[|before|..] == emitted;
      EmitsInOrder(s, r, partners, emitted);
      venueQuotes := venueQuotes[r.venue := r.quotes];
    }

    lemma AllSent()
      requires Valid()
      ensures !ctxDone ==> out == offered
    {
      if dropped == [] {
        NothingDropped(offered, out);
      }
    }

    /** Runs until the results are closed or the context is done; what it offered is
        one run over the results it took. */
    method Run(results: seq<VenueResult>) returns (err: Option<CtxError>, taken: nat)
      requires Valid() && Abstract() == START && offered == []
      modifies this
      ensures Valid() && taken <= |results|
      ensures Abstract() == StateAfter(results[..taken]) && Runs(results[..taken], offered)
      ensures if err.None? then taken == |results| else err == Some(Canceled) && ctxDone
      ensures Interleaves(offered, out, dropped) && (!ctxDone ==> out == offered)
    {
      NothingTaken(results);
      hide Runs, StateAfter, Emits, After, Valid;
      taken := 0;
      while true
        invariant Valid() && taken <= |results|
        invariant Abstract() == StateAfter(results[..taken]) && Runs(results[..taken], offered)
        decreases |results| - taken
      {
        Elapse();
        AllSent();
        if ctxDone {
          if * {
            return Some(Canceled), taken;
          }
        }
        if taken == |results| {
          return None, taken;
        }
        ghost var before := offered;
        Handle(results[taken]);
        OneMoreTaken(results, taken, before, offered);
        taken := taken + 1;
      }
    }
  }

  lemma NothingTaken(results: seq<VenueResult>)
    ensures StateAfter(results[..0]) == START && Runs(results[..0], [])
  {
  }

  lemma OneMoreTaken(results: seq<VenueResult>, k: nat, before: seq<CandidatePath>, after: seq<CandidatePath>)
    requires k < |results| && Runs(results[..k], before)
    requires before <= after && Emits(StateAfter(results[..k]), results[k], after[|before|..])
    ensures Runs(results[..k + 1], after)
    ensures StateAfter(results[..k + 1]) == After(StateAfter(results[..k]), results[k])
  {
    hide Runs, StateAfter, Emits, After;
    RunExtends(results[..k], before, results[k], after[|before|..]);
    assert before + after[|before|..] == after;
    assert results[..k] + [results[k]] == results[..k + 1];
  }
}
