/** The decisions of the running program against exact arithmetic: from the legs
    the venues quoted, through the Pathfinder and the schedule, to the evaluator
    (cmd/arbd/main.go, internal/arbitrage/evaluator.go). */
module Decisions {
  import opened Decimals
  import opened Pricing
  import opened Messages
  import opened Pathfinder
  import opened PathfinderLaws
  import opened Arbitrage
  import opened EndToEnd
  import opened Daemon
  import opened Pipeline
  import Dispatcher

  /** Which leg a venue's answer quotes on a side and row. */
  type Legs = (VenueResult, Side, nat) -> Leg

  /** Every clean row is what the adapters compute from sound legs. */
  ghost predicate QuotedFromLegs(r: VenueResult, legs: Legs) {
    forall i: nat :: i < |r.quotes.buy| ==>
      var ask, bid := r.quotes.buy[i], r.quotes.sell[i];
      && ask.size > 0.0
      && (ask.err.None? ==> SoundLeg(legs(r, Buy, i)) && ask == QuoteOf(legs(r, Buy, i), Buy, ask.size))
      && (bid.err.None? ==> SoundLeg(legs(r, Sell, i)) && bid == QuoteOf(legs(r, Sell, i), Sell, ask.size))
  }

  /** The net profit is within the band of the exact one, and outside the band the
      decision is the exact one. */
  ghost predicate DecidedExactly(c: CandidatePath, buy: Leg, sell: Leg, minNetProfit: real)
    requires c.size != 0.0
  {
    var gasETH := GasETH(c.gas, c.block.baseFee);
    var exact := ExactNet(ExactPrice(buy, Buy, c.size), ExactPrice(sell, Sell, c.size), c.size, gasETH);
    && Abs(Evaluate(c).netProfit - exact) <= Band(c.size, gasETH)
    && (Abs(exact - minNetProfit) > Band(c.size, gasETH) ==>
          (IsProfitable(Evaluate(c), minNetProfit) <==> exact > minNetProfit))
  }

  lemma PricedRowIsExact(c: CandidatePath, buyer: VenueResult, seller: VenueResult, i: int, legs: Legs,
                         minNetProfit: real)
    requires PricedBy(c, buyer, seller, i) && QuotedFromLegs(buyer, legs) && QuotedFromLegs(seller, legs)
    ensures c.size > 0.0 && DecidedExactly(c, legs(buyer, Buy, i), legs(seller, Sell, i), minNetProfit)
  {
    var buy, sell := legs(buyer, Buy, i), legs(seller, Sell, i);
    assert c.size == buyer.quotes.buy[i].size == seller.quotes.buy[i].size > 0.0;
    assert SoundLeg(buy) && buyer.quotes.buy[i] == QuoteOf(buy, Buy, c.size);
    assert SoundLeg(sell) && seller.quotes.sell[i] == QuoteOf(sell, Sell, c.size);
    hide QuoteOf, ExactPrice, SoundLeg, QuotedFromLegs, Evaluate, ExactNet, Band, GasETH;
    PriceError(buy, Buy, c.size);
    PriceError(sell, Sell, c.size);
    DecisionIsExactOutsideTheBand(c, ExactPrice(buy, Buy, c.size), ExactPrice(sell, Sell, c.size), minNetProfit);
  }

  /** Cancelled or not, the program's decision about every candidate it consumes is
      the one exact arithmetic makes on the legs of the two answers it came from. */
  lemma ConsumedDecisionsAreExact(p: Pipe, venues: set<string>, legs: Legs, c: CandidatePath, minNetProfit: real)
    requires Reachable(p, venues) && c in p.consumed
    requires forall r :: r in p.disp.results && r.err.None? ==> QuotedFromLegs(r, legs)
    ensures c.size > 0.0
    ensures exists buyer, seller, i: nat ::
              && buyer in p.disp.results && seller in p.disp.results && PricedBy(c, buyer, seller, i)
              && DecidedExactly(c, legs(buyer, Buy, i), legs(seller, Sell, i), minNetProfit)
  {
    hide Reachable, Inv, Runs, Spent, PricedBy, QuotedFromLegs, DecidedExactly, Dispatcher.DispInv;
    ReachableInv(p, venues);
    InvParts(p, venues);
    ConsumedWasOffered(p, c);
    EveryCandidateIsPriced(p.disp.results, p.pf.offered, c);
    var buyer, seller, i :| && buyer in p.disp.results && seller in p.disp.results && PricedBy(c, buyer, seller, i)
                            && buyer.err.None? && seller.err.None?
                            && buyer.block.number == seller.block.number == c.block.number;
    PricedInRange(c, buyer, seller, i);
    PricedRowIsExact(c, buyer, seller, i, legs, minNetProfit);
  }

  lemma PricedInRange(c: CandidatePath, buyer: VenueResult, seller: VenueResult, i: int)
    requires PricedBy(c, buyer, seller, i)
    ensures i >= 0
  {
  }
}
