/** What the whole program achieves, whatever its schedule (cmd/arbd/main.go,
    internal/pipeline/dispatcher.go, internal/pathfinder/pathfinder.go). */
module Pipeline {
  import opened Messages
  import opened Pathfinder
  import opened PathfinderTraces
  import opened PathfinderLaws
  import opened ArrivalOrder
  import opened CandidateCounts
  import opened Daemon
  import opened Shutdown
  import opened Rest
  import Consume
  import Chain
  import Dispatcher

  ghost predicate Reachable(p: Pipe, venues: set<string>) {
    exists schedule :: p == Play(STARTED, venues, schedule)
  }

  lemma ReachableInv(p: Pipe, venues: set<string>)
    requires Reachable(p, venues)
    ensures Inv(p, venues)
  {
    hide Inv, Play;
    var schedule :| p == Play(STARTED, venues, schedule);
    StartsInInv(venues);
    EveryScheduleKeepsInv(STARTED, venues, schedule);
  }

  /** What the invariant says, part by part. */
  lemma InvParts(p: Pipe, venues: set<string>)
    requires Inv(p, venues)
    ensures Dispatcher.DispInv(p.disp, venues, p.ctxDone) && Spent(p.pf, p.consumed)
    ensures p.disp.accepted == Emitted(p) && Runs(p.disp.results, p.pf.offered)
    ensures !p.ctxDone ==> p.pf.dropped == []
  {
    hide Chain.SubInv, Dispatcher.DispInv, Spent, Ordered, Runs, Chain.Events;
  }

  /** What a venue can be asked about: the events the subscriber handed on. */
  function Emitted(p: Pipe): seq<BlockEvent> {
    Chain.Events(p.sub.log)
  }

  // ----- Consumption

  /** Until the context is cancelled the consumer gets, in order, what one run of
      the Pathfinder over the delivered results emits, and nothing is lost. */
  lemma UncancelledConsumption(p: Pipe, venues: set<string>)
    requires Reachable(p, venues) && !p.ctxDone
    ensures Runs(p.disp.results, p.consumed + Queue(p.pf))
    ensures multiset(p.consumed) + multiset(Queue(p.pf)) == Expected(p.disp.results)
  {
    hide Reachable, Inv, Runs, Expected, Spent, Queue, Dispatcher.DispInv;
    ReachableInv(p, venues);
    InvParts(p, venues);
    SpentInOrder(p);
    TraceIsExact(p.disp.results, p.pf.offered);
  }

  lemma SpentInOrder(p: Pipe)
    requires Spent(p.pf, p.consumed)
    ensures multiset(p.pf.offered) == multiset(p.consumed) + multiset(p.pf.dropped) + multiset(Queue(p.pf))
    ensures p.pf.dropped == [] ==> p.pf.offered == p.consumed + Queue(p.pf)
  {
    hide Queue, Accounted;
    SpentCounts(p.pf.offered, p.consumed, p.pf.dropped, Queue(p.pf));
  }

  lemma ConsumedWasOffered(p: Pipe, c: CandidatePath)
    requires Spent(p.pf, p.consumed)
    ensures multiset(p.consumed)[c] <= multiset(p.pf.offered)[c]
    ensures c in p.consumed ==> c in p.pf.offered
  {
    SpentInOrder(p);
    hide Spent, Queue;
    if c in p.consumed {
      assert multiset(p.consumed)[c] > 0;
      assert multiset(p.pf.offered)[c] > 0;
    }
  }

  /** Cancelled or not, block numbers never decrease along what is consumed. */
  lemma ConsumedInBlockOrder(p: Pipe, venues: set<string>)
    requires Reachable(p, venues)
    ensures InBlockOrder(p.consumed)
  {
    hide Reachable, Inv, Runs, InBlockOrder, Dispatcher.DispInv, Interleaves;
    ReachableInv(p, venues);
    InvParts(p, venues);
    OfferedInBlockOrder(p.disp.results, p.pf.offered);
    var k := |p.pf.offered| - |Queue(p.pf)|;
    PrefixInBlockOrder(p.pf.offered, k);
    SentInBlockOrder(p.pf.offered[..k], p.consumed, p.pf.dropped);
  }

  lemma PrefixInBlockOrder(out: seq<CandidatePath>, k: nat)
    requires k <= |out| && InBlockOrder(out)
    ensures InBlockOrder(out[..k])
  {
  }

  /** Cancelled or not: if the events have distinct block numbers, every consumed
      candidate joins two different venues of the program, and its block is one
      the subscriber emitted. */
  lemma ConsumedCandidatesAreSound(p: Pipe, venues: set<string>, c: CandidatePath)
    requires Reachable(p, venues) && Dispatcher.DistinctBlocks(Emitted(p)) && c in p.consumed
    ensures c.buyVenue != c.sellVenue && c.buyVenue in venues && c.sellVenue in venues
    ensures c.block in Emitted(p)
  {
    hide Reachable, Inv, Runs, OneEach, Spent, Emitted, Dispatcher.DistinctBlocks, Dispatcher.DispInv;
    ReachableInv(p, venues);
    InvParts(p, venues);
    ResultsOneEach(p, venues);
    ConsumedWasOffered(p, c);
    JoinsTwoVenues(p.disp.results, p.pf.offered, c);
  }

  lemma ResultsOneEach(p: Pipe, venues: set<string>)
    requires Dispatcher.DispInv(p.disp, venues, p.ctxDone) && Dispatcher.DistinctBlocks(p.disp.accepted)
    ensures OneEach(p.disp.results)
    ensures forall r :: r in p.disp.results ==> r.venue in venues && r.block in p.disp.accepted
  {
    hide Dispatcher.Placed, Dispatcher.Faithful, Dispatcher.DistinctBlocks, OneEach;
    Dispatcher.AtMostOneResultEach(p.disp, venues);
  }

  lemma JoinsTwoVenues(results: seq<VenueResult>, out: seq<CandidatePath>, c: CandidatePath)
    requires OneEach(results) && Runs(results, out) && c in out
    ensures c.buyVenue != c.sellVenue
    ensures exists r, r' :: && r in results && r' in results && r'.block == c.block
                            && {c.buyVenue, c.sellVenue} == {r.venue, r'.venue}
  {
    NoVenueTradesWithItself(results, out, c);
    NoCandidateMixesBlocks(results, out, c);
    hide Runs, OneEach, Matched, FromPair;
    var i, j :| && FromPair(c, results, i, j)
                && 0 <= i < j < |results|
                && results[i].block.number == results[j].block.number == c.block.number
                && {c.buyVenue, c.sellVenue} == {results[i].venue, results[j].venue};
    BlockOfPair(c, results, i, j);
    var r, r' := results[i], results[j];
    assert r in results && r' in results;
  }

  lemma BlockOfPair(c: CandidatePath, results: seq<VenueResult>, i: int, j: int)
    requires FromPair(c, results, i, j)
    ensures 0 <= j < |results| && c.block == results[j].block
  {
    var row :| FromRow(c, results[j].block, PartnerOf(results[j]), PartnerOf(results[i]), row);
  }

  /** Cancelled or not: with V venues and S sizes at most V (V - 1) S candidates of
      a block are consumed. */
  lemma AtMostAllPairsConsumed(p: Pipe, venues: set<string>, sizes: seq<real>, block: BlockEvent)
    requires Reachable(p, venues) && Dispatcher.DistinctBlocks(Emitted(p)) && block in Emitted(p)
    requires forall r :: r in p.disp.results ==> |r.quotes.buy| <= |sizes|
    ensures |OnBlock(p.consumed, block.number)| <= |sizes| * (|venues| * (|venues| - 1))
  {
    hide Reachable, Inv, Runs, OneEach, Spent, Emitted, OnBlock, Dispatcher.DistinctBlocks, Dispatcher.DispInv;
    ReachableInv(p, venues);
    InvParts(p, venues);
    ResultsOneEach(p, venues);
    NumberNamesBlock(Emitted(p), block);
    AtMostAllPairs(p.disp.results, p.pf.offered, block, venues, sizes);
    ConsumedOnBlock(p, block.number);
  }

  lemma NumberNamesBlock(events: seq<BlockEvent>, block: BlockEvent)
    requires Dispatcher.DistinctBlocks(events) && block in events
    ensures forall e :: e in events && e.number == block.number ==> e == block
  {
  }

  lemma ConsumedOnBlock(p: Pipe, n: int)
    requires Spent(p.pf, p.consumed)
    ensures |OnBlock(p.consumed, n)| <= |OnBlock(p.pf.offered, n)|
  {
    hide OnBlock, Spent;
    forall c
      ensures multiset(OnBlock(p.consumed, n))[c] <= multiset(OnBlock(p.pf.offered, n))[c]
    {
      OnBlockCount(p.consumed, n, c);
      OnBlockCount(p.pf.offered, n, c);
      ConsumedWasOffered(p, c);
    }
    SubmultisetCount(multiset(OnBlock(p.consumed, n)), multiset(OnBlock(p.pf.offered, n)));
  }

  // ----- At rest

  /** Whenever the program is at rest it has asked every venue about every event the
      subscriber received, delivered every answer exactly once, and consumed, in
      order, every candidate of one Pathfinder run over them. */
  lemma RestIsComplete(p: Pipe, venues: set<string>)
    requires Reachable(p, venues) && AtRest(p)
    ensures Dispatcher.Idle(p.disp) && p.disp.leaving == {} && Queue(p.pf) == [] && !Chain.Unsent(p.sub.log)
    ensures Runs(p.disp.results, p.consumed) && multiset(p.consumed) == Expected(p.disp.results)
    ensures p.disp.accepted == Emitted(p) && |p.disp.results| == |Emitted(p)| * |venues|
    ensures forall i: nat, v {:trigger Dispatcher.Task(i, v, Emitted(p)[i])} :: i < |Emitted(p)| && v in venues ==>
              multiset(p.disp.delivered)[Dispatcher.Task(i, v, Emitted(p)[i])] == 1
  {
    hide Reachable, Inv, Runs, Expected, Spent, Emitted, Queue, Chain.Unsent, Dispatcher.DispInv, Dispatcher.Idle;
    ReachableInv(p, venues);
    InvParts(p, venues);
    NothingUnderWay(p, venues);
    NotCancelled(p);
    TraceIsExact(p.disp.results, p.consumed);
    Dispatcher.AllDelivered(p.disp, venues);
    forall i: nat, v | i < |Emitted(p)| && v in venues
      ensures multiset(p.disp.delivered)[Dispatcher.Task(i, v, Emitted(p)[i])] == 1
    {
      Dispatcher.EachDeliveredOnce(p.disp, venues, i, v);
    }
    hide AtRest;
  }

  lemma NotCancelled(p: Pipe)
    requires AtRest(p)
    ensures !p.ctxDone
  {
  }

  /** In particular a program that exits without a cancellation leaves nothing undone. */
  lemma UncancelledExit(p: Pipe, venues: set<string>)
    requires Reachable(p, venues) && !p.ctxDone && p.main.Exited?
    ensures AtRest(p) && p.disp.mode.Done?
  {
    hide Reachable, Inv, AtRest;
    ReachableInv(p, venues);
    UncancelledExitIsAtRest(p, venues);
  }

  /** Two runs at rest with the same results delivered in the same order report the
      same opportunities, whatever else their schedules did. */
  lemma AlertsAreDetermined(p: Pipe, q: Pipe, venues: set<string>, minNetProfit: real)
    requires Reachable(p, venues) && AtRest(p) && Reachable(q, venues) && AtRest(q)
    requires p.disp.results == q.disp.results
    ensures multiset(Consume.Alerts(p.consumed, minNetProfit)) == multiset(Consume.Alerts(q.consumed, minNetProfit))
  {
    hide *;
    RestIsComplete(p, venues);
    RestIsComplete(q, venues);
    Consume.AlertsPermuted(p.consumed, q.consumed, minNetProfit);
  }

  lemma ResultsAreDistinct(p: Pipe, venues: set<string>)
    requires Reachable(p, venues) && Dispatcher.DistinctBlocks(Emitted(p))
    ensures OneEach(p.disp.results)
    ensures forall r :: r in p.disp.results ==> r.venue in venues && r.block in Emitted(p)
  {
    hide Reachable, Inv, Runs, OneEach, Spent, Emitted, Dispatcher.DistinctBlocks, Dispatcher.DispInv;
    ReachableInv(p, venues);
    InvParts(p, venues);
    ResultsOneEach(p, venues);
  }

  /** Two runs at rest with the same answers, in whatever order these arrived, report
      the same opportunities on the freshest block. */
  lemma FreshestAlertsAreDetermined(p: Pipe, q: Pipe, venues: set<string>, minNetProfit: real)
    requires Reachable(p, venues) && AtRest(p) && Reachable(q, venues) && AtRest(q)
    requires Dispatcher.DistinctBlocks(Emitted(p)) && multiset(p.disp.results) == multiset(q.disp.results)
    ensures MaxBlock(p.disp.results) == MaxBlock(q.disp.results)
    ensures var n := MaxBlock(p.disp.results);
            multiset(Consume.Alerts(OnBlock(p.consumed, n), minNetProfit)) ==
            multiset(Consume.Alerts(OnBlock(q.consumed, n), minNetProfit))
  {
    hide *;
    RestIsComplete(p, venues);
    RestIsComplete(q, venues);
    ResultsAreDistinct(p, venues);
    var n := MaxBlock(p.disp.results);
    ArrivalOrderDoesNotMatter(p.disp.results, p.consumed, q.disp.results, q.consumed, n);
    Consume.AlertsPermuted(OnBlock(p.consumed, n), OnBlock(q.consumed, n), minNetProfit);
  }

  // ----- The freshest block

  ghost predicate Freshest(events: seq<BlockEvent>, block: BlockEvent) {
    block in events && forall e :: e in events ==> e.number <= block.number
  }

  /** Every venue's answer on the block is among the results. */
  lemma EveryVenueAnswered(d: Dispatcher.Disp, venues: set<string>, block: BlockEvent)
    requires Dispatcher.DispInv(d, venues, false) && Dispatcher.Idle(d) && block in d.accepted
    ensures forall v :: v in venues ==> exists r :: r in d.results && r.block == block && r.venue == v
  {
    hide Dispatcher.DispInv, Dispatcher.Idle;
    var i: nat :| i < |d.accepted| && d.accepted[i] == block;
    forall v | v in venues
      ensures exists r :: r in d.results && r.block == block && r.venue == v
    {
      Dispatcher.EachDeliveredOnce(d, venues, i, v);
      var k :| 0 <= k < |d.results| && d.results[k].venue == v && d.results[k].block == block;
      assert d.results[k] in d.results;
    }
  }

  lemma RestAnswers(p: Pipe, venues: set<string>, block: BlockEvent)
    requires Reachable(p, venues) && AtRest(p) && block in Emitted(p)
    ensures forall v :: v in venues ==> exists r :: r in p.disp.results && r.block == block && r.venue == v
  {
    hide Reachable, Inv, Runs, Spent, Emitted, AtRest, Queue, Chain.Unsent, Dispatcher.DispInv, Dispatcher.Idle;
    ReachableInv(p, venues);
    InvParts(p, venues);
    NothingUnderWay(p, venues);
    NotCancelled(p);
    EveryVenueAnswered(p.disp, venues, block);
  }

  lemma FreshestIsMax(results: seq<VenueResult>, events: seq<BlockEvent>, block: BlockEvent)
    requires Freshest(events, block) && forall r :: r in results ==> r.block in events
    requires exists r :: r in results && r.block == block
    ensures MaxBlock(results) == block.number
  {
    MaxIsMember(results);
  }

  /** At rest, all V (V - 1) S candidates of the freshest block have been consumed if
      the venues quoted every size of it cleanly. */
  lemma FreshestBlockIsConsumedInFull(p: Pipe, venues: set<string>, sizes: seq<real>, block: BlockEvent)
    requires Reachable(p, venues) && AtRest(p)
    requires Dispatcher.DistinctBlocks(Emitted(p)) && Freshest(Emitted(p), block)
    requires forall r :: r in p.disp.results && r.block == block ==>
               r.err.None? && CleanAndAligned(PartnerOf(r), sizes)
    ensures |OnBlock(p.consumed, block.number)| == |sizes| * (|venues| * (|venues| - 1))
  {
    assert block in Emitted(p);
    hide Reachable, AtRest, Emitted, Runs, OneEach, CleanAndAligned, OnBlock, MaxBlock, Freshest;
    hide Dispatcher.DistinctBlocks, Dispatcher.Idle, Queue, Expected, Chain.Unsent;
    RestIsComplete(p, venues);
    ResultsAreDistinct(p, venues);
    RestAnswers(p, venues, block);
    NumberNamesBlock(Emitted(p), block);
    if venues == {} {
      NoVenuesNoCandidates(p.disp.results, p.consumed, venues, block.number);
    } else {
      var v :| v in venues;
      FreshestIsMax(p.disp.results, Emitted(p), block);
      AllPairsWhenClean(p.disp.results, p.consumed, block, venues, sizes);
    }
  }

  lemma NoVenuesNoCandidates(results: seq<VenueResult>, out: seq<CandidatePath>, venues: set<string>, n: int)
    requires Runs(results, out) && venues == {} && forall r :: r in results ==> r.venue in venues
    ensures OnBlock(out, n) == []
  {
    assert results != [] ==> results[0].venue in venues;
    EmptyRun(results, out);
  }

  // ----- Progress

  /** Whatever has happened so far: the program can take no step by itself exactly
      when all its stages are quiet, and then it has exited or the outside has yet
      to answer. */
  lemma NoScheduleDeadlocks(p: Pipe, venues: set<string>)
    requires Reachable(p, venues)
    ensures (forall l :: ByItself(l) ==> !Enabled(p, l)) <==> Quiet(p)
    ensures Quiet(p) ==> p.main.Exited? || AwaitsEnvironment(p)
  {
    hide Reachable, Inv, AwaitsEnvironment, Enabled, ByItself, Quiet;
    ReachableInv(p, venues);
    BlockedIffQuiet(p, venues);
    if Quiet(p) && !p.main.Exited? {
      QuietAwaitsTheOutside(p);
    }
  }
}
