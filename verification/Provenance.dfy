/** Where the candidates of the running program come from: what the venues' snapshots
    returned (cmd/arbd/main.go, internal/pipeline/dispatcher.go). */
module Provenance {
  import opened Pricing
  import opened Messages
  import opened Pathfinder
  import opened PathfinderLaws
  import opened Daemon
  import opened Pipeline
  import Dispatcher

  /** The effect of one entry of a schedule. */
  ghost function Happen(p: Pipe, venues: set<string>, l: Label): Pipe {
    if Enabled(p, l) then Apply(p, venues, l) else p
  }

  lemma {:induction false} PlayLast(p: Pipe, venues: set<string>, schedule: seq<Label>)
    requires schedule != []
    ensures Play(p, venues, schedule) ==
            Happen(Play(p, venues, schedule[..|schedule| - 1]), venues, schedule[|schedule| - 1])
    decreases |schedule|
  {
    hide Enabled, Apply;
    var n := |schedule| - 1;
    if n == 0 {
      assert schedule[1..] == [] && schedule[..0] == [];
    } else {
      assert schedule[..n][1..] == schedule[1..][..n - 1];
      PlayLast(Happen(p, venues, schedule[0]), venues, schedule[1..]);
    }
  }

  /** At its m-th entry the schedule returns the snapshot of the task, with the quotes
      and the error of `r`. */
  ghost predicate ReturnedAt(venues: set<string>, schedule: seq<Label>, t: Task, r: VenueResult, m: nat) {
    && m < |schedule| && schedule[m] == SnapshotReturns(t, r.quotes, r.err)
    && t in Play(STARTED, venues, schedule[..m]).disp.running
  }

  ghost predicate Snapshot(venues: set<string>, schedule: seq<Label>, t: Task, r: VenueResult) {
    exists m: nat :: ReturnedAt(venues, schedule, t, r, m)
  }

  lemma SnapshotLater(venues: set<string>, schedule: seq<Label>, t: Task, r: VenueResult)
    requires schedule != [] && Snapshot(venues, schedule[..|schedule| - 1], t, r)
    ensures Snapshot(venues, schedule, t, r)
  {
    hide Play;
    var m: nat :| ReturnedAt(venues, schedule[..|schedule| - 1], t, r, m);
    assert schedule[..|schedule| - 1][..m] == schedule[..m];
    assert ReturnedAt(venues, schedule, t, r, m);
  }

  lemma SnapshotNow(venues: set<string>, schedule: seq<Label>, t: Task, r: VenueResult)
    requires schedule != [] && schedule[|schedule| - 1] == SnapshotReturns(t, r.quotes, r.err)
    requires t in Play(STARTED, venues, schedule[..|schedule| - 1]).disp.running
    ensures Snapshot(venues, schedule, t, r)
  {
    hide Play;
    assert ReturnedAt(venues, schedule, t, r, |schedule| - 1);
  }

  /** Each pending or delivered result is what its venue returned. */
  ghost predicate FromSnapshots(d: Dispatcher.Disp, venues: set<string>, schedule: seq<Label>) {
    && (forall t :: t in d.sending ==> Snapshot(venues, schedule, t, d.sending[t]))
    && |d.results| == |d.delivered|
    && (forall k :: 0 <= k < |d.results| ==> Snapshot(venues, schedule, d.delivered[k], d.results[k]))
  }

  lemma StepFromSnapshots(p: Pipe, venues: set<string>, schedule: seq<Label>)
    requires schedule != [] && p == Play(STARTED, venues, schedule[..|schedule| - 1])
    requires FromSnapshots(p.disp, venues, schedule[..|schedule| - 1])
    ensures FromSnapshots(Happen(p, venues, schedule[|schedule| - 1]).disp, venues, schedule)
  {
    hide Play, Snapshot, SubEnabled, PfEnabled, MainEnabled, SubAfter, PfAfter, MainAfter;
    var l := schedule[|schedule| - 1];
    forall t, r | Snapshot(venues, schedule[..|schedule| - 1], t, r)
      ensures Snapshot(venues, schedule, t, r)
    {
      SnapshotLater(venues, schedule, t, r);
    }
    if l.SnapshotReturns? && Enabled(p, l) {
      SnapshotNow(venues, schedule, l.task, Happen(p, venues, l).disp.sending[l.task]);
    }
  }

  /** After any schedule every result delivered carries the quotes and the error that
      its venue's snapshot returned to this very goroutine. */
  lemma {:induction false} ResultsAreSnapshots(venues: set<string>, schedule: seq<Label>)
    ensures FromSnapshots(Play(STARTED, venues, schedule).disp, venues, schedule)
    decreases |schedule|
  {
    if schedule != [] {
      var n := |schedule| - 1;
      ResultsAreSnapshots(venues, schedule[..n]);
      PlayLast(STARTED, venues, schedule);
      hide FromSnapshots, Play, Happen;
      StepFromSnapshots(Play(STARTED, venues, schedule[..n]), venues, schedule);
    }
  }

  /** A snapshot that the schedule returned without error to a goroutine of the venue
      about the block. */
  ghost predicate CleanSnapshot(venues: set<string>, schedule: seq<Label>, r: VenueResult) {
    r.err == None && exists t: Task :: t.venue == r.venue && t.ev == r.block && Snapshot(venues, schedule, t, r)
  }

  lemma DeliveredIsSnapshot(p: Pipe, venues: set<string>, schedule: seq<Label>, r: VenueResult)
    requires p == Play(STARTED, venues, schedule) && Dispatcher.Faithful(p.disp)
    requires r in p.disp.results && r.err.None?
    ensures CleanSnapshot(venues, schedule, r)
  {
    ResultsAreSnapshots(venues, schedule);
    hide Play, Snapshot;
    var k :| 0 <= k < |p.disp.results| && p.disp.results[k] == r;
    assert Snapshot(venues, schedule, p.disp.delivered[k], r);
  }

  /** After any schedule, cancelled or not, every consumed candidate is priced by two
      clean snapshots the venues returned about its block number: it buys at the ask
      of the one and sells at the bid of the other. */
  lemma ConsumedComesFromSnapshots(venues: set<string>, schedule: seq<Label>, c: CandidatePath)
    requires c in Play(STARTED, venues, schedule).consumed
    ensures exists buyer, seller, i ::
              && CleanSnapshot(venues, schedule, buyer) && CleanSnapshot(venues, schedule, seller)
              && PricedBy(c, buyer, seller, i)
              && buyer.block.number == seller.block.number == c.block.number
  {
    var p := Play(STARTED, venues, schedule);
    assert Reachable(p, venues);
    hide Play, Reachable, Inv, Runs, Spent, PricedBy, CleanSnapshot, Dispatcher.Faithful, Dispatcher.Placed;
    ReachableInv(p, venues);
    InvParts(p, venues);
    ConsumedWasOffered(p, c);
    EveryCandidateIsPriced(p.disp.results, p.pf.offered, c);
    var buyer, seller, i :| && buyer in p.disp.results && seller in p.disp.results && PricedBy(c, buyer, seller, i)
                            && buyer.err.None? && seller.err.None?
                            && buyer.block.number == seller.block.number == c.block.number;
    DeliveredIsSnapshot(p, venues, schedule, buyer);
    DeliveredIsSnapshot(p, venues, schedule, seller);
  }

  // ----- The way to the exit

  /** The steps that have led the main goroutine to where it is. */
  predicate Collected(main: Main, schedule: seq<Label>) {
    && (!main.Consuming? ==> CandidatesClosed in schedule)
    && (main.AwaitDisp? || main.AwaitPf? || main == Exited(Clean) ==> CollectSub in schedule)
    && (main.AwaitPf? || main == Exited(Clean) ==> CollectDisp in schedule)
    && (main == Exited(Clean) ==> CollectPf in schedule)
  }

  lemma StepCollects(p: Pipe, venues: set<string>, before: seq<Label>, l: Label)
    requires Collected(p.main, before)
    ensures Collected(Happen(p, venues, l).main, before + [l])
  {
    hide SubEnabled, DispEnabled, PfEnabled, SubAfter, DispAfter, PfAfter;
  }

  /** A clean exit has seen the candidates closed and collected the result of every
      stage. */
  lemma {:induction false} ExitCollectsAll(venues: set<string>, schedule: seq<Label>)
    ensures Collected(Play(STARTED, venues, schedule).main, schedule)
    decreases |schedule|
  {
    if schedule != [] {
      var n := |schedule| - 1;
      ExitCollectsAll(venues, schedule[..n]);
      PlayLast(STARTED, venues, schedule);
      hide Collected, Play, Happen;
      StepCollects(Play(STARTED, venues, schedule[..n]), venues, schedule[..n], schedule[n]);
      assert schedule[..n] + [schedule[n]] == schedule;
    }
  }
}
