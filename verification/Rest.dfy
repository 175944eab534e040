/** Between two occurrences outside, the program comes to rest; and at rest,
    uncancelled, nothing is under way (cmd/arbd/main.go). */
module Rest {
  import opened Pricing
  import opened Pathfinder
  import opened Daemon
  import opened Shutdown
  import Chain
  import Dispatcher

  /** The program's own steps and the answers of the venues it has asked. */
  predicate OwnOrAnswer(l: Label) {
    ByItself(l) || l.SnapshotReturns?
  }

  /** Not cancelled, every venue has answered, and no step is left to take. */
  ghost predicate AtRest(p: Pipe) {
    !p.ctxDone && p.disp.running == {} && forall l :: ByItself(l) ==> !Enabled(p, l)
  }

  // ----- No livelock

  function OwnRank(pc: Chain.Pc, venues: nat): nat {
    match pc
    case Returned(_) => 0
    case Dialing => 1
    case Backoff => 1
    case Closing(_) => 2
    case Streaming(_) => 3
    case Emitting(_, _) => 5 + 4 * venues
  }

  function Pending(p: Pipe, venues: set<string>): nat {
    OwnRank(p.sub.pc, |venues|) + DispRank(p.disp)
  }

  predicate Closer(p': Pipe, p: Pipe, venues: set<string>) {
    || Pending(p', venues) < Pending(p, venues)
    || (Pending(p', venues) == Pending(p, venues) && Downstream(p') < Downstream(p))
  }

  lemma SubSettles(p: Pipe, venues: nat, l: Label)
    requires SubEnabled(p, l) && OwnOrAnswer(l)
    ensures var before, after := OwnRank(p.sub.pc, venues), OwnRank(SubAfter(p, l).pc, venues);
            && (l.SubArm? ==> after < before)
            && (l.PassEvent? ==> after + 2 + 4 * venues == before)
            && (!l.SubArm? && !l.PassEvent? ==> after == before)
  {
  }

  lemma PendingFalls(p: Pipe, venues: set<string>, l: Label)
    requires Enabled(p, l) && OwnOrAnswer(l)
    ensures if SubStep(l).Some? || DispStep(p, l).Some?
            then Pending(Apply(p, venues, l), venues) < Pending(p, venues)
            else Pending(Apply(p, venues, l), venues) == Pending(p, venues)
  {
    SubSettles(p, |venues|, l);
    DispAfterFalls(p, venues, l);
    hide OwnRank, DispRank, SubAfter, DispAfter, PfAfter, MainAfter, SubEnabled, DispEnabled, PfEnabled, MainEnabled;
  }

  /** In every state each step of the program itself, and each answer of a venue,
      brings it closer to rest. */
  lemma EveryOwnStepDescends(p: Pipe, venues: set<string>, l: Label)
    requires Enabled(p, l) && OwnOrAnswer(l)
    ensures Closer(Apply(p, venues, l), p, venues) && Apply(p, venues, l).ctxDone == p.ctxDone
  {
    PendingFalls(p, venues, l);
    DownstreamFalls(p, venues, l);
    hide Pending, Downstream, SubAfter, DispAfter, PfAfter, MainAfter, Enabled;
  }

  ghost predicate CanSettle(p: Pipe) {
    exists l :: OwnOrAnswer(l) && Enabled(p, l)
  }

  /** The program runs, and its venues answer, while nothing else happens outside. */
  ghost predicate Settling(run: nat -> Pipe, steps: nat -> Label, venues: set<string>) {
    forall i: nat {:trigger steps(i)} ::
      if CanSettle(run(i)) then
        OwnOrAnswer(steps(i)) && Enabled(run(i), steps(i)) && run(i + 1) == Apply(run(i), venues, steps(i))
      else run(i + 1) == run(i)
  }

  lemma SettlingDescends(run: nat -> Pipe, steps: nat -> Label, venues: set<string>, n: nat)
    requires Settling(run, steps, venues) && CanSettle(run(n))
    ensures Closer(run(n + 1), run(n), venues) && run(n + 1).ctxDone == run(n).ctxDone
  {
    assert OwnOrAnswer(steps(n)) && Enabled(run(n), steps(n)) && run(n + 1) == Apply(run(n), venues, steps(n));
    hide Settling, CanSettle, OwnOrAnswer, Enabled, Apply, Closer;
    EveryOwnStepDescends(run(n), venues, steps(n));
  }

  lemma RunningCanSettle(p: Pipe)
    ensures p.disp.running != {} ==> CanSettle(p)
  {
    if p.disp.running != {} {
      var t :| t in p.disp.running;
      assert Enabled(p, SnapshotReturns(t, Quotes([], []), None));
    }
  }

  lemma SettledIsAtRest(p: Pipe)
    requires !CanSettle(p) && !p.ctxDone
    ensures AtRest(p)
  {
    RunningCanSettle(p);
    hide Enabled;
  }

  /** So an uncancelled program always comes to rest once its venues have answered
      and nothing new arrives. */
  lemma {:induction false} ComesToRest(run: nat -> Pipe, steps: nat -> Label, venues: set<string>, n: nat)
    requires Settling(run, steps, venues) && !run(n).ctxDone
    ensures exists k: nat :: k >= n && AtRest(run(k))
    decreases Pending(run(n), venues), Downstream(run(n))
  {
    hide Settling, CanSettle, AtRest, Pending, Downstream;
    if CanSettle(run(n)) {
      SettlingDescends(run, steps, venues, n);
      ComesToRest(run, steps, venues, n + 1);
      var k: nat :| k >= n + 1 && AtRest(run(k));
    } else {
      SettledIsAtRest(run(n));
    }
  }

  // ----- What rest means

  /** Nothing is in flight, waits to be started, sent or consumed, or was lost; no
      header is held back. */
  lemma NothingUnderWay(p: Pipe, venues: set<string>)
    requires Inv(p, venues) && AtRest(p)
    ensures Dispatcher.Idle(p.disp) && p.disp.leaving == {} && p.disp.dropped == {}
    ensures Queue(p.pf) == [] && p.pf.dropped == [] && p.consumed == p.pf.offered
    ensures !Chain.Unsent(p.sub.log)
  {
    BlockedIffQuiet(p, venues);
    SpentCounts(p.pf.offered, p.consumed, p.pf.dropped, Queue(p.pf));
    hide Spent, Ordered, Flow, Runs, Chain.Legal, Chain.Unsent, Dispatcher.Placed, Dispatcher.Faithful, Enabled;
    assert p.consumed + [] == p.consumed;
  }

  /** A program that exits without a cancellation is at rest. */
  lemma UncancelledExitIsAtRest(p: Pipe, venues: set<string>)
    requires Inv(p, venues) && p.main.Exited? && !p.ctxDone
    ensures AtRest(p) && p.disp.mode.Done?
  {
    ExitedUncancelled(p, venues);
    BlockedIffQuiet(p, venues);
    hide Inv, Enabled, ByItself;
  }

  lemma ExitedUncancelled(p: Pipe, venues: set<string>)
    requires Inv(p, venues) && p.main.Exited? && !p.ctxDone
    ensures Quiet(p) && p.disp.mode.Done? && p.disp.running == {}
  {
    Dispatcher.NoSendAfterClose(p.disp, venues, false);
    hide Chain.SubInv, Dispatcher.DispInv, PfInv, Flow, Spent;
  }
}
