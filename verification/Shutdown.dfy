/** The program never blocks on itself, and once it drains it comes to an end
    (cmd/arbd/main.go). */
module Shutdown {
  import opened Pricing
  import opened Messages
  import opened Pathfinder
  import opened Daemon
  import Chain
  import Dispatcher

  // ----- Deadlock freedom

  /** Neither the signal, nor what a dial, the back-off timer, a subscription or
      a venue brings. */
  predicate ByItself(l: Label) {
    match l
    case Cancel => false
    case SnapshotReturns(_, _, _) => false
    case SubArm(arm) => arm.CtxDone? || arm.Proceed?
    case _ => true
  }

  ghost predicate CanStep(p: Pipe) {
    exists l :: ByItself(l) && Enabled(p, l)
  }

  /** The subscriber waits for a dial, waits for the timer or the node with the
      context alive, or has returned. */
  predicate SubscriberQuiet(p: Pipe) {
    !p.sub.pc.Emitting? && !p.sub.pc.Closing? && (p.ctxDone ==> p.sub.pc.Dialing? || p.sub.pc.Returned?)
  }

  /** The dispatcher waits for a live subscriber or for venues, or is done, and
      no goroutine is past its venue's answer. */
  predicate DispatcherQuiet(p: Pipe) {
    && p.disp.sending == map[] && p.disp.leaving == {}
    && match p.disp.mode
       case Looping => !p.ctxDone && !p.sub.pc.Returned?
       case Spawning(_, _, _) => false
       case Waiting(_) => p.disp.running != {}
       case Done(_) => true
  }

  /** The Pathfinder waits for a live dispatcher, or is gone. */
  predicate PathfinderQuiet(p: Pipe) {
    match p.pf.mode
    case Idle => !p.ctxDone && !p.disp.mode.Done?
    case Sending(_) => false
    case Gone(_) => true
  }

  /** The main goroutine waits for a stage that has not ended. */
  predicate MainQuiet(p: Pipe) {
    match p.main
    case Consuming => !p.pf.mode.Gone?
    case AwaitSub => !p.sub.pc.Returned?
    case AwaitDisp => !p.disp.mode.Done?
    case AwaitPf => false
    case Exited(_) => true
  }

  predicate Quiet(p: Pipe) {
    SubscriberQuiet(p) && DispatcherQuiet(p) && PathfinderQuiet(p) && MainQuiet(p)
  }

  /** Something outside has yet to answer: a dial, a venue's snapshot or, while
      the context is alive, the back-off timer or the node. */
  predicate AwaitsEnvironment(p: Pipe) {
    || p.sub.pc.Dialing?
    || p.disp.running != {}
    || (!p.ctxDone && (p.sub.pc.Backoff? || p.sub.pc.Streaming?))
  }

  lemma EnumerateOneMore(m: map<string, IndexableQuotes>, v: string, ps: seq<Partner>)
    requires v in m && Enumerates(ps, m - {v})
    ensures Enumerates(ps + [Partner(v, m[v])], m)
  {
    hide AgainstAll, Pairs, Enumerates;
    OneMorePartner(ps, m, {v}, v, BlockEvent(0, 0, None), Partner(v, m[v]));
    assert m - ({v} - {v}) == m;
  }

  /** Every map can be enumerated, so there is always something to emit. */
  lemma {:induction false} EnumerationExists(m: map<string, IndexableQuotes>)
    ensures exists ps :: Enumerates(ps, m)
    decreases |m|
  {
    if m == map[] {
      assert Enumerates([], m);
    } else {
      hide Enumerates;
      var v :| v in m;
      Dispatcher.SizeAfterRemoval(m, v);
      EnumerationExists(m - {v});
      var ps :| Enumerates(ps, m - {v});
      EnumerateOneMore(m, v, ps);
    }
  }

  lemma EmissionExists(s: State, r: VenueResult)
    ensures exists emitted :: Emits(s, r, emitted)
  {
    HandleCases(s, r);
    if r.block.number < s.currentBlock || r.err.Some? {
      assert Emits(s, r, []);
    } else {
      EnumerationExists(Advance(s, r.block.number).venueQuotes);
      var ps :| Enumerates(ps, Advance(s, r.block.number).venueQuotes);
      EmitsInOrder(s, r, ps, AgainstAll(r.block, PartnerOf(r), ps));
    }
  }

  lemma Witness(p: Pipe, l: Label)
    requires ByItself(l) && Enabled(p, l)
    ensures CanStep(p)
  {
  }

  lemma DispatcherCanSpawn(p: Pipe, venues: set<string>)
    requires Dispatcher.Moded(p.disp, venues, p.ctxDone) && p.disp.mode.Spawning?
    ensures CanStep(p)
  {
    var v :| v in p.disp.mode.left;
    Witness(p, Spawn(v));
  }

  lemma DispatcherCanClose(p: Pipe, venues: set<string>)
    requires Dispatcher.Counted(p.disp, venues) && p.disp.mode.Waiting?
    requires p.disp.running == {} && p.disp.sending == map[] && p.disp.leaving == {}
    ensures CanStep(p)
  {
    assert Dispatcher.InFlight(p.disp) == 0;
    Witness(p, CloseResults);
  }

  lemma PathfinderCanReceive(p: Pipe)
    requires p.pf.mode.Idle? && p.disp.sending != map[]
    ensures CanStep(p)
  {
    var t :| t in p.disp.sending;
    EmissionExists(p.pf.state, p.disp.sending[t]);
    hide Emits;
    var emitted :| Emits(p.pf.state, p.disp.sending[t], emitted);
    Witness(p, PassResult(t, emitted));
  }

  lemma PathfinderCanSend(p: Pipe)
    requires PfInv(p.pf, p.ctxDone) && Ordered(p) && p.pf.mode.Sending?
    ensures CanStep(p)
  {
    Witness(p, PassCandidate);
  }

  /** A subscriber that is not quiet can go on, or the stage it hands to can. */
  lemma SubscriberCanStep(p: Pipe, venues: set<string>)
    requires Inv(p, venues) && !SubscriberQuiet(p)
    ensures CanStep(p)
  {
    hide CanStep, Dispatcher.Placed, Dispatcher.Counted, Dispatcher.Faithful, Chain.SubInv, PfInv, Flow, Spent;
    if p.sub.pc.Closing? {
      Witness(p, SubArm(Chain.Proceed));
    } else if p.ctxDone {
      Witness(p, SubArm(Chain.CtxDone));
    } else if p.disp.mode.Spawning? {
      DispatcherCanSpawn(p, venues);
    } else {
      Witness(p, PassEvent);
    }
  }

  /** A goroutine in its send is received from, or the context releases it. */
  lemma GoroutineCanStep(p: Pipe, venues: set<string>)
    requires Inv(p, venues) && (p.disp.sending != map[] || p.disp.leaving != {})
    ensures CanStep(p)
  {
    hide CanStep, Dispatcher.Placed, Dispatcher.Faithful, Chain.SubInv, Runs, Flow, Spent;
    if p.disp.leaving != {} {
      var t :| t in p.disp.leaving;
      Witness(p, TaskReturns(t));
    } else if p.pf.mode.Idle? {
      PathfinderCanReceive(p);
    } else if p.pf.mode.Sending? {
      PathfinderCanSend(p);
    } else {
      DroppingCanStep(p, venues);
    }
  }

  lemma DroppingCanStep(p: Pipe, venues: set<string>)
    requires Ordered(p) && Dispatcher.Moded(p.disp, venues, p.ctxDone)
    requires p.disp.sending != map[] && p.pf.mode.Gone?
    ensures CanStep(p)
  {
    var t :| t in p.disp.sending;
    assert |p.disp.sending| > 0;
    Witness(p, DropResult(t));
  }

  lemma DispatcherCanStep(p: Pipe, venues: set<string>)
    requires Inv(p, venues) && !DispatcherQuiet(p)
    ensures CanStep(p)
  {
    hide CanStep, Dispatcher.Placed, Dispatcher.Faithful, Chain.SubInv, PfInv, Flow, Spent, Ordered;
    if p.disp.sending != map[] || p.disp.leaving != {} {
      GoroutineCanStep(p, venues);
    } else if p.disp.mode.Spawning? {
      DispatcherCanSpawn(p, venues);
    } else if p.disp.mode.Waiting? {
      DispatcherCanClose(p, venues);
    } else if p.ctxDone {
      Witness(p, DispCancel);
    } else {
      Witness(p, EventsClosed);
    }
  }

  lemma PathfinderCanStep(p: Pipe, venues: set<string>)
    requires Inv(p, venues) && !PathfinderQuiet(p)
    ensures CanStep(p)
  {
    hide CanStep, Chain.SubInv, Dispatcher.DispInv, Runs, Flow, Spent;
    if p.pf.mode.Sending? {
      PathfinderCanSend(p);
    } else if p.ctxDone {
      Witness(p, PfCancel);
    } else {
      Witness(p, ResultsClosed);
    }
  }

  lemma MainCanStep(p: Pipe, venues: set<string>)
    requires Inv(p, venues) && !MainQuiet(p)
    ensures CanStep(p)
  {
    hide CanStep, Chain.SubInv, Dispatcher.DispInv, PfInv, Flow, Spent;
    match p.main
    case Consuming => Witness(p, CandidatesClosed);
    case AwaitSub => Witness(p, CollectSub);
    case AwaitDisp => Witness(p, CollectDisp);
    case AwaitPf => Witness(p, CollectPf);
    case Exited(_) =>
  }

  lemma QuietCannotStep(p: Pipe, venues: set<string>, l: Label)
    requires Inv(p, venues) && Quiet(p) && ByItself(l)
    ensures !Enabled(p, l)
  {
    hide Chain.SubInv, Dispatcher.Placed, Dispatcher.Faithful, PfInv, Flow, Spent, Ordered, Emits;
    if p.disp.mode.Waiting? {
      assert |p.disp.running| > 0;
    }
  }

  /** The program can take no step by itself exactly when every single stage is
      waiting for another one that is alive, or for the outside. */
  lemma BlockedIffQuiet(p: Pipe, venues: set<string>)
    requires Inv(p, venues)
    ensures (forall l :: ByItself(l) ==> !Enabled(p, l)) <==> Quiet(p)
  {
    if Quiet(p) {
      forall l | ByItself(l)
        ensures !Enabled(p, l)
      {
        QuietCannotStep(p, venues, l);
      }
    } else {
      hide Inv, SubscriberQuiet, DispatcherQuiet, PathfinderQuiet, MainQuiet, ByItself, Enabled;
      if !SubscriberQuiet(p) {
        SubscriberCanStep(p, venues);
      } else if !DispatcherQuiet(p) {
        DispatcherCanStep(p, venues);
      } else if !PathfinderQuiet(p) {
        PathfinderCanStep(p, venues);
      } else {
        MainCanStep(p, venues);
      }
    }
  }

  /** The stages never wait only for each other. */
  lemma QuietAwaitsTheOutside(p: Pipe)
    requires Quiet(p) && !p.main.Exited?
    ensures AwaitsEnvironment(p)
  {
  }

  // ----- The way down

  /** The context is done, or the subscriber gave up by itself. */
  predicate Draining(p: Pipe) {
    p.ctxDone || p.sub.pc.Returned?
  }

  /** A select that could have stopped took another arm: one more header, or one
      more dial. Go chooses among ready arms at random. */
  predicate Unlucky(p: Pipe, l: Label) {
    && p.ctxDone && l.SubArm?
    && (|| (p.sub.pc.Streaming? && l.arm.HeaderReceived? && l.arm.header.Header?)
        || (p.sub.pc.Backoff? && l.arm.DelayElapsed?))
  }

  function SubRank(pc: Chain.Pc, venues: nat): nat {
    match pc
    case Returned(_) => 0
    case Closing(_) => 1
    case Streaming(_) => 2
    case Backoff => 2
    case Dialing => 3
    case Emitting(_, _) => 4 + 4 * venues
  }

  function ModeRank(m: Dispatcher.Mode): nat {
    match m
    case Done(_) => 0
    case Waiting(_) => 1
    case Looping => 2
    case Spawning(_, _, left) => 3 + 4 * |left|
  }

  function DispRank(d: Dispatcher.Disp): nat {
    ModeRank(d.mode) + 3 * |d.running| + 2 * |d.sending| + |d.leaving|
  }

  function PfRank(m: PfMode): nat {
    match m
    case Gone(_) => 0
    case Idle => 1
    case Sending(queue) => 1 + |queue|
  }

  function MainRank(m: Main): nat {
    match m
    case Exited(_) => 0
    case AwaitPf => 1
    case AwaitDisp => 2
    case AwaitSub => 3
    case Consuming => 4
  }

  /** What is left of the input side; a result taken off it may yield any number
      of candidates, so it comes first. */
  function Upstream(p: Pipe, venues: set<string>): nat {
    (if p.ctxDone then 0 else 1) + SubRank(p.sub.pc, |venues|) + DispRank(p.disp)
  }

  function Downstream(p: Pipe): nat {
    PfRank(p.pf.mode) + MainRank(p.main)
  }

  predicate Lower(p': Pipe, p: Pipe, venues: set<string>) {
    || Upstream(p', venues) < Upstream(p, venues)
    || (Upstream(p', venues) == Upstream(p, venues) && Downstream(p') < Downstream(p))
  }

  lemma SubFalls(s: Chain.Sub, ctxDone: bool, arm: Chain.Arm, venues: nat)
    requires Chain.Offers(s.pc, ctxDone, arm) && ctxDone
    requires !(s.pc.Streaming? && arm.HeaderReceived? && arm.header.Header?) && !(s.pc.Backoff? && arm.DelayElapsed?)
    ensures SubRank(Chain.Next(s, ctxDone, arm).pc, venues) < SubRank(s.pc, venues)
    ensures arm.Sent? ==> SubRank(Chain.Next(s, ctxDone, arm).pc, venues) + 2 + 4 * venues == SubRank(s.pc, venues)
  {
  }

  lemma SpawnFalls(d: Dispatcher.Disp, venues: set<string>, ctxDone: bool, venue: string)
    requires Dispatcher.Enabled(d, ctxDone, Dispatcher.Spawn(venue))
    ensures DispRank(Dispatcher.Next(d, venues, ctxDone, Dispatcher.Spawn(venue))) < DispRank(d)
  {
    var left := d.mode.left - {venue};
    assert |left| == |d.mode.left| - 1;
    assert |d.running + {Dispatcher.Task(d.mode.index, venue, d.mode.ev)}| <= |d.running| + 1;
    assert ModeRank(Dispatcher.LoopOver(d.mode.index, d.mode.ev, left)) <= 3 + 4 * |left|;
    hide ModeRank, Dispatcher.LoopOver;
  }

  lemma AnswerFalls(d: Dispatcher.Disp, venues: set<string>, ctxDone: bool, t: Dispatcher.Task, quotes: IndexableQuotes,
                    err: Option<Error>)
    requires t in d.running
    ensures DispRank(Dispatcher.Next(d, venues, ctxDone, Dispatcher.Answer(t, quotes, err))) < DispRank(d)
  {
    Dispatcher.SizeAfterUpdate(d.sending, t, VenueResult(t.venue, t.ev, quotes, err));
    assert |d.running - {t}| == |d.running| - 1;
    hide ModeRank;
  }

  lemma SettleFalls(d: Dispatcher.Disp, venues: set<string>, ctxDone: bool, t: Dispatcher.Task)
    requires t in d.sending
    ensures DispRank(Dispatcher.Next(d, venues, ctxDone, Dispatcher.Deliver(t))) < DispRank(d)
    ensures ctxDone ==> DispRank(Dispatcher.Next(d, venues, ctxDone, Dispatcher.Drop(t))) < DispRank(d)
  {
    Dispatcher.SizeAfterRemoval(d.sending, t);
    assert |d.leaving + {t}| <= |d.leaving| + 1;
    hide ModeRank;
  }

  lemma FinishFalls(d: Dispatcher.Disp, venues: set<string>, ctxDone: bool, t: Dispatcher.Task)
    requires t in d.leaving
    ensures DispRank(Dispatcher.Next(d, venues, ctxDone, Dispatcher.Finish(t))) < DispRank(d)
  {
    assert |d.leaving - {t}| == |d.leaving| - 1;
    hide ModeRank;
  }

  lemma LoopFalls(d: Dispatcher.Disp, venues: set<string>, ctxDone: bool, step: Dispatcher.Step)
    requires Dispatcher.Enabled(d, ctxDone, step) && !Dispatcher.OfGoroutine(step) && !step.Spawn?
    ensures var d' := Dispatcher.Next(d, venues, ctxDone, step);
            && (step.Accept? ==> DispRank(d') <= DispRank(d) + 1 + 4 * |venues|)
            && (!step.Accept? ==> DispRank(d') < DispRank(d))
  {
  }

  lemma DispFalls(d: Dispatcher.Disp, venues: set<string>, ctxDone: bool, step: Dispatcher.Step)
    requires Dispatcher.Enabled(d, ctxDone, step)
    ensures var d' := Dispatcher.Next(d, venues, ctxDone, step);
            if step.Accept? then DispRank(d') <= DispRank(d) + 1 + 4 * |venues| else DispRank(d') < DispRank(d)
  {
    hide DispRank, Dispatcher.Next;
    match step
    case Spawn(venue) => SpawnFalls(d, venues, ctxDone, venue);
    case Answer(task, quotes, err) => AnswerFalls(d, venues, ctxDone, task, quotes, err);
    case Deliver(task) => SettleFalls(d, venues, ctxDone, task);
    case Drop(task) => SettleFalls(d, venues, ctxDone, task);
    case Finish(task) => FinishFalls(d, venues, ctxDone, task);
    case _ => LoopFalls(d, venues, ctxDone, step);
  }

  lemma SubAfterFalls(p: Pipe, venues: nat, l: Label)
    requires SubEnabled(p, l) && Draining(p) && !Unlucky(p, l)
    ensures var before, after := SubRank(p.sub.pc, venues), SubRank(SubAfter(p, l).pc, venues);
            && after <= before
            && (l.SubArm? ==> after < before)
            && (l.PassEvent? ==> after + 2 + 4 * venues == before)
  {
    hide SubRank, Chain.Next;
    if SubStep(l).Some? {
      SubFalls(p.sub, p.ctxDone, SubStep(l).value, venues);
    }
  }

  lemma DispAfterFalls(p: Pipe, venues: set<string>, l: Label)
    requires DispEnabled(p, l) && SubEnabled(p, l)
    ensures var before, after := DispRank(p.disp), DispRank(DispAfter(p, venues, l));
            if l.PassEvent? then after <= before + 1 + 4 * |venues|
            else if DispStep(p, l).Some? then after < before
            else after == before
  {
    hide DispRank, Dispatcher.Next, Dispatcher.Enabled;
    if DispStep(p, l).Some? {
      DispFalls(p.disp, venues, p.ctxDone, DispStep(p, l).value);
    }
  }

  /** The signal, the subscriber and the dispatcher. */
  lemma UpstreamFalls(p: Pipe, venues: set<string>, l: Label)
    requires Enabled(p, l) && Draining(p) && !Unlucky(p, l)
    ensures Upstream(Apply(p, venues, l), venues) <= Upstream(p, venues)
    ensures l.Cancel? || SubStep(l).Some? || DispStep(p, l).Some? ==>
              Upstream(Apply(p, venues, l), venues) < Upstream(p, venues)
  {
    SubAfterFalls(p, |venues|, l);
    DispAfterFalls(p, venues, l);
    hide SubRank, DispRank, SubAfter, DispAfter, PfAfter, MainAfter, SubEnabled, DispEnabled, PfEnabled, MainEnabled;
  }

  lemma DownstreamFalls(p: Pipe, venues: set<string>, l: Label)
    requires Enabled(p, l)
    ensures l.Cancel? || SubStep(l).Some? || DispStep(p, l).Some? || Downstream(Apply(p, venues, l)) < Downstream(p)
  {
    hide Emits, After, SubAfter, DispAfter;
  }

  /** Once the program drains, every step brings it closer to its end. */
  lemma EveryStepDescends(p: Pipe, venues: set<string>, l: Label)
    requires Enabled(p, l) && Draining(p) && !Unlucky(p, l)
    ensures Draining(Apply(p, venues, l)) && Lower(Apply(p, venues, l), p, venues)
  {
    UpstreamFalls(p, venues, l);
    DownstreamFalls(p, venues, l);
    if p.sub.pc.Returned? {
      SubFinal(p, l);
    }
    hide Upstream, Downstream, SubAfter, DispAfter, PfAfter, MainAfter, Enabled, Unlucky;
  }

  // ----- An end is always within reach

  lemma PlayOneMore(p: Pipe, venues: set<string>, l: Label, schedule: seq<Label>)
    requires Enabled(p, l)
    ensures Play(p, venues, [l] + schedule) == Play(Apply(p, venues, l), venues, schedule)
  {
    assert ([l] + schedule)[1..] == schedule;
  }

  lemma OwnStepsAreLucky(p: Pipe, l: Label)
    requires ByItself(l)
    ensures !Unlucky(p, l)
  {
  }

  /** While the program drains there is a step to take that is not unlucky: one of
      its own, a dial that fails or a snapshot that returns. */
  lemma LuckyStepExists(p: Pipe, venues: set<string>)
    requires Inv(p, venues) && Draining(p) && !p.main.Exited?
    ensures exists l :: Enabled(p, l) && !Unlucky(p, l)
  {
    hide Inv, Enabled, ByItself, Unlucky, Draining, AwaitsEnvironment;
    hide SubscriberQuiet, DispatcherQuiet, PathfinderQuiet, MainQuiet;
    BlockedIffQuiet(p, venues);
    if Quiet(p) {
      QuietAwaitsTheOutside(p);
      OutsideAnswers(p);
    } else {
      var l :| ByItself(l) && Enabled(p, l);
      OwnStepsAreLucky(p, l);
    }
  }

  lemma OutsideAnswers(p: Pipe)
    requires Draining(p) && SubscriberQuiet(p) && AwaitsEnvironment(p)
    ensures exists l :: Enabled(p, l) && !Unlucky(p, l)
  {
    if p.sub.pc.Dialing? {
      assert Enabled(p, SubArm(Chain.DialFails)) && !Unlucky(p, SubArm(Chain.DialFails));
    } else {
      var t :| t in p.disp.running;
      var answer := SnapshotReturns(t, Quotes([], []), None);
      assert Enabled(p, answer) && !Unlucky(p, answer);
    }
  }

  /** From every state in which the program drains some schedule makes it exit. */
  lemma {:induction false} SomeScheduleExits(p: Pipe, venues: set<string>)
    requires Inv(p, venues) && Draining(p)
    ensures exists schedule :: Play(p, venues, schedule).main.Exited?
    decreases Upstream(p, venues), Downstream(p)
  {
    hide Inv, Draining, Enabled, Unlucky, Apply, Upstream, Downstream;
    if p.main.Exited? {
      assert Play(p, venues, []).main.Exited?;
    } else {
      hide Play;
      LuckyStepExists(p, venues);
      var l :| Enabled(p, l) && !Unlucky(p, l);
      var p' := Apply(p, venues, l);
      EveryStepDescends(p, venues, l);
      StepKeepsInv(p, venues, l);
      SomeScheduleExits(p', venues);
      var schedule :| Play(p', venues, schedule).main.Exited?;
      PlayOneMore(p, venues, l, schedule);
    }
  }

  // ----- Executions

  /** The program has not exited and some step can be taken, by itself or from outside. */
  ghost predicate CanGoOn(p: Pipe) {
    !p.main.Exited? && exists l :: Enabled(p, l)
  }

  /** An execution goes on for as long as it can. */
  ghost predicate Execution(run: nat -> Pipe, steps: nat -> Label, venues: set<string>) {
    && Inv(run(0), venues)
    && forall i: nat {:trigger steps(i)} ::
         if CanGoOn(run(i)) then Enabled(run(i), steps(i)) && run(i + 1) == Apply(run(i), venues, steps(i))
         else run(i + 1) == run(i)
  }

  /** No select is unlucky from step n on. */
  ghost predicate LuckyFrom(run: nat -> Pipe, steps: nat -> Label, n: nat) {
    forall i: nat {:trigger steps(i)} :: i >= n ==> !Unlucky(run(i), steps(i))
  }

  lemma {:induction false} ExecutionKeepsInv(run: nat -> Pipe, steps: nat -> Label, venues: set<string>, n: nat)
    requires Execution(run, steps, venues)
    ensures Inv(run(n), venues)
  {
    hide Inv, Enabled, Apply, CanGoOn;
    if n > 0 {
      ExecutionKeepsInv(run, steps, venues, n - 1);
      var l := steps(n - 1);
      if CanGoOn(run(n - 1)) {
        StepKeepsInv(run(n - 1), venues, l);
      }
    }
  }

  lemma DrainingGoesOn(p: Pipe, venues: set<string>)
    requires Inv(p, venues) && Draining(p) && !p.main.Exited?
    ensures CanGoOn(p)
  {
    LuckyStepExists(p, venues);
    hide Inv, Draining, Enabled, Unlucky;
  }

  lemma ExecutionDescends(run: nat -> Pipe, steps: nat -> Label, venues: set<string>, n: nat)
    requires Execution(run, steps, venues) && LuckyFrom(run, steps, n)
    requires Draining(run(n)) && !run(n).main.Exited?
    ensures Draining(run(n + 1)) && Lower(run(n + 1), run(n), venues)
    ensures LuckyFrom(run, steps, n + 1)
  {
    ExecutionKeepsInv(run, steps, venues, n);
    DrainingGoesOn(run(n), venues);
    hide Inv, Unlucky, Enabled, Apply, Lower, Draining, CanGoOn;
    assert run(n + 1) == Apply(run(n), venues, steps(n));
    EveryStepDescends(run(n), venues, steps(n));
  }

  lemma {:induction false} ExitsWhenLucky(run: nat -> Pipe, steps: nat -> Label, venues: set<string>, n: nat)
    requires Execution(run, steps, venues) && LuckyFrom(run, steps, n) && Draining(run(n))
    ensures exists k: nat :: k >= n && run(k).main.Exited?
    decreases Upstream(run(n), venues), Downstream(run(n))
  {
    hide Execution, LuckyFrom, Upstream, Downstream, Draining;
    if !run(n).main.Exited? {
      ExecutionDescends(run, steps, venues, n);
      ExitsWhenLucky(run, steps, venues, n + 1);
      var k: nat :| k >= n + 1 && run(k).main.Exited?;
    }
  }

  lemma StepKeepsDraining(p: Pipe, venues: set<string>, l: Label)
    requires Enabled(p, l) && Draining(p)
    ensures Draining(Apply(p, venues, l))
  {
    if p.sub.pc.Returned? {
      SubFinal(p, l);
    }
    hide SubAfter, DispAfter, PfAfter, MainAfter;
  }

  lemma ExecutionStep(run: nat -> Pipe, steps: nat -> Label, venues: set<string>, i: nat)
    requires Execution(run, steps, venues)
    ensures CanGoOn(run(i)) ==> Enabled(run(i), steps(i)) && run(i + 1) == Apply(run(i), venues, steps(i))
    ensures !CanGoOn(run(i)) ==> run(i + 1) == run(i)
  {
    hide Inv;
    assert steps(i) == steps(i);
    hide CanGoOn, Enabled, Apply;
  }

  /** Draining is for good. */
  lemma {:induction false} KeepsDraining(run: nat -> Pipe, steps: nat -> Label, venues: set<string>, n: nat, m: nat)
    requires Execution(run, steps, venues) && Draining(run(n)) && n <= m
    ensures Draining(run(m))
    decreases m
  {
    hide Execution, CanGoOn, Enabled, Apply, Draining;
    if n < m {
      KeepsDraining(run, steps, venues, n, m - 1);
      ExecutionStep(run, steps, venues, m - 1);
      if CanGoOn(run(m - 1)) {
        StepKeepsDraining(run(m - 1), venues, steps(m - 1));
      }
    }
  }

  lemma {:induction false} ExitedForGood(run: nat -> Pipe, steps: nat -> Label, venues: set<string>, k: nat, i: nat)
    requires Execution(run, steps, venues) && run(k).main.Exited? && k <= i
    ensures run(i) == run(k)
    decreases i
  {
    hide Execution, Enabled, Apply;
    if k < i {
      ExitedForGood(run, steps, venues, k, i - 1);
      ExecutionStep(run, steps, venues, i - 1);
    }
  }

  lemma ExitedHasReturned(p: Pipe, venues: set<string>)
    requires Inv(p, venues) && p.main.Exited?
    ensures p.sub.pc.Returned?
  {
    hide Chain.SubInv, Dispatcher.DispInv, PfInv, Flow, Spent;
  }

  lemma ExitedIsLucky(run: nat -> Pipe, steps: nat -> Label, venues: set<string>, k: nat)
    requires Execution(run, steps, venues) && run(k).main.Exited?
    ensures LuckyFrom(run, steps, k)
  {
    hide Inv, Execution;
    ExecutionKeepsInv(run, steps, venues, k);
    ExitedHasReturned(run(k), venues);
    forall i: nat | i >= k
      ensures !Unlucky(run(i), steps(i))
    {
      ExitedForGood(run, steps, venues, k, i);
    }
  }

  /** A program that drains exits exactly if from some moment on its selects are not
      unlucky any more. */
  lemma ExitsIff(run: nat -> Pipe, steps: nat -> Label, venues: set<string>, n: nat)
    requires Execution(run, steps, venues) && Draining(run(n))
    ensures (exists k: nat :: k >= n && run(k).main.Exited?) <==> (exists m: nat :: m >= n && LuckyFrom(run, steps, m))
  {
    hide Execution, Draining, LuckyFrom;
    if k: nat :| k >= n && run(k).main.Exited? {
      ExitedIsLucky(run, steps, venues, k);
    }
    if m: nat :| m >= n && LuckyFrom(run, steps, m) {
      KeepsDraining(run, steps, venues, n, m);
      ExitsWhenLucky(run, steps, venues, m);
    }
  }

  /** Cancelled while it backs off. */
  const CANCELLED_BACKOFF := STARTED.(ctxDone := true, sub := Chain.Sub(Chain.Backoff, 0, []))

  const REDIALLING := STARTED.(ctxDone := true)

  /** The proviso is no empty worry. This execution of the program fails its first
      dial, is cancelled, and then loses every race of the back-off against its
      timer, with dials that keep failing. */
  function UnluckyRun(i: nat): Pipe {
    if i == 0 then STARTED
    else if i == 1 then CANCELLED_BACKOFF.(ctxDone := false)
    else if i % 2 == 0 then CANCELLED_BACKOFF
    else REDIALLING
  }

  function UnluckySteps(i: nat): Label {
    if i == 1 then Cancel
    else if i % 2 == 0 && i > 0 then SubArm(Chain.DelayElapsed)
    else SubArm(Chain.DialFails)
  }

  lemma UnluckyStep(venues: set<string>, i: nat)
    ensures Enabled(UnluckyRun(i), UnluckySteps(i))
    ensures UnluckyRun(i + 1) == Apply(UnluckyRun(i), venues, UnluckySteps(i))
  {
  }

  lemma UnluckyExecution(venues: set<string>)
    ensures Execution(UnluckyRun, UnluckySteps, venues)
  {
    StartsInInv(venues);
    hide Inv, Enabled, Apply;
    assert UnluckyRun(0) == STARTED;
    forall i: nat
      ensures CanGoOn(UnluckyRun(i)) && Enabled(UnluckyRun(i), UnluckySteps(i))
           && UnluckyRun(i + 1) == Apply(UnluckyRun(i), venues, UnluckySteps(i))
    {
      UnluckyStep(venues, i);
    }
    hide UnluckyRun, UnluckySteps;
  }

  /** A schedule of two steps leads there. */
  lemma CancelledBackoffIsReachable(venues: set<string>)
    ensures UnluckyRun(2) == Play(STARTED, venues, [SubArm(Chain.DialFails), Cancel])
  {
    var fail := SubArm(Chain.DialFails);
    UnluckyStep(venues, 0);
    UnluckyStep(venues, 1);
    assert [fail] + [Cancel] == [fail, Cancel] && [Cancel] + [] == [Cancel];
    hide Enabled, Apply;
    assert Play(UnluckyRun(2), venues, []) == UnluckyRun(2);
    hide Play;
    PlayOneMore(UnluckyRun(0), venues, fail, [Cancel]);
    PlayOneMore(UnluckyRun(1), venues, Cancel, []);
  }

  lemma NeedNotExit(venues: set<string>)
    ensures Execution(UnluckyRun, UnluckySteps, venues) && UnluckyRun(0) == STARTED
    ensures Draining(UnluckyRun(2)) && forall k: nat :: !UnluckyRun(k).main.Exited?
  {
    hide Execution;
    UnluckyExecution(venues);
  }

  // ----- How it ends

  /** The exit is an error exactly if the subscriber gave up on a deadline that
      was not the program's; a clean exit leaves no goroutine behind. */
  lemma ExitDiagnosis(p: Pipe, venues: set<string>)
    requires Inv(p, venues) && p.main.Exited?
    ensures p.main.exit.Failed? <==> p.sub.pc == Chain.Returned(DeadlineExceeded)
    ensures p.main.exit.Failed? ==> p.main.exit == Failed(SubscriberStage, DeadlineExceeded)
    ensures p.main.exit.Clean? ==>
              && p.sub.pc == Chain.Returned(Canceled) && Chain.Open(p.sub.log) == {}
              && p.disp.mode.Done? && p.disp.running == {} && p.disp.sending == map[] && p.disp.leaving == {}
              && p.pf.mode.Gone?
  {
    if p.main.exit.Clean? {
      Dispatcher.NoSendAfterClose(p.disp, venues, p.ctxDone);
    }
    hide Dispatcher.DispInv, PfInv, Flow, Spent, Chain.Legal;
  }
}
