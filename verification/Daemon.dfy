/** The running program (cmd/arbd/main.go): the subscriber, the dispatcher with
    its goroutines, the pathfinder and the consuming main goroutine, joined by
    unbuffered channels. A send and its receive are one step of both parties. */
module Daemon {
  import opened Pricing
  import opened Messages
  import opened Pathfinder
  import Chain
  import Dispatcher

  type Task = Dispatcher.Task

  /** The Pathfinder is in its select, sending what one result yields, or gone. */
  datatype PfMode = Idle | Sending(queue: seq<CandidatePath>) | Gone(err: Option<CtxError>)

  datatype Pf = Pf(
    mode: PfMode,
    state: State,
    received: seq<VenueResult>,
    offered: seq<CandidatePath>,
    dropped: seq<CandidatePath>)

  datatype Stage = SubscriberStage | DispatcherStage | PathfinderStage

  datatype Exit = Clean | Failed(stage: Stage, err: CtxError)

  datatype Main = Consuming | AwaitSub | AwaitDisp | AwaitPf | Exited(exit: Exit)

  datatype Pipe = Pipe(
    ctxDone: bool,
    sub: Chain.Sub,
    disp: Dispatcher.Disp,
    pf: Pf,
    main: Main,
    consumed: seq<CandidatePath>)

  const STARTED := Pipe(false, Chain.IDLE, Dispatcher.FRESH, Pf(Idle, START, [], [], []), Consuming, [])

  datatype Label =
    | Cancel
    | SubArm(arm: Chain.Arm)
    | PassEvent
    | EventsClosed
    | DispCancel
    | Spawn(venue: string)
    | SnapshotReturns(task: Task, quotes: IndexableQuotes, err: Option<Error>)
    | PassResult(task: Task, emitted: seq<CandidatePath>)
    | DropResult(task: Task)
    | TaskReturns(task: Task)
    | CloseResults
    | ResultsClosed
    | PfCancel
    | PassCandidate
    | DropCandidate
    | CandidatesClosed
    | CollectSub
    | CollectDisp
    | CollectPf

  // ----- Steps

  /** The dispatcher's part in a step. */
  function DispStep(p: Pipe, l: Label): Option<Dispatcher.Step> {
    match l
    case PassEvent => if p.sub.pc.Emitting? then Some(Dispatcher.Accept(p.sub.pc.ev)) else None
    case EventsClosed => Some(Dispatcher.EventsClosed)
    case DispCancel => Some(Dispatcher.Leave)
    case Spawn(venue) => Some(Dispatcher.Spawn(venue))
    case SnapshotReturns(task, quotes, err) => Some(Dispatcher.Answer(task, quotes, err))
    case PassResult(task, _) => Some(Dispatcher.Deliver(task))
    case DropResult(task) => Some(Dispatcher.Drop(task))
    case TaskReturns(task) => Some(Dispatcher.Finish(task))
    case CloseResults => Some(Dispatcher.Close)
    case _ => None
  }

  /** The subscriber's part in a step. */
  function SubStep(l: Label): Option<Chain.Arm> {
    match l
    case SubArm(arm) => Some(arm)
    case PassEvent => Some(Chain.Sent)
    case _ => None
  }

  ghost predicate PfEnabled(p: Pipe, l: Label) {
    match l
    case PassResult(task, emitted) =>
      p.pf.mode.Idle? && task in p.disp.sending && Emits(p.pf.state, p.disp.sending[task], emitted)
    case ResultsClosed => p.pf.mode.Idle? && p.disp.mode.Done?
    case PfCancel => p.pf.mode.Idle? && p.ctxDone
    case PassCandidate => p.pf.mode.Sending? && p.pf.mode.queue != []
    case DropCandidate => p.pf.mode.Sending? && p.pf.mode.queue != [] && p.ctxDone
    case _ => true
  }

  predicate MainEnabled(p: Pipe, l: Label) {
    match l
    case PassCandidate => p.main.Consuming?
    case CandidatesClosed => p.main.Consuming? && p.pf.mode.Gone?
    case CollectSub => p.main.AwaitSub? && p.sub.pc.Returned?
    case CollectDisp => p.main.AwaitDisp? && p.disp.mode.Done?
    case CollectPf => p.main.AwaitPf? && p.pf.mode.Gone?
    case _ => true
  }

  predicate SubEnabled(p: Pipe, l: Label) {
    && (l.EventsClosed? ==> p.sub.pc.Returned?)
    && (l.SubArm? ==> !l.arm.Sent?)
    && (l.PassEvent? ==> p.sub.pc.Emitting?)
    && (SubStep(l).Some? ==> Chain.Offers(p.sub.pc, p.ctxDone, SubStep(l).value))
  }

  predicate DispEnabled(p: Pipe, l: Label) {
    DispStep(p, l).Some? ==> Dispatcher.Enabled(p.disp, p.ctxDone, DispStep(p, l).value)
  }

  ghost predicate Enabled(p: Pipe, l: Label) {
    && (l.Cancel? ==> !p.ctxDone)
    && SubEnabled(p, l) && DispEnabled(p, l) && PfEnabled(p, l) && MainEnabled(p, l)
  }

  function SubAfter(p: Pipe, l: Label): Chain.Sub
    requires SubEnabled(p, l)
  {
    if SubStep(l).Some? then Chain.Next(p.sub, p.ctxDone, SubStep(l).value) else p.sub
  }

  function DispAfter(p: Pipe, venues: set<string>, l: Label): Dispatcher.Disp
    requires DispEnabled(p, l)
  {
    if DispStep(p, l).Some? then Dispatcher.Next(p.disp, venues, p.ctxDone, DispStep(p, l).value) else p.disp
  }

  function IdleAfter(queue: seq<CandidatePath>): PfMode {
    if queue == [] then Idle else Sending(queue)
  }

  ghost function PfAfter(p: Pipe, l: Label): Pf
    requires PfEnabled(p, l)
  {
    match l
    case PassResult(task, emitted) =>
      var r := p.disp.sending[task];
      p.pf.(mode := IdleAfter(emitted), state := After(p.pf.state, r),
            received := p.pf.received + [r], offered := p.pf.offered + emitted)
    case ResultsClosed => p.pf.(mode := Gone(None))
    case PfCancel => p.pf.(mode := Gone(Some(Canceled)))
    case PassCandidate => p.pf.(mode := IdleAfter(p.pf.mode.queue[1..]))
    case DropCandidate => p.pf.(mode := IdleAfter(p.pf.mode.queue[1..]), dropped := p.pf.dropped + [p.pf.mode.queue[0]])
    case _ => p.pf
  }

  /** A context cancellation is the expected way to stop. */
  function Verdict(stage: Stage, err: Option<CtxError>, otherwise: Main): Main {
    if err.Some? && err.value != Canceled then Exited(Failed(stage, err.value)) else otherwise
  }

  function MainAfter(p: Pipe, l: Label): Main
    requires MainEnabled(p, l)
  {
    match l
    case CandidatesClosed => AwaitSub
    case CollectSub => Verdict(SubscriberStage, Some(p.sub.pc.err), AwaitDisp)
    case CollectDisp => Verdict(DispatcherStage, p.disp.mode.err, AwaitPf)
    case CollectPf => Verdict(PathfinderStage, p.pf.mode.err, Exited(Clean))
    case _ => p.main
  }

  ghost function Apply(p: Pipe, venues: set<string>, l: Label): Pipe
    requires Enabled(p, l)
  {
    Pipe(p.ctxDone || l.Cancel?, SubAfter(p, l), DispAfter(p, venues, l), PfAfter(p, l), MainAfter(p, l),
         if l.PassCandidate? then p.consumed + [p.pf.mode.queue[0]] else p.consumed)
  }

  /** The effect of a schedule; steps that cannot be taken do not happen. */
  ghost function Play(p: Pipe, venues: set<string>, schedule: seq<Label>): Pipe
    decreases |schedule|
  {
    if schedule == [] then p
    else if Enabled(p, schedule[0]) then Play(Apply(p, venues, schedule[0]), venues, schedule[1..])
    else Play(p, venues, schedule[1..])
  }

  // ----- What holds at all times

  function Queue(pf: Pf): seq<CandidatePath> {
    if pf.mode.Sending? then pf.mode.queue else []
  }

  ghost predicate PfInv(pf: Pf, ctxDone: bool) {
    && Runs(pf.received, pf.offered)
    && pf.state == StateAfter(pf.received)
    && (pf.mode.Sending? ==> pf.mode.queue != [])
    && (pf.dropped != [] ==> ctxDone)
  }

  /** Every message that has left one stage has arrived at the next. */
  ghost predicate Flow(p: Pipe) {
    && p.disp.accepted == Chain.Events(p.sub.log)
    && p.pf.received == p.disp.results
  }

  /** The queue is the end of what was offered; what came before it is consumed or
      dropped, each in order. */
  predicate Accounted(offered: seq<CandidatePath>, consumed: seq<CandidatePath>,
                      dropped: seq<CandidatePath>, queue: seq<CandidatePath>)
  {
    && |queue| <= |offered|
    && var k := |offered| - |queue|;
       offered[k..] == queue && Interleaves(offered[..k], consumed, dropped)
  }

  predicate Spent(pf: Pf, consumed: seq<CandidatePath>) {
    Accounted(pf.offered, consumed, pf.dropped, Queue(pf))
  }

  /** A stage ends because its input is closed or because of the context. */
  predicate EndedBy(err: Option<CtxError>, inputClosed: bool, ctxDone: bool) {
    if err.None? then inputClosed else err == Some(Canceled) && ctxDone
  }

  predicate Ordered(p: Pipe) {
    && (p.disp.mode.Waiting? || p.disp.mode.Done? ==> EndedBy(p.disp.mode.err, p.sub.pc.Returned?, p.ctxDone))
    && (p.pf.mode.Gone? ==> EndedBy(p.pf.mode.err, p.disp.mode.Done?, p.ctxDone))
    && (!p.main.Consuming? ==> p.pf.mode.Gone?)
    && (p.main.AwaitDisp? || p.main.AwaitPf? || p.main == Exited(Clean) ==> p.sub.pc == Chain.Returned(Canceled))
    && (p.main.AwaitPf? || p.main == Exited(Clean) ==> p.disp.mode.Done?)
    && (p.main.Exited? && p.main.exit.Failed? ==>
          p.main.exit == Failed(SubscriberStage, DeadlineExceeded) && p.sub.pc == Chain.Returned(DeadlineExceeded))
  }

  ghost predicate Inv(p: Pipe, venues: set<string>) {
    && Chain.SubInv(p.sub, p.ctxDone)
    && Dispatcher.DispInv(p.disp, venues, p.ctxDone)
    && PfInv(p.pf, p.ctxDone)
    && Flow(p) && Spent(p.pf, p.consumed) && Ordered(p)
  }

  lemma KeepsSub(p: Pipe, l: Label)
    requires Chain.SubInv(p.sub, p.ctxDone) && SubEnabled(p, l)
    ensures Chain.SubInv(SubAfter(p, l), p.ctxDone || l.Cancel?)
  {
    if SubStep(l).Some? {
      Chain.NextKeepsInv(p.sub, p.ctxDone, SubStep(l).value);
    }
  }

  lemma KeepsDisp(p: Pipe, venues: set<string>, l: Label)
    requires Dispatcher.DispInv(p.disp, venues, p.ctxDone) && DispEnabled(p, l)
    ensures Dispatcher.DispInv(DispAfter(p, venues, l), venues, p.ctxDone || l.Cancel?)
  {
    if DispStep(p, l).Some? {
      Dispatcher.NextKeepsInv(p.disp, venues, p.ctxDone, DispStep(p, l).value);
    }
  }

  lemma KeepsPf(p: Pipe, l: Label)
    requires PfInv(p.pf, p.ctxDone) && PfEnabled(p, l)
    ensures PfInv(PfAfter(p, l), p.ctxDone || l.Cancel?)
  {
    hide Runs, Emits, StateAfter, After;
    if l.PassResult? {
      RunExtends(p.pf.received, p.pf.offered, p.disp.sending[l.task], l.emitted);
    }
  }

  lemma EventsAppended(log: seq<Chain.Action>, a: Chain.Action)
    ensures Chain.Events(log + [a]) == Chain.Events(log) + if a.Emitted? then [a.ev] else []
  {
    assert (log + [a])[..|log|] == log;
  }

  /** Only a hand-over adds to the emitted events, and exactly the one handed over. */
  lemma EventsAfter(s: Chain.Sub, ctxDone: bool, arm: Chain.Arm)
    requires Chain.Offers(s.pc, ctxDone, arm)
    ensures Chain.Events(Chain.Next(s, ctxDone, arm).log) ==
            Chain.Events(s.log) + if s.pc.Emitting? && arm.Sent? then [s.pc.ev] else []
  {
    hide Chain.Events;
    var log' := Chain.Next(s, ctxDone, arm).log;
    if log' != s.log {
      EventsAppended(s.log, log'[|s.log|]);
      if |log'| > |s.log| + 1 {
        EventsAppended(s.log + [log'[|s.log|]], Chain.OutClosed);
      }
    }
  }

  lemma DispatcherHandsOver(p: Pipe, venues: set<string>, l: Label)
    requires DispEnabled(p, l) && SubEnabled(p, l)
    ensures var d := DispAfter(p, venues, l);
            && d.accepted == p.disp.accepted + (if l.PassEvent? then [p.sub.pc.ev] else [])
            && d.results == p.disp.results + (if l.PassResult? then [p.disp.sending[l.task]] else [])
  {
  }

  lemma KeepsFlow(p: Pipe, venues: set<string>, l: Label)
    requires Flow(p) && Enabled(p, l)
    ensures Flow(Apply(p, venues, l))
  {
    if SubStep(l).Some? {
      EventsAfter(p.sub, p.ctxDone, SubStep(l).value);
    }
    DispatcherHandsOver(p, venues, l);
    hide Chain.Events, Chain.Next, Emits, After, DispAfter, DispEnabled, MainAfter;
  }

  lemma Take(offered: seq<CandidatePath>, consumed: seq<CandidatePath>, dropped: seq<CandidatePath>,
             queue: seq<CandidatePath>)
    requires Accounted(offered, consumed, dropped, queue) && queue != []
    ensures Accounted(offered, consumed + [queue[0]], dropped, queue[1..])
    ensures Accounted(offered, consumed, dropped + [queue[0]], queue[1..])
  {
    hide Interleaves;
    var k := |offered| - |queue|;
    SettleOne(offered[..k], consumed, dropped, queue[0]);
    assert offered[k] == offered[k..][0];
    assert offered[..k + 1] == offered[..k] + [queue[0]];
    assert offered[k + 1..] == offered[k..][1..];
  }

  lemma OfferMore(offered: seq<CandidatePath>, consumed: seq<CandidatePath>, dropped: seq<CandidatePath>,
                  emitted: seq<CandidatePath>)
    requires Accounted(offered, consumed, dropped, [])
    ensures Accounted(offered + emitted, consumed, dropped, emitted)
  {
    assert offered[..|offered|] == offered == (offered + emitted)[..|offered|];
  }

  /** So nothing is lost but what was dropped, and order is kept. */
  lemma SpentCounts(offered: seq<CandidatePath>, consumed: seq<CandidatePath>, dropped: seq<CandidatePath>,
                    queue: seq<CandidatePath>)
    requires Accounted(offered, consumed, dropped, queue)
    ensures multiset(offered) == multiset(consumed) + multiset(dropped) + multiset(queue)
    ensures dropped == [] ==> offered == consumed + queue
  {
    var k := |offered| - |queue|;
    assert offered == offered[..k] + offered[k..];
    InterleavedCounts(offered[..k], consumed, dropped);
    if dropped == [] {
      NothingDropped(offered[..k], consumed);
    }
    hide Interleaves;
  }

  lemma KeepsSpent(p: Pipe, l: Label)
    requires Spent(p.pf, p.consumed) && PfEnabled(p, l)
    ensures Spent(PfAfter(p, l), if l.PassCandidate? then p.consumed + [p.pf.mode.queue[0]] else p.consumed)
  {
    hide Emits, After, Accounted;
    match l
    case PassResult(_, emitted) => OfferMore(p.pf.offered, p.consumed, p.pf.dropped, emitted);
    case PassCandidate => Take(p.pf.offered, p.consumed, p.pf.dropped, p.pf.mode.queue);
    case DropCandidate => Take(p.pf.offered, p.consumed, p.pf.dropped, p.pf.mode.queue);
    case _ =>
  }

  lemma SubFinal(p: Pipe, l: Label)
    requires SubEnabled(p, l) && p.sub.pc.Returned?
    ensures SubAfter(p, l) == p.sub
  {
  }

  lemma DispEnds(p: Pipe, venues: set<string>, l: Label)
    requires DispEnabled(p, l)
    ensures var m, m' := p.disp.mode, DispAfter(p, venues, l).mode;
            && (m.Done? ==> m' == m)
            && (m'.Waiting? || m'.Done? ==>
                  || ((m.Waiting? || m.Done?) && m'.err == m.err)
                  || (l.EventsClosed? && m'.err == None)
                  || (l.DispCancel? && m'.err == Some(Canceled) && p.ctxDone))
  {
  }

  lemma PfEnds(p: Pipe, l: Label)
    requires PfEnabled(p, l)
    ensures var m, m' := p.pf.mode, PfAfter(p, l).mode;
            && (m.Gone? ==> m' == m)
            && (m'.Gone? ==>
                  || m.Gone?
                  || (m'.err == None && p.disp.mode.Done?)
                  || (m'.err == Some(Canceled) && p.ctxDone))
  {
    hide Emits, After;
  }

  lemma KeepsOrdered(p: Pipe, venues: set<string>, l: Label)
    requires Ordered(p) && Enabled(p, l)
    ensures Ordered(Apply(p, venues, l))
  {
    if p.sub.pc.Returned? {
      SubFinal(p, l);
    }
    DispEnds(p, venues, l);
    PfEnds(p, l);
    hide SubAfter, DispAfter, PfAfter, DispEnabled, PfEnabled;
  }

  /** Every step of the program keeps the invariant. */
  lemma StepKeepsInv(p: Pipe, venues: set<string>, l: Label)
    requires Inv(p, venues) && Enabled(p, l)
    ensures Inv(Apply(p, venues, l), venues)
  {
    KeepsSub(p, l);
    KeepsDisp(p, venues, l);
    KeepsPf(p, l);
    KeepsFlow(p, venues, l);
    KeepsSpent(p, l);
    KeepsOrdered(p, venues, l);
    hide Chain.SubInv, Dispatcher.DispInv, PfInv, Flow, Spent, Ordered, SubAfter, DispAfter, PfAfter, MainAfter;
  }

  lemma StartsInInv(venues: set<string>)
    ensures Inv(STARTED, venues)
  {
    Dispatcher.StartsInInv(venues);
    hide Dispatcher.DispInv;
  }

  /** It holds after any schedule. */
  lemma {:induction false} EveryScheduleKeepsInv(p: Pipe, venues: set<string>, schedule: seq<Label>)
    requires Inv(p, venues)
    ensures Inv(Play(p, venues, schedule), venues)
    decreases |schedule|
  {
    hide Inv, Enabled, Apply;
    if schedule != [] {
      if Enabled(p, schedule[0]) {
        StepKeepsInv(p, venues, schedule[0]);
        EveryScheduleKeepsInv(Apply(p, venues, schedule[0]), venues, schedule[1..]);
      } else {
        EveryScheduleKeepsInv(p, venues, schedule[1..]);
      }
    }
  }
}
