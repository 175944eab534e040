/** The fan-out of block events to the venues (internal/pipeline/dispatcher.go):
    a loop that spawns one goroutine per event and venue, counted by a WaitGroup,
    and closes its output once it has left the loop and the count is back at zero. */
module Dispatcher {
  import opened Pricing
  import opened Messages
  import opened ArrivalOrder

  /** One goroutine: a venue asked about the event accepted as number `index`. */
  datatype Task = Task(index: nat, venue: string, ev: BlockEvent)

  datatype Mode =
    | Looping
    | Spawning(index: nat, ev: BlockEvent, left: set<string>)
    | Waiting(err: Option<CtxError>)
    | Done(err: Option<CtxError>)

  /** `pending` is the WaitGroup; a goroutine is calling its venue (`running`),
      blocked in its send (`sending`), past it (`leaving`), or gone. */
  datatype Disp = Disp(
    mode: Mode,
    accepted: seq<BlockEvent>,
    running: set<Task>,
    sending: map<Task, VenueResult>,
    delivered: seq<Task>,
    results: seq<VenueResult>,
    dropped: set<Task>,
    leaving: set<Task>,
    pending: int)

  const FRESH := Disp(Looping, [], {}, map[], [], [], {}, {}, 0)

  datatype Step =
    | Accept(ev: BlockEvent)
    | EventsClosed
    | Leave
    | Spawn(venue: string)
    | Answer(task: Task, quotes: IndexableQuotes, err: Option<Error>)
    | Deliver(task: Task)
    | Drop(task: Task)
    | Finish(task: Task)
    | Close

  predicate Enabled(d: Disp, ctxDone: bool, step: Step) {
    match step
    case Accept(_) => d.mode.Looping?
    case EventsClosed => d.mode.Looping?
    case Leave => d.mode.Looping? && ctxDone
    case Spawn(venue) => d.mode.Spawning? && venue in d.mode.left
    case Answer(task, _, _) => task in d.running
    case Deliver(task) => task in d.sending
    case Drop(task) => task in d.sending && ctxDone
    case Finish(task) => task in d.leaving
    case Close => d.mode.Waiting? && d.pending == 0
  }

  function LoopOver(index: nat, ev: BlockEvent, left: set<string>): Mode {
    if left == {} then Looping else Spawning(index, ev, left)
  }

  function Next(d: Disp, venues: set<string>, ctxDone: bool, step: Step): Disp
    requires Enabled(d, ctxDone, step)
  {
    match step
    case Accept(ev) => d.(mode := LoopOver(|d.accepted|, ev, venues), accepted := d.accepted + [ev])
    case EventsClosed => d.(mode := Waiting(None))
    case Leave => d.(mode := Waiting(Some(Canceled)))
    case Spawn(venue) =>
      d.(mode := LoopOver(d.mode.index, d.mode.ev, d.mode.left - {venue}),
         running := d.running + {Task(d.mode.index, venue, d.mode.ev)},
         pending := d.pending + 1)
    case Answer(task, quotes, err) =>
      d.(running := d.running - {task},
         sending := d.sending[task := VenueResult(task.venue, task.ev, quotes, err)])
    case Deliver(task) =>
      d.(sending := d.sending - {task},
         delivered := d.delivered + [task],
         results := d.results + [d.sending[task]],
         leaving := d.leaving + {task})
    case Drop(task) =>
      d.(sending := d.sending - {task}, dropped := d.dropped + {task}, leaving := d.leaving + {task})
    case Finish(task) => d.(leaving := d.leaving - {task}, pending := d.pending - 1)
    case Close => d.(mode := Done(d.mode.err))
  }

  // ----- Conservation

  /** The goroutines that have been started. */
  ghost predicate Started(d: Disp, venues: set<string>, t: Task) {
    && t.index < |d.accepted| && t.ev == d.accepted[t.index] && t.venue in venues
    && !(d.mode.Spawning? && t.index == d.mode.index && t.venue in d.mode.left)
  }

  /** In how many of the four places a goroutine is, repetitions included. */
  ghost function Places(d: Disp, t: Task): nat {
    (if t in d.running then 1 else 0) + (if t in d.sending then 1 else 0)
    + multiset(d.delivered)[t] + (if t in d.dropped then 1 else 0)
  }

  ghost predicate Placed(d: Disp, venues: set<string>) {
    forall t :: Places(d, t) == if Started(d, venues, t) then 1 else 0
  }

  function Left(d: Disp): nat {
    if d.mode.Spawning? then |d.mode.left| else 0
  }

  /** The goroutines that have not settled their answer. */
  function InFlight(d: Disp): nat {
    |d.running| + |d.sending|
  }

  function Owed(events: nat, venues: nat): nat {
    events * venues
  }

  ghost predicate Counted(d: Disp, venues: set<string>) {
    && d.pending == InFlight(d) + |d.leaving|
    && Owed(|d.accepted|, |venues|) == InFlight(d) + |d.delivered| + |d.dropped| + Left(d)
  }

  /** Who is leaving has settled its answer. */
  ghost predicate Settled(d: Disp) {
    forall t :: t in d.leaving ==> t in d.delivered || t in d.dropped
  }

  /** A result carries the venue and the event it was asked about. */
  predicate AnswerTo(r: VenueResult, t: Task) {
    r.venue == t.venue && r.block == t.ev
  }

  ghost predicate Faithful(d: Disp) {
    && (forall t :: t in d.sending ==> AnswerTo(d.sending[t], t))
    && |d.results| == |d.delivered|
    && (forall k :: 0 <= k < |d.results| ==> AnswerTo(d.results[k], d.delivered[k]))
  }

  ghost predicate Moded(d: Disp, venues: set<string>, ctxDone: bool) {
    && (d.mode.Spawning? ==>
          && d.mode.left != {} && d.mode.left <= venues
          && d.mode.index == |d.accepted| - 1 && d.accepted[d.mode.index] == d.mode.ev)
    && (d.mode.Done? ==> InFlight(d) == 0 && d.leaving == {})
    && (d.mode.Waiting? || d.mode.Done? ==> d.mode.err.None? || (d.mode.err == Some(Canceled) && ctxDone))
    && (d.dropped != {} ==> ctxDone)
  }

  ghost predicate DispInv(d: Disp, venues: set<string>, ctxDone: bool) {
    Placed(d, venues) && Counted(d, venues) && Settled(d) && Faithful(d) && Moded(d, venues, ctxDone)
  }

  // ----- Each step moves one goroutine

  /** The place of `t` is right. */
  ghost predicate InPlace(d: Disp, venues: set<string>, t: Task) {
    Places(d, t) == if Started(d, venues, t) then 1 else 0
  }

  /** Accepting an event starts nothing yet. */
  lemma AcceptPlaces(d: Disp, venues: set<string>, ev: BlockEvent, t: Task)
    requires Enabled(d, false, Accept(ev)) && InPlace(d, venues, t)
    ensures InPlace(Next(d, venues, false, Accept(ev)), venues, t)
  {
    var d' := Next(d, venues, false, Accept(ev));
    assert t.index < |d.accepted| ==> d'.accepted[t.index] == d.accepted[t.index];
    assert Started(d', venues, t) <==> Started(d, venues, t);
    hide Started;
  }

  lemma SpawnStarts(d: Disp, venues: set<string>, ctxDone: bool, venue: string, t: Task)
    requires Enabled(d, false, Spawn(venue)) && Moded(d, venues, ctxDone)
    ensures var started := Task(d.mode.index, venue, d.mode.ev);
            && !Started(d, venues, started)
            && (Started(Next(d, venues, false, Spawn(venue)), venues, t) <==> Started(d, venues, t) || t == started)
  {
  }

  lemma SpawnPlaces(d: Disp, venues: set<string>, ctxDone: bool, venue: string, t: Task)
    requires Enabled(d, false, Spawn(venue)) && Moded(d, venues, ctxDone) && InPlace(d, venues, t)
    ensures InPlace(Next(d, venues, false, Spawn(venue)), venues, t)
  {
    SpawnStarts(d, venues, ctxDone, venue, t);
    hide Started, Moded;
  }

  lemma AnswerPlaces(d: Disp, venues: set<string>, moved: Task, quotes: IndexableQuotes, err: Option<Error>, t: Task)
    requires moved in d.running && InPlace(d, venues, moved) && InPlace(d, venues, t)
    ensures InPlace(Next(d, venues, false, Answer(moved, quotes, err)), venues, t)
  {
    var d' := Next(d, venues, false, Answer(moved, quotes, err));
    assert Started(d', venues, t) <==> Started(d, venues, t);
    hide Started;
  }

  lemma OneMoreDelivered(delivered: seq<Task>, moved: Task, t: Task)
    ensures multiset(delivered + [moved])[t] == multiset(delivered)[t] + if t == moved then 1 else 0
  {
    assert multiset(delivered + [moved]) == multiset(delivered) + multiset{moved};
  }

  lemma DeliverPlaces(d: Disp, venues: set<string>, moved: Task, t: Task)
    requires moved in d.sending && InPlace(d, venues, t)
    ensures InPlace(Next(d, venues, false, Deliver(moved)), venues, t)
  {
    var d' := Next(d, venues, false, Deliver(moved));
    assert Started(d', venues, t) <==> Started(d, venues, t);
    OneMoreDelivered(d.delivered, moved, t);
    hide Started;
  }

  lemma DropPlaces(d: Disp, venues: set<string>, moved: Task, t: Task)
    requires moved in d.sending && InPlace(d, venues, moved) && InPlace(d, venues, t)
    ensures InPlace(Next(d, venues, true, Drop(moved)), venues, t)
  {
    var d' := Next(d, venues, true, Drop(moved));
    assert Started(d', venues, t) <==> Started(d, venues, t);
    hide Started;
  }

  /** The loop itself moves no goroutine, nor does one that leaves. */
  lemma OtherPlaces(d: Disp, venues: set<string>, ctxDone: bool, step: Step, t: Task)
    requires Enabled(d, ctxDone, step) && InPlace(d, venues, t)
    requires step.EventsClosed? || step.Leave? || step.Finish? || step.Close?
    ensures InPlace(Next(d, venues, ctxDone, step), venues, t)
  {
    var d' := Next(d, venues, ctxDone, step);
    assert Started(d', venues, t) <==> Started(d, venues, t);
    hide Started;
  }

  lemma KeepsPlaced(d: Disp, venues: set<string>, ctxDone: bool, step: Step)
    requires Placed(d, venues) && Moded(d, venues, ctxDone) && Enabled(d, ctxDone, step)
    ensures Placed(Next(d, venues, ctxDone, step), venues)
  {
    assert forall t :: InPlace(d, venues, t);
    var d' := Next(d, venues, ctxDone, step);
    forall t
      ensures InPlace(d', venues, t)
    {
      hide InPlace, Moded;
      match step
      case Accept(ev) => AcceptPlaces(d, venues, ev, t);
      case Spawn(venue) => SpawnPlaces(d, venues, ctxDone, venue, t);
      case Answer(moved, quotes, err) => AnswerPlaces(d, venues, moved, quotes, err, t);
      case Deliver(moved) => DeliverPlaces(d, venues, moved, t);
      case Drop(moved) => DropPlaces(d, venues, moved, t);
      case _ => OtherPlaces(d, venues, ctxDone, step, t);
    }
    assert Placed(d', venues) by {
      assert forall t :: InPlace(d', venues, t) <==> Places(d', t) == if Started(d', venues, t) then 1 else 0;
    }
  }

  /** The set a goroutine enters did not have it, the one it leaves did. */
  lemma MovesOnce(d: Disp, venues: set<string>, t: Task)
    requires Placed(d, venues)
    ensures d.mode.Spawning? && t.index == d.mode.index && t.venue in d.mode.left ==> t !in d.running
    ensures t in d.running ==> t !in d.sending
    ensures t in d.sending ==> t !in d.dropped && t !in d.delivered
  {
    assert InPlace(d, venues, t);
    assert t in d.delivered <==> multiset(d.delivered)[t] > 0;
  }

  lemma CountChanges(d: Disp, d': Disp, venues: set<string>)
    requires Counted(d, venues) && |d'.accepted| == |d.accepted|
    requires InFlight(d') + |d'.leaving| - InFlight(d) - |d.leaving| == d'.pending - d.pending
    requires InFlight(d') + |d'.delivered| + |d'.dropped| + Left(d') ==
             InFlight(d) + |d.delivered| + |d.dropped| + Left(d)
    ensures Counted(d', venues)
  {
    hide Owed, InFlight, Left;
  }

  lemma AcceptCounts(d: Disp, venues: set<string>, ev: BlockEvent)
    requires Enabled(d, false, Accept(ev)) && Counted(d, venues)
    ensures Counted(Next(d, venues, false, Accept(ev)), venues)
  {
    assert Owed(|d.accepted| + 1, |venues|) == Owed(|d.accepted|, |venues|) + |venues|;
  }

  lemma SpawnCounts(d: Disp, venues: set<string>, venue: string)
    requires Enabled(d, false, Spawn(venue)) && Placed(d, venues) && Counted(d, venues)
    ensures Counted(Next(d, venues, false, Spawn(venue)), venues)
  {
    MovesOnce(d, venues, Task(d.mode.index, venue, d.mode.ev));
    hide Placed, Counted;
    CountChanges(d, Next(d, venues, false, Spawn(venue)), venues);
  }

  lemma SizeAfterRemoval<K, V>(m: map<K, V>, k: K)
    requires k in m
    ensures |m - {k}| == |m| - 1
  {
    assert (m - {k}).Keys == m.Keys - {k};
    assert |m - {k}| == |(m - {k}).Keys| && |m| == |m.Keys|;
  }

  lemma SizeAfterUpdate<K, V>(m: map<K, V>, k: K, v: V)
    ensures |m[k := v]| == if k in m then |m| else |m| + 1
  {
    assert m[k := v].Keys == m.Keys + {k};
    assert |m[k := v]| == |m[k := v].Keys| && |m| == |m.Keys|;
  }

  lemma AnswerCounts(d: Disp, venues: set<string>, t: Task, quotes: IndexableQuotes, err: Option<Error>)
    requires t in d.running && Placed(d, venues) && Counted(d, venues)
    ensures Counted(Next(d, venues, false, Answer(t, quotes, err)), venues)
  {
    MovesOnce(d, venues, t);
    SizeAfterUpdate(d.sending, t, VenueResult(t.venue, t.ev, quotes, err));
    hide Placed, Counted;
    CountChanges(d, Next(d, venues, false, Answer(t, quotes, err)), venues);
  }

  lemma SettleCounts(d: Disp, venues: set<string>, t: Task)
    requires t in d.sending && Placed(d, venues) && Counted(d, venues) && Settled(d)
    ensures Counted(Next(d, venues, true, Deliver(t)), venues)
    ensures Counted(Next(d, venues, true, Drop(t)), venues)
  {
    MovesOnce(d, venues, t);
    assert t !in d.leaving;
    SizeAfterRemoval(d.sending, t);
    hide Placed, Counted, Settled;
    CountChanges(d, Next(d, venues, true, Deliver(t)), venues);
    CountChanges(d, Next(d, venues, true, Drop(t)), venues);
  }

  lemma FinishCounts(d: Disp, venues: set<string>, t: Task)
    requires t in d.leaving && Counted(d, venues)
    ensures Counted(Next(d, venues, false, Finish(t)), venues)
  {
    hide Counted;
    CountChanges(d, Next(d, venues, false, Finish(t)), venues);
  }

  lemma LeavingCounts(d: Disp, d': Disp, venues: set<string>)
    requires Counted(d, venues) && !d.mode.Spawning? && !d'.mode.Spawning?
    requires d' == d.(mode := d'.mode)
    ensures Counted(d', venues)
  {
    CountChanges(d, d', venues);
  }

  lemma KeepsCounted(d: Disp, venues: set<string>, ctxDone: bool, step: Step)
    requires Placed(d, venues) && Counted(d, venues) && Settled(d) && Enabled(d, ctxDone, step)
    ensures Counted(Next(d, venues, ctxDone, step), venues)
  {
    hide Placed, Counted, Settled;
    match step
    case Accept(ev) => AcceptCounts(d, venues, ev);
    case Spawn(venue) => SpawnCounts(d, venues, venue);
    case Answer(t, quotes, err) => AnswerCounts(d, venues, t, quotes, err);
    case Deliver(t) => SettleCounts(d, venues, t);
    case Drop(t) => SettleCounts(d, venues, t);
    case Finish(t) => FinishCounts(d, venues, t);
    case _ => LeavingCounts(d, Next(d, venues, ctxDone, step), venues);
  }

  lemma KeepsSettled(d: Disp, venues: set<string>, ctxDone: bool, step: Step)
    requires Settled(d) && Enabled(d, ctxDone, step)
    ensures Settled(Next(d, venues, ctxDone, step))
  {
  }

  lemma KeepsFaithful(d: Disp, venues: set<string>, ctxDone: bool, step: Step)
    requires Faithful(d) && Enabled(d, ctxDone, step)
    ensures Faithful(Next(d, venues, ctxDone, step))
  {
  }

  lemma KeepsModed(d: Disp, venues: set<string>, ctxDone: bool, step: Step)
    requires Counted(d, venues) && Moded(d, venues, ctxDone) && Enabled(d, ctxDone, step)
    ensures Moded(Next(d, venues, ctxDone, step), venues, ctxDone)
  {
  }

  lemma NextKeepsInv(d: Disp, venues: set<string>, ctxDone: bool, step: Step)
    requires DispInv(d, venues, ctxDone) && Enabled(d, ctxDone, step)
    ensures DispInv(Next(d, venues, ctxDone, step), venues, ctxDone)
  {
    hide Placed, Counted, Settled, Faithful, Moded, Next;
    KeepsPlaced(d, venues, ctxDone, step);
    KeepsCounted(d, venues, ctxDone, step);
    KeepsSettled(d, venues, ctxDone, step);
    KeepsFaithful(d, venues, ctxDone, step);
    KeepsModed(d, venues, ctxDone, step);
  }

  lemma CancelKeepsInv(d: Disp, venues: set<string>, ctxDone: bool)
    requires DispInv(d, venues, ctxDone)
    ensures DispInv(d, venues, true)
  {
    hide Placed, Counted, Faithful;
  }

  // ----- Every run

  datatype Occurrence = Cancel | Do(step: Step)

  /** The effect of everything that happens, in order; a step that cannot be
      taken does not happen. */
  function Play(d: Disp, venues: set<string>, ctxDone: bool, script: seq<Occurrence>): (Disp, bool)
    decreases |script|
  {
    if script == [] then (d, ctxDone)
    else
      match script[0]
      case Cancel => Play(d, venues, true, script[1..])
      case Do(step) =>
        if Enabled(d, ctxDone, step) then Play(Next(d, venues, ctxDone, step), venues, ctxDone, script[1..])
        else Play(d, venues, ctxDone, script[1..])
  }

  lemma StartsInInv(venues: set<string>)
    ensures DispInv(FRESH, venues, false)
  {
    assert forall t :: !Started(FRESH, venues, t) && Places(FRESH, t) == 0;
  }

  lemma {:induction false} EveryRunKeepsInv(d: Disp, venues: set<string>, ctxDone: bool, script: seq<Occurrence>)
    requires DispInv(d, venues, ctxDone)
    ensures var (d', done) := Play(d, venues, ctxDone, script); DispInv(d', venues, done)
    decreases |script|
  {
    if script != [] {
      match script[0]
      case Cancel =>
        EveryRunKeepsInv(d, venues, true, script[1..]);
      case Do(step) =>
        hide DispInv;
        if Enabled(d, ctxDone, step) {
          NextKeepsInv(d, venues, ctxDone, step);
          EveryRunKeepsInv(Next(d, venues, ctxDone, step), venues, ctxDone, script[1..]);
        } else {
          EveryRunKeepsInv(d, venues, ctxDone, script[1..]);
        }
    }
  }

  /** Whatever happens, every goroutine started is in exactly one place, their
      number is events times venues less those still to be started, and nothing
      is dropped before the context is done. */
  lemma EveryRunConserves(venues: set<string>, script: seq<Occurrence>)
    ensures var (d, done) := Play(FRESH, venues, false, script);
            && (forall t :: Places(d, t) == if Started(d, venues, t) then 1 else 0)
            && |d.accepted| * |venues| == |d.running| + |d.sending| + |d.delivered| + |d.dropped| + Left(d)
            && d.pending == |d.running| + |d.sending| + |d.leaving|
            && (d.dropped != {} ==> done)
  {
    StartsInInv(venues);
    EveryRunKeepsInv(FRESH, venues, false, script);
    hide Started, Places, Next, Enabled, Play;
  }

  /** The output is closed only when nothing is in flight, and no step, so no
      send, follows. */
  lemma NoSendAfterClose(d: Disp, venues: set<string>, ctxDone: bool)
    requires DispInv(d, venues, ctxDone) && d.mode.Done?
    ensures d.running == {} && d.sending == map[] && d.leaving == {}
    ensures forall step :: !Enabled(d, true, step)
  {
    hide Placed, Faithful;
    assert |d.sending| == 0;
  }

  /** No venue is being asked and nothing waits to be sent or started. */
  predicate Idle(d: Disp) {
    d.running == {} && d.sending == map[] && !d.mode.Spawning?
  }

  /** Without a cancellation every venue's answer on every event has been delivered
      exactly once whenever the dispatcher is idle. */
  lemma EachDeliveredOnce(d: Disp, venues: set<string>, i: nat, venue: string)
    requires DispInv(d, venues, false) && Idle(d)
    requires i < |d.accepted| && venue in venues
    ensures multiset(d.delivered)[Task(i, venue, d.accepted[i])] == 1
    ensures exists k :: 0 <= k < |d.results| && d.results[k].venue == venue && d.results[k].block == d.accepted[i]
  {
    var t := Task(i, venue, d.accepted[i]);
    assert Places(d, t) == 1;
    assert t in multiset(d.delivered);
    var k :| 0 <= k < |d.delivered| && d.delivered[k] == t;
    assert AnswerTo(d.results[k], t);
  }

  lemma AllDelivered(d: Disp, venues: set<string>)
    requires DispInv(d, venues, false) && Idle(d)
    ensures |d.results| == |d.accepted| * |venues|
  {
    hide Placed, Settled;
    assert |d.sending| == 0 && d.dropped == {};
  }

  lemma ClosedIsIdle(d: Disp, venues: set<string>, ctxDone: bool)
    requires DispInv(d, venues, ctxDone) && d.mode.Done?
    ensures Idle(d)
  {
    NoSendAfterClose(d, venues, ctxDone);
  }

  // ----- Where the results come from

  /** The effect of one occurrence. */
  function Happen(d: Disp, venues: set<string>, ctxDone: bool, o: Occurrence): (Disp, bool) {
    match o
    case Cancel => (d, true)
    case Do(step) => (if Enabled(d, ctxDone, step) then Next(d, venues, ctxDone, step) else d, ctxDone)
  }

  lemma {:induction false} PlayLast(d: Disp, venues: set<string>, ctxDone: bool, script: seq<Occurrence>)
    requires script != []
    ensures var (d', done) := Play(d, venues, ctxDone, script[..|script| - 1]);
            Play(d, venues, ctxDone, script) == Happen(d', venues, done, script[|script| - 1])
    decreases |script|
  {
    var n := |script| - 1;
    if n == 0 {
      assert script[1..] == [] && script[..0] == [];
    } else {
      var first := Happen(d, venues, ctxDone, script[0]);
      assert script[..n][1..] == script[1..][..n - 1];
      PlayLast(first.0, venues, first.1, script[1..]);
    }
    hide Next, Enabled;
  }

  /** The m-th occurrence is the venue of a running goroutine answering what `r` says. */
  ghost predicate AnsweredAt(venues: set<string>, script: seq<Occurrence>, t: Task, r: VenueResult, m: nat) {
    && m < |script| && script[m] == Do(Answer(t, r.quotes, r.err))
    && t in Play(FRESH, venues, false, script[..m]).0.running
  }

  ghost predicate Answered(venues: set<string>, script: seq<Occurrence>, t: Task, r: VenueResult) {
    exists m: nat :: AnsweredAt(venues, script, t, r, m)
  }

  lemma AnsweredLater(venues: set<string>, script: seq<Occurrence>, t: Task, r: VenueResult)
    requires script != [] && Answered(venues, script[..|script| - 1], t, r)
    ensures Answered(venues, script, t, r)
  {
    hide Play;
    var m: nat :| AnsweredAt(venues, script[..|script| - 1], t, r, m);
    assert script[..|script| - 1][..m] == script[..m];
    assert AnsweredAt(venues, script, t, r, m);
  }

  lemma AnsweredNow(venues: set<string>, script: seq<Occurrence>, t: Task, r: VenueResult)
    requires script != [] && script[|script| - 1] == Do(Answer(t, r.quotes, r.err))
    requires t in Play(FRESH, venues, false, script[..|script| - 1]).0.running
    ensures Answered(venues, script, t, r)
  {
    assert AnsweredAt(venues, script, t, r, |script| - 1);
  }

  /** Each pending or delivered result is what its venue answered. */
  ghost predicate FromAnswers(d: Disp, venues: set<string>, script: seq<Occurrence>) {
    && (forall t :: t in d.sending ==> Answered(venues, script, t, d.sending[t]))
    && |d.results| == |d.delivered|
    && (forall k :: 0 <= k < |d.results| ==> Answered(venues, script, d.delivered[k], d.results[k]))
  }

  lemma StepFromAnswers(d: Disp, d': Disp, venues: set<string>, ctxDone: bool, script: seq<Occurrence>)
    requires script != [] && FromAnswers(d, venues, script[..|script| - 1])
    requires d == Play(FRESH, venues, false, script[..|script| - 1]).0
    requires d' == Happen(d, venues, ctxDone, script[|script| - 1]).0
    ensures FromAnswers(d', venues, script)
  {
    hide Play, Answered;
    var o := script[|script| - 1];
    forall t, r | Answered(venues, script[..|script| - 1], t, r)
      ensures Answered(venues, script, t, r)
    {
      AnsweredLater(venues, script, t, r);
    }
    if o.Do? && o.step.Answer? && o.step.task in d.running {
      AnsweredNow(venues, script, o.step.task, d'.sending[o.step.task]);
    }
  }

  /** After any script every result carries the quotes and the error that its venue
      answered to this very goroutine. */
  lemma {:induction false} ResultsAreAnswers(venues: set<string>, script: seq<Occurrence>)
    ensures FromAnswers(Play(FRESH, venues, false, script).0, venues, script)
    decreases |script|
  {
    if script != [] {
      var n := |script| - 1;
      var (d, ctxDone) := Play(FRESH, venues, false, script[..n]);
      ResultsAreAnswers(venues, script[..n]);
      PlayLast(FRESH, venues, false, script);
      hide FromAnswers, Play, Happen;
      StepFromAnswers(d, Play(FRESH, venues, false, script).0, venues, ctxDone, script);
    }
  }

  // ----- What the results look like to the Pathfinder

  ghost predicate DistinctBlocks(events: seq<BlockEvent>) {
    forall i, j :: 0 <= i < j < |events| ==> events[i].number != events[j].number
  }

  lemma OnceInDelivered(d: Disp, venues: set<string>, i: int, j: int)
    requires Placed(d, venues) && 0 <= i < j < |d.delivered|
    ensures d.delivered[i] != d.delivered[j]
  {
    RepeatCounts(d.delivered, i, j);
    assert Places(d, d.delivered[i]) <= 1;
  }

  lemma DeliveredWasStarted(d: Disp, venues: set<string>, k: nat)
    requires Placed(d, venues) && k < |d.delivered|
    ensures Started(d, venues, d.delivered[k])
  {
    assert d.delivered[k] in multiset(d.delivered);
    assert Places(d, d.delivered[k]) >= 1;
  }

  lemma {:induction false} DistinctMeansOnce<T>(s: seq<T>, x: T)
    requires forall i, j :: 0 <= i < j < |s| ==> s[i] != s[j]
    ensures multiset(s)[x] == if x in s then 1 else 0
  {
    if s != [] {
      var n := |s| - 1;
      DistinctMeansOnce(s[..n], x);
      assert s == s[..n] + [s[n]];
    }
  }

  lemma ResultsDiffer(d: Disp, venues: set<string>, i: nat, j: nat)
    requires Placed(d, venues) && Faithful(d) && DistinctBlocks(d.accepted)
    requires i < |d.results| && j < |d.results|
    ensures d.results[i].block.number == d.results[j].block.number ==>
              d.results[i].block == d.results[j].block && (d.results[i].venue == d.results[j].venue ==> i == j)
  {
    DeliveredWasStarted(d, venues, i);
    DeliveredWasStarted(d, venues, j);
    if d.results[i].block.number == d.results[j].block.number {
      var x, y := d.delivered[i].index, d.delivered[j].index;
      assert d.accepted[x].number == d.accepted[y].number;
      assert x == y;
      if i < j && d.results[i].venue == d.results[j].venue {
        OnceInDelivered(d, venues, i, j);
      } else if j < i && d.results[i].venue == d.results[j].venue {
        OnceInDelivered(d, venues, j, i);
      }
    }
  }

  /** If the events have distinct block numbers, then whatever the interleaving
      there is at most one result per venue and block. */
  lemma AtMostOneResultEach(d: Disp, venues: set<string>)
    requires Placed(d, venues) && Faithful(d) && DistinctBlocks(d.accepted)
    ensures OneEach(d.results)
    ensures forall r :: r in d.results ==> r.venue in venues && r.block in d.accepted
  {
    forall i: nat, j: nat {:trigger d.results[i], d.results[j]} | i < |d.results| && j < |d.results|
      ensures d.results[i].block.number == d.results[j].block.number ==>
                d.results[i].block == d.results[j].block && (d.results[i].venue == d.results[j].venue ==> i == j)
    {
      ResultsDiffer(d, venues, i, j);
    }
    forall r
      ensures multiset(d.results)[r] == if r in d.results then 1 else 0
    {
      DistinctMeansOnce(d.results, r);
    }
    forall r | r in d.results
      ensures r.venue in venues && r.block in d.accepted
    {
      var k :| 0 <= k < |d.results| && d.results[k] == r;
      DeliveredWasStarted(d, venues, k);
    }
    hide Placed, DistinctBlocks;
  }

  // ----- The object

  /** The goroutines' steps, as opposed to those of the loop. */
  predicate OfGoroutine(step: Step) {
    step.Answer? || step.Deliver? || step.Drop? || step.Finish?
  }

  lemma {:induction false} DoneIsFinal(d: Disp, venues: set<string>, ctxDone: bool, script: seq<Occurrence>)
    requires DispInv(d, venues, ctxDone) && d.mode.Done?
    ensures Play(d, venues, ctxDone, script).0 == d
    decreases |script|
  {
    NoSendAfterClose(d, venues, ctxDone);
    if script != [] {
      match script[0]
      case Cancel => DoneIsFinal(d, venues, true, script[1..]);
      case Do(step) =>
        assert !Enabled(d, true, step);
        DoneIsFinal(d, venues, ctxDone, script[1..]);
    }
  }

  class Dispatcher {
    const venues: set<string>
    var accepted: seq<BlockEvent>
    var running: set<Task>
    var sending: map<Task, VenueResult>
    var delivered: seq<Task>
    var out: seq<VenueResult>  // what was sent on the output channel
    var dropped: set<Task>
    var leaving: set<Task>
    var pending: int  // the WaitGroup
    var ctxDone: bool
    var script: seq<Occurrence>  // what is still to happen

    function At(mode: Mode): Disp
      reads this
    {
      Disp(mode, accepted, running, sending, delivered, out, dropped, leaving, pending)
    }

    /** What the machine makes of the rest of the script from a position. */
    ghost function Future(mode: Mode): (Disp, bool)
      reads this
    {
      Play(At(mode), venues, ctxDone, script)
    }

    constructor (venues: set<string>, script: seq<Occurrence>)
      ensures this.venues == venues && this.script == script && !ctxDone && At(Looping) == FRESH
    {
      this.venues, this.script, ctxDone := venues, script, false;
      accepted, running, sending, delivered, out, dropped, leaving, pending := [], {}, map[], [], [], {}, {}, 0;
    }

    /** One goroutine goes on: its venue answers, its send goes through or is given
        up, or it returns and is taken off the WaitGroup. */
    method Dispatch(mode: Mode, step: Step)
      requires OfGoroutine(step) && Enabled(At(mode), ctxDone, step)
      modifies this`running, this`sending, this`delivered, this`out, this`dropped, this`leaving, this`pending
      ensures At(mode) == Next(old(At(mode)), venues, ctxDone, step)
      ensures step.Answer? ==>
                sending == old(sending)[step.task := VenueResult(step.task.venue, step.task.ev, step.quotes, step.err)]
      ensures step.Deliver? ==> out == old(out) + [old(sending)[step.task]]
    {
      match step {
        case Answer(task, quotes, err) =>
          running := running - {task};
          sending := sending[task := VenueResult(task.venue, task.ev, quotes, err)];
        case Deliver(task) =>
          delivered, out := delivered + [task], out + [sending[task]];
          sending, leaving := sending - {task}, leaving + {task};
        case Drop(task) =>
          dropped := dropped + {task};
          sending, leaving := sending - {task}, leaving + {task};
        case Finish(task) =>
          leaving := leaving - {task};
          pending := pending - 1;
      }
    }

    /** Blocks until the loop itself can go on; the goroutines do not wait for it. */
    method Await(mode: Mode) returns (step: Option<Step>)
      requires DispInv(At(mode), venues, ctxDone)
      modifies this`running, this`sending, this`delivered, this`out, this`dropped, this`leaving, this`pending
      modifies this`ctxDone, this`script
      ensures step.None? ==>
                script == [] && Future(mode) == old(Future(mode)) && DispInv(At(mode), venues, ctxDone)
      ensures step.Some? ==>
                && |script| < old(|script|)
                && !OfGoroutine(step.value) && Enabled(At(mode), ctxDone, step.value)
                && old(Future(mode)) == Play(Next(At(mode), venues, ctxDone, step.value), venues, ctxDone, script)
                && DispInv(Next(At(mode), venues, ctxDone, step.value), venues, ctxDone)
    {
      hide DispInv;
      while script != []
        invariant Future(mode) == old(Future(mode)) && |script| <= old(|script|)
        invariant DispInv(At(mode), venues, ctxDone)
        decreases |script|
      {
        hide Next, At;
        var occurrence := script[0];
        script := script[1..];
        match occurrence
        case Cancel =>
          CancelKeepsInv(At(mode), venues, ctxDone);
          ctxDone := true;
        case Do(next) =>
          if Enabled(At(mode), ctxDone, next) {
            NextKeepsInv(At(mode), venues, ctxDone, next);
            if !OfGoroutine(next) {
              return Some(next);
            }
            Dispatch(mode, next);
          }
      }
      return None;
    }

    /** One goroutine per venue, in no particular order. */
    method SpawnAll(ev: BlockEvent) returns (blocked: Option<Mode>)
      requires accepted != [] && DispInv(At(LoopOver(|accepted| - 1, ev, venues)), venues, ctxDone)
      modifies this
      ensures |script| <= old(|script|)
      ensures var start := LoopOver(|old(accepted)| - 1, ev, venues);
              var at := if blocked.Some? then blocked.value else Looping;
              && Future(at) == old(Future(start)) && DispInv(At(at), venues, ctxDone)
              && (blocked.Some? ==> script == [] && !at.Looping?)
    {
      hide DispInv;
      var index, left := |accepted| - 1, venues;
      while left != {}
        invariant |script| <= old(|script|)
        invariant Future(LoopOver(index, ev, left)) == old(Future(LoopOver(index, ev, venues)))
        invariant DispInv(At(LoopOver(index, ev, left)), venues, ctxDone)
        decreases |left|
      {
        hide Play;
        var step := Await(Spawning(index, ev, left));
        if step.None? {
          return Some(Spawning(index, ev, left));
        }
        pending := pending + 1;
        running := running + {Task(index, step.value.venue, ev)};
        left := left - {step.value.venue};
      }
      return None;
    }

    /** Ends where the machine ends: blocked, or with the output closed. */
    method Run() returns (at: Mode)
      requires At(Looping) == FRESH && !ctxDone
      modifies this
      ensures at.Done? || script == []
      ensures At(at) == old(Future(Looping)).0
      ensures DispInv(At(at), venues, ctxDone)
    {
      StartsInInv(venues);
      hide DispInv;
      at := Looping;
      while at.Looping? && script != []
        invariant at.Looping? || at.Waiting? || script == []
        invariant Future(at) == old(Future(Looping)) && DispInv(At(at), venues, ctxDone)
        decreases at.Looping?, |script|
      {
        hide Play;
        var step := Await(Looping);
        if step.None? {
          break;
        }
        match step.value {
          case Leave => at := Waiting(Some(Canceled));
          case EventsClosed => at := Waiting(None);
          case Accept(ev) =>
            accepted := accepted + [ev];
            var blocked := SpawnAll(ev);
            if blocked.Some? {
              at := blocked.value;
              break;
            }
        }
      }
      if at.Waiting? {
        var step := Await(at);
        if step.Some? {
          at := Done(at.err);
          DoneIsFinal(At(at), venues, ctxDone, script);
        }
      }
    }
  }
}
