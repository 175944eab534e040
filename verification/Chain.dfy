/** The block subscriber: dial, stream, reconnect (internal/chain/subscriber.go).

    Its loops block in four operations: a dial, a back-off sleep, the select of
    the stream and the select of a send. The machine below says what each of
    them does with whatever it comes back with; the class is the code itself. */
module Chain {
  import opened Pricing
  import opened Messages

  datatype Header = NilHeader | Header(number: Uint64, time: int, baseFee: Option<nat>)

  function EventOf(h: Header): BlockEvent
    requires h.Header?
  {
    BlockEvent(h.number, h.time, h.baseFee)
  }

  /** Where the subscriber is. */
  datatype Pc =
    | Dialing
    | Backoff
    | Streaming(id: nat)
    | Emitting(id: nat, ev: BlockEvent)
    | Closing(id: nat)
    | Returned(err: CtxError)

  /** What an operation can come back with. */
  datatype Arm =
    | DialOk
    | DialFails
    | DialCtxError(err: CtxError)
    | DelayElapsed
    | CtxDone
    | SubscriptionErr
    | HeaderReceived(header: Header)
    | Sent
    | Proceed

  /** What an observer sees. */
  datatype Action =
    | Dialled(id: nat)
    | Got(id: nat, ev: BlockEvent)
    | Emitted(id: nat, ev: BlockEvent)
    | Closed(id: nat)
    | OutClosed

  datatype Sub = Sub(pc: Pc, dialled: nat, log: seq<Action>)

  const IDLE := Sub(Dialing, 0, [])

  /** The arms that can be taken; those on the context only once it is done. */
  predicate Offers(pc: Pc, ctxDone: bool, arm: Arm) {
    match pc
    case Dialing => arm.DialOk? || arm.DialFails? || arm.DialCtxError?
    case Backoff => arm.DelayElapsed? || (arm.CtxDone? && ctxDone)
    case Streaming(_) => arm.SubscriptionErr? || arm.HeaderReceived? || (arm.CtxDone? && ctxDone)
    case Emitting(_, _) => arm.Sent? || (arm.CtxDone? && ctxDone)
    case Closing(_) => arm.Proceed?
    case Returned(_) => false
  }

  function Return(s: Sub, err: CtxError): Sub {
    s.(pc := Returned(err), log := s.log + [OutClosed])
  }

  function Next(s: Sub, ctxDone: bool, arm: Arm): Sub
    requires Offers(s.pc, ctxDone, arm)
  {
    match s.pc
    case Dialing =>
      if arm.DialOk? then Sub(Streaming(s.dialled), s.dialled + 1, s.log + [Dialled(s.dialled)])
      else if arm.DialFails? then s.(pc := Backoff)
      else Return(s, arm.err)
    case Backoff =>
      if arm.DelayElapsed? then s.(pc := Dialing) else Return(s, Canceled)
    case Streaming(id) =>
      if arm.HeaderReceived? && arm.header.Header? then
        s.(pc := Emitting(id, EventOf(arm.header)), log := s.log + [Got(id, EventOf(arm.header))])
      else s.(pc := Closing(id))
    case Emitting(id, ev) =>
      if arm.Sent? then s.(pc := Streaming(id), log := s.log + [Emitted(id, ev)])
      else s.(pc := Closing(id))
    case Closing(id) =>
      var closed := s.(log := s.log + [Closed(id)]);
      if ctxDone then Return(closed, Canceled) else closed.(pc := Dialing)
    case Returned(_) => s
  }

  // ----- Runs

  datatype Occurrence = Cancel | On(arm: Arm)

  /** The effect of everything that happens, in order. An arm that is not on
      offer cannot happen to the subscriber. */
  function Play(s: Sub, ctxDone: bool, script: seq<Occurrence>): (Sub, bool)
    decreases |script|
  {
    if script == [] then (s, ctxDone)
    else
      match script[0]
      case Cancel => Play(s, true, script[1..])
      case On(arm) =>
        if Offers(s.pc, ctxDone, arm) then Play(Next(s, ctxDone, arm), ctxDone, script[1..])
        else Play(s, ctxDone, script[1..])
  }

  // ----- What every log obeys

  function OpenAfter(open: set<nat>, a: Action): set<nat> {
    match a
    case Dialled(id) => open + {id}
    case Closed(id) => open - {id}
    case _ => open
  }

  /** The subscriptions that are open. */
  function Open(log: seq<Action>): set<nat> {
    if log == [] then {} else OpenAfter(Open(log[..|log| - 1]), log[|log| - 1])
  }

  function Dials(log: seq<Action>): nat {
    if log == [] then 0
    else
      var n := |log| - 1;
      Dials(log[..n]) + if log[n].Dialled? then 1 else 0
  }

  function UnsentAfter(unsent: bool, a: Action): bool {
    match a
    case Got(_, _) => true
    case Emitted(_, _) => false
    case _ => unsent
  }

  /** The last header received has not been handed on. */
  predicate Unsent(log: seq<Action>) {
    if log == [] then false else UnsentAfter(Unsent(log[..|log| - 1]), log[|log| - 1])
  }

  predicate Ended(log: seq<Action>) {
    log != [] && log[|log| - 1] == OutClosed
  }

  /** `a` may follow `log`: one subscription at a time, numbered by dial order;
      headers only from the open one, each handed on before the next is taken
      and before another dial; the output closes once, last, with nothing open. */
  ghost predicate MayFollow(log: seq<Action>, a: Action) {
    && !Ended(log)
    && match a
       case Dialled(id) => Open(log) == {} && id == Dials(log) && !Unsent(log)
       case Closed(id) => Open(log) == {id}
       case Got(id, _) => Open(log) == {id} && id + 1 == Dials(log) && !Unsent(log)
       case Emitted(id, ev) => Open(log) == {id} && log != [] && log[|log| - 1] == Got(id, ev)
       case OutClosed => Open(log) == {}
  }

  ghost predicate Legal(log: seq<Action>) {
    forall k :: 0 <= k < |log| ==> MayFollow(log[..k], log[k])
  }

  lemma Appended(log: seq<Action>, a: Action)
    ensures var all := log + [a];
            && all[|all| - 1] == a
            && (Ended(all) <==> a == OutClosed)
            && Open(all) == OpenAfter(Open(log), a)
            && Dials(all) == Dials(log) + (if a.Dialled? then 1 else 0)
            && Unsent(all) == UnsentAfter(Unsent(log), a)
  {
    assert (log + [a])[..|log|] == log;
  }

  lemma LegalStep(log: seq<Action>, a: Action)
    requires Legal(log) && MayFollow(log, a)
    ensures Legal(log + [a])
  {
    var all := log + [a];
    forall k | 0 <= k < |all|
      ensures MayFollow(all[..k], all[k])
    {
      assert all[..k] == log[..k];
      assert log[..|log|] == log;
    }
  }

  lemma LegalPrefix(log: seq<Action>)
    requires Legal(log) && log != []
    ensures Legal(log[..|log| - 1]) && MayFollow(log[..|log| - 1], log[|log| - 1])
  {
    var n := |log| - 1;
    assert forall k :: 0 <= k < n ==> log[..n][..k] == log[..k];
  }

  /** What the position says about the log. A header is given up only when the
      context is done, and then there is no further dial. */
  ghost predicate SubInv(s: Sub, ctxDone: bool) {
    && Legal(s.log) && Dials(s.log) == s.dialled
    && (Ended(s.log) <==> s.pc.Returned?)
    && (Unsent(s.log) ==> s.pc.Emitting? || (ctxDone && (s.pc.Closing? || s.pc.Returned?)))
    && match s.pc
       case Streaming(id) => Open(s.log) == {id} && id + 1 == s.dialled
       case Emitting(id, ev) =>
         Open(s.log) == {id} && id + 1 == s.dialled && s.log != [] && s.log[|s.log| - 1] == Got(id, ev)
       case Closing(id) => Open(s.log) == {id} && id + 1 == s.dialled
       case _ => Open(s.log) == {}
  }

  /** The step's action may follow the log; closing may end the output too. */
  lemma NextIsLegal(s: Sub, ctxDone: bool, arm: Arm)
    requires SubInv(s, ctxDone) && Offers(s.pc, ctxDone, arm)
    ensures Legal(Next(s, ctxDone, arm).log)
  {
    hide Legal, Open, Dials, Unsent;
    match s.pc
    case Dialing =>
      if arm.DialOk? { LegalStep(s.log, Dialled(s.dialled)); }
      if arm.DialCtxError? { LegalStep(s.log, OutClosed); }
    case Backoff =>
      if arm.CtxDone? { LegalStep(s.log, OutClosed); }
    case Streaming(id) =>
      if arm.HeaderReceived? && arm.header.Header? { LegalStep(s.log, Got(id, EventOf(arm.header))); }
    case Emitting(id, ev) =>
      if arm.Sent? { LegalStep(s.log, Emitted(id, ev)); }
    case Closing(id) =>
      LegalStep(s.log, Closed(id));
      Appended(s.log, Closed(id));
      if ctxDone { LegalStep(s.log + [Closed(id)], OutClosed); }
    case Returned(_) =>
  }

  lemma NextKeepsInv(s: Sub, ctxDone: bool, arm: Arm)
    requires SubInv(s, ctxDone) && Offers(s.pc, ctxDone, arm)
    ensures SubInv(Next(s, ctxDone, arm), ctxDone)
  {
    NextIsLegal(s, ctxDone, arm);
    if s.pc.Closing? {
      ClosingKeepsInv(s, ctxDone);
    } else if s.pc.Streaming? {
      StreamingKeepsInv(s, ctxDone, arm);
    } else if s.pc.Emitting? {
      EmittingKeepsInv(s, ctxDone, arm);
    } else {
      IdleKeepsInv(s, ctxDone, arm);
    }
  }

  lemma IdleKeepsInv(s: Sub, ctxDone: bool, arm: Arm)
    requires SubInv(s, ctxDone) && Offers(s.pc, ctxDone, arm) && (s.pc.Dialing? || s.pc.Backoff?)
    requires Legal(Next(s, ctxDone, arm).log)
    ensures SubInv(Next(s, ctxDone, arm), ctxDone)
  {
    hide Legal, Open, Dials, Unsent, Ended;
    Appended(s.log, OutClosed);
    Appended(s.log, Dialled(s.dialled));
  }

  lemma StreamingKeepsInv(s: Sub, ctxDone: bool, arm: Arm)
    requires SubInv(s, ctxDone) && Offers(s.pc, ctxDone, arm) && s.pc.Streaming?
    requires Legal(Next(s, ctxDone, arm).log)
    ensures SubInv(Next(s, ctxDone, arm), ctxDone)
  {
    hide Legal, Open, Dials, Unsent, Ended;
    if arm.HeaderReceived? && arm.header.Header? {
      Appended(s.log, Got(s.pc.id, EventOf(arm.header)));
    }
  }

  lemma EmittingKeepsInv(s: Sub, ctxDone: bool, arm: Arm)
    requires SubInv(s, ctxDone) && Offers(s.pc, ctxDone, arm) && s.pc.Emitting?
    requires Legal(Next(s, ctxDone, arm).log)
    ensures SubInv(Next(s, ctxDone, arm), ctxDone)
  {
    hide Legal, Open, Dials, Unsent, Ended;
    Appended(s.log, Emitted(s.pc.id, s.pc.ev));
  }

  lemma ClosingKeepsInv(s: Sub, ctxDone: bool)
    requires SubInv(s, ctxDone) && s.pc.Closing?
    requires Legal(Next(s, ctxDone, Proceed).log)
    ensures SubInv(Next(s, ctxDone, Proceed), ctxDone)
  {
    hide Legal, Open, Dials, Unsent, Ended;
    Appended(s.log, Closed(s.pc.id));
    Appended(s.log + [Closed(s.pc.id)], OutClosed);
  }

  /** The invariant holds whatever happens, for as long as one likes. */
  lemma {:induction false} EveryRunIsLegal(s: Sub, ctxDone: bool, script: seq<Occurrence>)
    requires SubInv(s, ctxDone)
    ensures SubInv(Play(s, ctxDone, script).0, Play(s, ctxDone, script).1)
    decreases |script|
  {
    if script != [] {
      match script[0]
      case Cancel =>
        EveryRunIsLegal(s, true, script[1..]);
      case On(arm) =>
        hide SubInv;
        if Offers(s.pc, ctxDone, arm) {
          NextKeepsInv(s, ctxDone, arm);
          EveryRunIsLegal(Next(s, ctxDone, arm), ctxDone, script[1..]);
        } else {
          EveryRunIsLegal(s, ctxDone, script[1..]);
        }
    }
  }

  /** At most one subscription is open, the last one dialled. */
  lemma {:induction false} OneSubscriptionAtATime(log: seq<Action>)
    requires Legal(log)
    ensures Open(log) == {} || (Dials(log) > 0 && Open(log) == {Dials(log) - 1})
    ensures Ended(log) ==> Open(log) == {}
  {
    if log != [] {
      LegalPrefix(log);
      hide Legal, Unsent;
      OneSubscriptionAtATime(log[..|log| - 1]);
    }
  }

  lemma InPrefixOrLast(log: seq<Action>, a: Action)
    requires log != []
    ensures a in log <==> a in log[..|log| - 1] || a == log[|log| - 1]
  {
  }

  /** No subscription leaks: each one dialled is closed unless it is still open. */
  lemma {:induction false} EachDialledIsClosed(log: seq<Action>, id: nat)
    requires Legal(log)
    ensures id < Dials(log) <==> Dialled(id) in log
    ensures Closed(id) in log <==> id < Dials(log) && id !in Open(log)
  {
    if log != [] {
      LegalPrefix(log);
      hide Legal, Unsent;
      EachDialledIsClosed(log[..|log| - 1], id);
      OneSubscriptionAtATime(log[..|log| - 1]);
      InPrefixOrLast(log, Dialled(id));
      InPrefixOrLast(log, Closed(id));
    }
  }

  // ----- What is emitted

  /** What went out on the Events channel. */
  function Events(log: seq<Action>): seq<BlockEvent> {
    if log == [] then []
    else
      var n := |log| - 1;
      Events(log[..n]) + if log[n].Emitted? then [log[n].ev] else []
  }

  /** The headers received from one subscription. */
  function ReceivedFrom(log: seq<Action>, id: nat): seq<BlockEvent> {
    if log == [] then []
    else
      var n := |log| - 1;
      ReceivedFrom(log[..n], id) + if log[n].Got? && log[n].id == id then [log[n].ev] else []
  }

  function EmittedFrom(log: seq<Action>, id: nat): seq<BlockEvent> {
    if log == [] then []
    else
      var n := |log| - 1;
      EmittedFrom(log[..n], id) + if log[n].Emitted? && log[n].id == id then [log[n].ev] else []
  }

  /** What each of the first n subscriptions contributed, one after the other. */
  function InDialOrder(log: seq<Action>, n: nat): seq<BlockEvent> {
    if n == 0 then [] else InDialOrder(log, n - 1) + EmittedFrom(log, n - 1)
  }

  lemma {:induction false} NothingBeforeDial(log: seq<Action>, id: nat)
    requires Legal(log) && id >= Dials(log)
    ensures ReceivedFrom(log, id) == EmittedFrom(log, id) == []
    ensures id !in Open(log)
  {
    if log != [] {
      LegalPrefix(log);
      hide Legal;
      NothingBeforeDial(log[..|log| - 1], id);
    }
  }

  lemma {:induction false} InDialOrderStep(log: seq<Action>, n: nat)
    requires log != []
    requires var last := log[|log| - 1]; last.Emitted? ==> n <= last.id + 1
    ensures var last := log[|log| - 1];
            InDialOrder(log, n) ==
            InDialOrder(log[..|log| - 1], n) + if last.Emitted? && last.id + 1 == n then [last.ev] else []
  {
    if n > 0 {
      InDialOrderStep(log, n - 1);
    }
  }

  lemma LastDialIsCurrent(log: seq<Action>)
    requires Legal(log) && log != []
    ensures var n := |log| - 1;
            && Legal(log[..n])
            && (log[n].Dialled? ==> Dials(log) == Dials(log[..n]) + 1 && log[n].id == Dials(log[..n]))
            && (!log[n].Dialled? ==> Dials(log) == Dials(log[..n]))
            && (log[n].Emitted? ==> log[n].id + 1 == Dials(log))
  {
    LegalPrefix(log);
    if log[|log| - 1].Emitted? {
      LegalPrefix(log[..|log| - 1]);
    }
    hide Legal, Open, Unsent;
  }

  /** The emitted events are, in dial order, what each subscription delivered. */
  lemma {:induction false} EmitsInDialOrder(log: seq<Action>)
    requires Legal(log)
    ensures Events(log) == InDialOrder(log, Dials(log))
  {
    if log != [] {
      var last, before := log[|log| - 1], log[..|log| - 1];
      LastDialIsCurrent(log);
      EmitsInDialOrder(before);
      InDialOrderStep(log, Dials(before));
      if last.Dialled? {
        NothingBeforeDial(before, Dials(before));
      }
      hide Legal, Dials;
    }
  }

  /** Every subscription's headers are handed on in order and in full, but for
      one header of the last subscription when the run was cancelled. */
  lemma {:induction false} OnlyTheLastHeaderIsLost(log: seq<Action>, id: nat)
    requires Legal(log)
    ensures if Unsent(log) && id + 1 == Dials(log)
            then ReceivedFrom(log, id) != []
                 && EmittedFrom(log, id) == ReceivedFrom(log, id)[..|ReceivedFrom(log, id)| - 1]
            else EmittedFrom(log, id) == ReceivedFrom(log, id)
  {
    if log != [] {
      LegalPrefix(log);
      hide Legal;
      OnlyTheLastHeaderIsLost(log[..|log| - 1], id);
    }
  }

  /** Documentation has Run return only once the context is done; a dial that
      reports a context error of its own makes it return as well. */
  lemma ReturnsThoughContextIsAlive()
    ensures Play(IDLE, false, [On(DialCtxError(DeadlineExceeded))]) ==
            (Sub(Returned(DeadlineExceeded), 0, [OutClosed]), false)
  {
    var script := [On(DialCtxError(DeadlineExceeded))];
    assert Play(Return(IDLE, DeadlineExceeded), false, script[1..]).0.log == [OutClosed];
  }

  /** The k-th occurrence is a context error of a dial the subscriber is waiting for. */
  predicate DialGivesUp(s: Sub, script: seq<Occurrence>, k: nat) {
    && k < |script| && script[k].On? && script[k].arm.DialCtxError?
    && Play(s, false, script[..k]).0.pc.Dialing?
  }

  /** One occurrence that is not a cancellation. */
  function Taken(s: Sub, arm: Arm): Sub {
    if Offers(s.pc, false, arm) then Next(s, false, arm) else s
  }

  lemma GivesUpLater(s: Sub, script: seq<Occurrence>, k: nat)
    requires script != [] && script[0].On?
    ensures DialGivesUp(s, script, 0) <==> s.pc.Dialing? && script[0].arm.DialCtxError?
    ensures DialGivesUp(s, script, k + 1) <==> DialGivesUp(Taken(s, script[0].arm), script[1..], k)
  {
    assert script[..0] == [];
    if k + 1 < |script| {
      assert script[..k + 1][1..] == script[1..][..k];
      assert script[..k + 1][0] == script[0];
    }
    hide Next, Offers;
  }

  /** A run that has not been cancelled has returned exactly if a dial it was
      waiting for reported a context error. */
  lemma {:induction false} ReturnsUncancelledIff(s: Sub, script: seq<Occurrence>)
    requires !s.pc.Returned?
    ensures var (t, done) := Play(s, false, script);
            t.pc.Returned? && !done <==> Cancel !in script && exists k: nat :: DialGivesUp(s, script, k)
    decreases |script|
  {
    if script == [] {
    } else if script[0].Cancel? {
      DoneStaysDone(s, script[1..]);
    } else {
      var s' := Taken(s, script[0].arm);
      FirstOccurrence(s, script);
      forall k: nat
        ensures DialGivesUp(s, script, k + 1) <==> DialGivesUp(s', script[1..], k)
        ensures DialGivesUp(s, script, 0) <==> s'.pc.Returned?
      {
        GivesUpLater(s, script, k);
      }
      assert (exists k: nat :: DialGivesUp(s, script, k)) <==>
             DialGivesUp(s, script, 0) || exists k: nat :: DialGivesUp(s', script[1..], k) by {
        hide DialGivesUp;
        GivesUpNowOrLater(s, s', script);
      }
      hide DialGivesUp, Taken, Play;
      if s'.pc.Returned? {
        ReturnedIsFinal(s', false, script[1..]);
        DoneIffCancelled(s', script[1..]);
      } else {
        ReturnsUncancelledIff(s', script[1..]);
      }
    }
  }

  /** And it has returned that error. */
  lemma {:induction false} ReturnsTheErrorOfTheDial(s: Sub, script: seq<Occurrence>, k: nat)
    requires DialGivesUp(s, script, k) && Cancel !in script
    ensures Play(s, false, script).0.pc == Returned(script[k].arm.err)
    decreases |script|
  {
    assert script[0] in script && script[0].On?;
    var s' := Taken(s, script[0].arm);
    FirstOccurrence(s, script);
    if k == 0 {
      GivesUpLater(s, script, 0);
      ReturnedIsFinal(s', false, script[1..]);
    } else {
      GivesUpLater(s, script, k - 1);
      ReturnsTheErrorOfTheDial(s', script[1..], k - 1);
    }
  }

  lemma GivesUpNowOrLater(s: Sub, s': Sub, script: seq<Occurrence>)
    requires script != []
    requires forall k: nat :: DialGivesUp(s, script, k + 1) <==> DialGivesUp(s', script[1..], k)
    ensures (exists k: nat :: DialGivesUp(s, script, k)) <==>
            DialGivesUp(s, script, 0) || exists k: nat :: DialGivesUp(s', script[1..], k)
  {
    hide DialGivesUp;
    if exists k: nat :: DialGivesUp(s, script, k) {
      var k: nat :| DialGivesUp(s, script, k);
      assert k > 0 ==> DialGivesUp(s, script, (k - 1) + 1) && DialGivesUp(s', script[1..], k - 1);
    }
    if exists k: nat :: DialGivesUp(s', script[1..], k) {
      var k: nat :| DialGivesUp(s', script[1..], k);
      assert DialGivesUp(s, script, k + 1);
    }
  }

  lemma FirstOccurrence(s: Sub, script: seq<Occurrence>)
    requires script != [] && script[0].On?
    ensures Play(s, false, script) == Play(Taken(s, script[0].arm), false, script[1..])
    ensures Cancel in script <==> Cancel in script[1..]
  {
  }

  lemma {:induction false} DoneIffCancelled(s: Sub, script: seq<Occurrence>)
    ensures Play(s, false, script).1 <==> Cancel in script
    decreases |script|
  {
    if script == [] {
    } else if script[0].Cancel? {
      DoneStaysDone(s, script[1..]);
    } else {
      FirstOccurrence(s, script);
      DoneIffCancelled(Taken(s, script[0].arm), script[1..]);
    }
  }

  lemma {:induction false} DoneStaysDone(s: Sub, script: seq<Occurrence>)
    ensures Play(s, true, script).1
    decreases |script|
  {
    if script != [] {
      match script[0]
      case Cancel => DoneStaysDone(s, script[1..]);
      case On(arm) => DoneStaysDone(if Offers(s.pc, true, arm) then Next(s, true, arm) else s, script[1..]);
    }
  }

  lemma {:induction false} ReturnedIsFinal(s: Sub, ctxDone: bool, script: seq<Occurrence>)
    requires s.pc.Returned?
    ensures Play(s, ctxDone, script).0 == s
    decreases |script|
  {
    if script != [] {
      ReturnedIsFinal(s, ctxDone || script[0].Cancel?, script[1..]);
    }
  }

  // ----- What the subscriber does about what happens

  lemma PlayTwo(s: Sub, ctxDone: bool, a: Occurrence, b: Occurrence)
    ensures Play(s, ctxDone, [a, b]) == Play(Play(s, ctxDone, [a]).0, Play(s, ctxDone, [a]).1, [b])
  {
    assert [a, b][1..] == [b] && [a][1..] == [];
  }

  lemma PlayOne(s: Sub, ctxDone: bool, o: Occurrence)
    ensures Play(s, ctxDone, [o]) == Happen(s, ctxDone, o)
  {
    assert [o][1..] == [];
  }

  /** The effect of one occurrence. */
  function Happen(s: Sub, ctxDone: bool, o: Occurrence): (Sub, bool) {
    match o
    case Cancel => (s, true)
    case On(arm) => (if Offers(s.pc, ctxDone, arm) then Next(s, ctxDone, arm) else s, ctxDone)
  }

  /** An arm that says that the subscription is over. */
  predicate SaysOver(arm: Arm) {
    arm.SubscriptionErr? || arm == HeaderReceived(NilHeader)
  }

  lemma EndsClosing(s: Sub, id: nat, over: Arm)
    requires s.pc == Streaming(id) && SaysOver(over)
    ensures Happen(s, false, On(over)) == (Sub(Closing(id), s.dialled, s.log), false)
  {
  }

  lemma ClosesAlive(dialled: nat, log: seq<Action>, id: nat)
    ensures Happen(Sub(Closing(id), dialled, log), false, On(Proceed)) ==
            (Sub(Dialing, dialled, log + [Closed(id)]), false)
  {
  }

  lemma DialsNext(dialled: nat, log: seq<Action>)
    ensures Happen(Sub(Dialing, dialled, log), false, On(DialOk)) ==
            (Sub(Streaming(dialled), dialled + 1, log + [Dialled(dialled)]), false)
  {
  }

  /** One more occurrence after a script whose effect is known. */
  lemma PlayThen(s: Sub, ctxDone: bool, script: seq<Occurrence>, o: Occurrence, t: Sub, done: bool)
    requires Play(s, ctxDone, script) == (t, done)
    ensures Play(s, ctxDone, script + [o]) == Happen(t, done, o)
  {
    var all := script + [o];
    assert all[..|all| - 1] == script;
    hide Play, Happen;
    PlayLast(s, ctxDone, all);
  }

  /** A subscription that reports its end is closed. */
  lemma ClosesWhenOver(s: Sub, id: nat, over: Arm)
    requires s.pc == Streaming(id) && SaysOver(over)
    ensures Play(s, false, [On(over), On(Proceed)]) == (Sub(Dialing, s.dialled, s.log + [Closed(id)]), false)
  {
    hide *;
    EndsClosing(s, id, over);
    ClosesAlive(s.dialled, s.log, id);
    PlayOne(s, false, On(over));
    PlayThen(s, false, [On(over)], On(Proceed), Sub(Closing(id), s.dialled, s.log), false);
    assert [On(over)] + [On(Proceed)] == [On(over), On(Proceed)];
  }

  /** And another one is dialled. */
  lemma ClosesAndRedials(s: Sub, id: nat, over: Arm)
    requires s.pc == Streaming(id) && SaysOver(over)
    ensures Play(s, false, [On(over), On(Proceed), On(DialOk)]) ==
            (Sub(Streaming(s.dialled), s.dialled + 1, s.log + [Closed(id)] + [Dialled(s.dialled)]), false)
  {
    hide *;
    var log := s.log + [Closed(id)];
    ClosesWhenOver(s, id, over);
    DialsNext(s.dialled, log);
    PlayThen(s, false, [On(over), On(Proceed)], On(DialOk), Sub(Dialing, s.dialled, log), false);
    assert [On(over), On(Proceed)] + [On(DialOk)] == [On(over), On(Proceed), On(DialOk)];
  }

  /** A failed dial is repeated after the delay and not before. */
  lemma BacksOffAndRedials(s: Sub)
    requires s.pc == Dialing
    ensures Play(s, false, [On(DialFails), On(DialOk)]) == (Sub(Backoff, s.dialled, s.log), false)
    ensures Play(s, false, [On(DialFails), On(DelayElapsed)]) == (s, false)
  {
    var waiting := Sub(Backoff, s.dialled, s.log);
    PlayOne(s, false, On(DialFails));
    PlayOne(waiting, false, On(DialOk));
    PlayOne(waiting, false, On(DelayElapsed));
    hide Play;
    PlayTwo(s, false, On(DialFails), On(DialOk));
    PlayTwo(s, false, On(DialFails), On(DelayElapsed));
  }

  /** A header is handed on as the event of its number, time and base fee, and the
      same subscription goes on. */
  lemma HandsOn(s: Sub, id: nat, number: Uint64, time: int, baseFee: Option<nat>)
    requires s.pc == Streaming(id)
    ensures var ev := BlockEvent(number, time, baseFee);
            Play(s, false, [On(HeaderReceived(Header(number, time, baseFee))), On(Sent)]) ==
            (Sub(Streaming(id), s.dialled, s.log + [Got(id, ev)] + [Emitted(id, ev)]), false)
  {
    var ev, header := BlockEvent(number, time, baseFee), On(HeaderReceived(Header(number, time, baseFee)));
    PlayOne(s, false, header);
    PlayOne(Sub(Emitting(id, ev), s.dialled, s.log + [Got(id, ev)]), false, On(Sent));
    hide Play;
    PlayTwo(s, false, header, On(Sent));
  }

  /** Once cancelled it closes what is open, closes its output and returns. */
  lemma StopsWhenCancelled(s: Sub, id: nat)
    ensures s.pc.Backoff? ==>
              Play(s, false, [Cancel, On(CtxDone)]) == (Sub(Returned(Canceled), s.dialled, s.log + [OutClosed]), true)
    ensures s.pc == Streaming(id) || (s.pc.Emitting? && s.pc.id == id) ==>
              Play(s, true, [On(CtxDone), On(Proceed)]) ==
              (Sub(Returned(Canceled), s.dialled, s.log + [Closed(id)] + [OutClosed]), true)
  {
    PlayOne(s, false, Cancel);
    PlayOne(s, true, On(CtxDone));
    PlayOne(Sub(Closing(id), s.dialled, s.log), true, On(Proceed));
    hide Play;
    PlayTwo(s, false, Cancel, On(CtxDone));
    PlayTwo(s, true, On(CtxDone), On(Proceed));
  }

  // ----- What happened, read off the log

  lemma {:induction false} PlayLast(s: Sub, ctxDone: bool, script: seq<Occurrence>)
    requires script != []
    ensures var (t, done) := Play(s, ctxDone, script[..|script| - 1]);
            Play(s, ctxDone, script) == Happen(t, done, script[|script| - 1])
    decreases |script|
  {
    var n := |script| - 1;
    if n == 0 {
      assert script == [script[0]];
      PlayOne(s, ctxDone, script[0]);
    } else {
      var first := Happen(s, ctxDone, script[0]);
      assert script[..n][1..] == script[1..][..n - 1];
      PlayLast(first.0, first.1, script[1..]);
      hide Next, Offers;
    }
  }

  /** The event of the header that `o` brings to a subscription that is streaming. */
  function Reported(s: Sub, o: Occurrence, id: nat): seq<BlockEvent> {
    match o
    case On(HeaderReceived(Header(number, time, baseFee))) =>
      if s.pc == Streaming(id) then [BlockEvent(number, time, baseFee)] else []
    case _ => []
  }

  /** The headers the subscription `id` reported while it was streaming. */
  function HeadersReported(script: seq<Occurrence>, id: nat): seq<BlockEvent> {
    if script == [] then []
    else
      var n := |script| - 1;
      HeadersReported(script[..n], id) + Reported(Play(IDLE, false, script[..n]).0, script[n], id)
  }

  function GotOf(a: Action, id: nat): seq<BlockEvent> {
    if a.Got? && a.id == id then [a.ev] else []
  }

  lemma GotAfter(s: Sub, ctxDone: bool, o: Occurrence, id: nat)
    ensures ReceivedFrom(Happen(s, ctxDone, o).0.log, id) == ReceivedFrom(s.log, id) + Reported(s, o, id)
  {
    hide ReceivedFrom;
    if o.On? && Offers(s.pc, ctxDone, o.arm) {
      GotNext(s, ctxDone, o.arm, id);
    }
  }

  lemma GotNext(s: Sub, ctxDone: bool, arm: Arm, id: nat)
    requires Offers(s.pc, ctxDone, arm)
    ensures ReceivedFrom(Next(s, ctxDone, arm).log, id) == ReceivedFrom(s.log, id) + Reported(s, On(arm), id)
  {
    hide ReceivedFrom;
    var log' := Next(s, ctxDone, arm).log;
    if s.pc.Closing? {
      ReceivedAppended(s.log, Closed(s.pc.id), id);
      ReceivedAppended(s.log + [Closed(s.pc.id)], OutClosed, id);
    } else if log' != s.log {
      ReceivedAppended(s.log, log'[|s.log|], id);
    }
  }

  lemma ReceivedAppended(log: seq<Action>, a: Action, id: nat)
    ensures ReceivedFrom(log + [a], id) == ReceivedFrom(log, id) + GotOf(a, id)
  {
    assert (log + [a])[..|log|] == log;
  }

  /** Over any script, what is received from a subscription are the headers it
      reported, one event for each, in their order. */
  lemma {:induction false} ReceivesWhatIsReported(script: seq<Occurrence>, id: nat)
    ensures ReceivedFrom(Play(IDLE, false, script).0.log, id) == HeadersReported(script, id)
    decreases |script|
  {
    if script != [] {
      var n := |script| - 1;
      var (s, ctxDone) := Play(IDLE, false, script[..n]);
      ReceivesWhatIsReported(script[..n], id);
      PlayLast(IDLE, false, script);
      GotAfter(s, ctxDone, script[n], id);
      hide Play, Happen, ReceivedFrom, Reported;
    }
  }

  /** The k-th occurrence tells a streaming subscription `id` that it is over. */
  predicate EndReported(script: seq<Occurrence>, k: nat, id: nat) {
    && k < |script| && script[k].On? && SaysOver(script[k].arm)
    && Play(IDLE, false, script[..k]).0.pc == Streaming(id)
  }

  predicate ClosedOrClosing(s: Sub, id: nat) {
    Closed(id) in s.log || s.pc == Closing(id)
  }

  lemma ClosingAfter(s: Sub, o: Occurrence, id: nat)
    requires o.On?
    ensures ClosedOrClosing(Happen(s, false, o).0, id) <==>
            ClosedOrClosing(s, id) || (s.pc == Streaming(id) && SaysOver(o.arm))
  {
    if Offers(s.pc, false, o.arm) {
      var log' := Next(s, false, o.arm).log;
      assert forall a :: a in log' <==> a in s.log || (|log'| > |s.log| && a == log'[|s.log|]);
    }
  }

  lemma EndReportedBefore(script: seq<Occurrence>, k: nat, id: nat)
    requires script != []
    ensures k < |script| - 1 ==> (EndReported(script, k, id) <==> EndReported(script[..|script| - 1], k, id))
  {
    if k < |script| - 1 {
      assert script[..|script| - 1][..k] == script[..k];
    }
    hide Play;
  }

  /** In a run that has not been cancelled, a subscription is closed, or about to be,
      exactly if it reported its end. */
  lemma {:induction false} ClosedIffEndReported(script: seq<Occurrence>, id: nat)
    requires Cancel !in script
    ensures ClosedOrClosing(Play(IDLE, false, script).0, id) <==> exists k: nat :: EndReported(script, k, id)
    decreases |script|
  {
    if script != [] {
      var n := |script| - 1;
      assert script[n] in script && script[n].On?;
      ClosedIffEndReported(script[..n], id);
      DoneIffCancelled(IDLE, script[..n]);
      PlayLast(IDLE, false, script);
      ClosingAfter(Play(IDLE, false, script[..n]).0, script[n], id);
      forall k: nat
        ensures k < n ==> (EndReported(script, k, id) <==> EndReported(script[..n], k, id))
      {
        EndReportedBefore(script, k, id);
      }
      assert EndReported(script, n, id) <==>
             SaysOver(script[n].arm) && Play(IDLE, false, script[..n]).0.pc == Streaming(id);
      EndsCollected(script, script[..n], id);
      hide Play, Happen, ClosedOrClosing, EndReported;
    }
  }

  lemma EndsCollected(script: seq<Occurrence>, before: seq<Occurrence>, id: nat)
    requires script != [] && before == script[..|script| - 1]
    requires forall k: nat :: k < |before| ==> (EndReported(script, k, id) <==> EndReported(before, k, id))
    ensures (exists k: nat :: EndReported(script, k, id)) <==>
            EndReported(script, |before|, id) || exists k: nat :: EndReported(before, k, id)
  {
    var n := |before|;
    assert forall k: nat :: EndReported(script, k, id) ==> k <= n;
    assert forall k: nat :: EndReported(before, k, id) ==> k < n;
    hide EndReported;
    if exists k: nat :: EndReported(script, k, id) {
      var k: nat :| EndReported(script, k, id);
      assert k < n ==> EndReported(before, k, id);
    }
    if exists k: nat :: EndReported(before, k, id) {
      var k: nat :| EndReported(before, k, id);
      assert EndReported(script, k, id);
    }
  }

  // ----- The object

  /** How dialling ends; blocked if nothing more happens. */
  datatype DialOutcome = Live(id: nat) | Stopped(err: CtxError) | DialBlocked(pc: Pc)

  class Subscriber {
    var dialled: nat
    var log: seq<Action>
    var ctxDone: bool
    var script: seq<Occurrence>  // what is still to happen

    /** What the machine makes of the rest of the script from a position. */
    ghost function Future(pc: Pc): (Sub, bool)
      reads this
    {
      Play(Sub(pc, dialled, log), ctxDone, script)
    }

    constructor (script: seq<Occurrence>)
      ensures this.script == script && !ctxDone && dialled == 0 && log == []
    {
      this.script, ctxDone, dialled, log := script, false, 0, [];
    }

    /** Blocks in the operation at `pc` until one of its arms is taken. */
    method Await(pc: Pc) returns (arm: Option<Arm>)
      modifies this`script, this`ctxDone
      ensures arm.None? ==> script == [] && Future(pc) == old(Future(pc))
      ensures arm.Some? ==>
                && |script| < old(|script|)
                && Offers(pc, ctxDone, arm.value)
                && old(Future(pc)) == Play(Next(Sub(pc, dialled, log), ctxDone, arm.value), ctxDone, script)
    {
      while script != []
        invariant Future(pc) == old(Future(pc)) && |script| <= old(|script|)
        decreases |script|
      {
        var occurrence := script[0];
        script := script[1..];
        match occurrence
        case Cancel => ctxDone := true;
        case On(a) =>
          if Offers(pc, ctxDone, a) {
            return Some(a);
          }
      }
      return None;
    }

    method DialWithRetry() returns (r: DialOutcome)
      modifies this
      ensures |script| <= old(|script|)
      ensures r.Live? ==> |script| < old(|script|) && Future(Streaming(r.id)) == old(Future(Dialing))
      ensures r.Stopped? ==>
                Play(Return(Sub(Dialing, dialled, log), r.err), ctxDone, script) == old(Future(Dialing))
      ensures r.DialBlocked? ==> script == [] && Future(r.pc) == old(Future(Dialing))
    {
      while true
        invariant Future(Dialing) == old(Future(Dialing)) && |script| <= old(|script|)
        decreases |script|
      {
        var arm := Await(Dialing);
        if arm.None? {
          return DialBlocked(Dialing);
        }
        if arm.value.DialOk? {
          var id := dialled;
          dialled, log := dialled + 1, log + [Dialled(id)];
          return Live(id);
        }
        if arm.value.DialCtxError? {
          return Stopped(arm.value.err);
        }
        arm := Await(Backoff);
        if arm.None? {
          return DialBlocked(Backoff);
        }
        if arm.value.CtxDone? {
          return Stopped(Canceled);
        }
      }
    }

    /** None if the send was given up because the context was done. */
    method Emit(id: nat, ev: BlockEvent) returns (sent: Option<bool>)
      modifies this
      ensures |script| <= old(|script|)
      ensures sent.Some? ==> Future(if sent.value then Streaming(id) else Closing(id)) == old(Future(Emitting(id, ev)))
      ensures sent.None? ==> script == [] && Future(Emitting(id, ev)) == old(Future(Emitting(id, ev)))
    {
      var arm := Await(Emitting(id, ev));
      if arm.None? {
        return None;
      }
      if arm.value.Sent? {
        log := log + [Emitted(id, ev)];
        return Some(true);
      }
      return Some(false);
    }

    /** Closing(id) once the stream has ended, or the position it is blocked at. */
    method Stream(id: nat) returns (at: Pc)
      modifies this
      ensures |script| <= old(|script|)
      ensures at == Closing(id) || script == []
      ensures Future(at) == old(Future(Streaming(id)))
    {
      while true
        invariant Future(Streaming(id)) == old(Future(Streaming(id))) && |script| <= old(|script|)
        decreases |script|
      {
        var arm := Await(Streaming(id));
        if arm.None? {
          return Streaming(id);
        }
        match arm.value {
          case HeaderReceived(h) =>
            if h.NilHeader? {
              return Closing(id);
            }
            var ev := EventOf(h);
            log := log + [Got(id, ev)];
            var sent := Emit(id, ev);
            if sent.None? {
              return Emitting(id, ev);
            }
            if !sent.value {
              return Closing(id);
            }
          case _ => return Closing(id);
        }
      }
    }

    /** Ends where the machine ends, so every log it writes is legal. */
    method Run() returns (at: Pc)
      requires dialled == 0 && log == [] && !ctxDone
      modifies this
      ensures at.Returned? || script == []
      ensures Sub(at, dialled, log) == old(Future(Dialing)).0
      ensures SubInv(Sub(at, dialled, log), old(Future(Dialing)).1)
    {
      EveryRunIsLegal(IDLE, false, script);
      while true
        invariant Future(Dialing) == old(Future(Dialing))
        decreases |script|
      {
        hide SubInv;
        var r := DialWithRetry();
        if r.DialBlocked? {
          return r.pc;
        }
        if r.Stopped? {
          ReturnedIsFinal(Return(Sub(Dialing, dialled, log), r.err), ctxDone, script);
          log := log + [OutClosed];
          return Returned(r.err);
        }
        at := Stream(r.id);
        if at != Closing(r.id) {
          return at;
        }
        var arm := Await(Closing(r.id));
        if arm.None? {
          return at;
        }
        log := log + [Closed(r.id)];
        if ctxDone {
          ReturnedIsFinal(Return(Sub(Dialing, dialled, log), Canceled), ctxDone, script);
          log := log + [OutClosed];
          return Returned(Canceled);
        }
      }
    }
  }
}
