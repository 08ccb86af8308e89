/** Steering end to end: the main loop and its queue, the capacity-one mailbox,
    the read loop, the acknowledgement channels and their watchers, interleaved
    (crates/buzz-acp/src/lib.rs:2592-2642 and 2899-3004,
    crates/buzz-acp/src/acp.rs:1305-1708, crates/buzz-acp/src/pool.rs:681-697). */
module SteerSystem {
  import opened Options
  import opened EventQueues
  import opened ReadLoop
  import ReadLoopRuns

  // ---- The main loop's two operations -------------------------------------

  /** The sending half of a turn's steer channel. */
  class Mailbox {
    var open: bool
    var slot: Option<SteerId>

    constructor ()
      ensures open && slot.None?
    {
      open, slot := true, None;
    }

    /** `try_send` on a channel of capacity one. */
    method TrySend(id: SteerId) returns (accepted: bool)
      modifies this
      ensures accepted <==> open && old(slot).None?
      ensures slot == (if accepted then Some(id) else old(slot)) && open == old(open)
    {
      accepted := open && slot.None?;
      if accepted {
        slot := Some(id);
      }
    }
  }

  /** `try_native_steer`: the event is withheld exactly when the request is accepted. */
  method TryNativeSteer(mailbox: Mailbox, queue: EventQueue, ch: Channel, id: EventId) returns (accepted: bool)
    requires queue.Valid()
    modifies mailbox, queue
    ensures queue.Valid()
    ensures accepted <==> old(mailbox.open) && old(mailbox.slot).None?
    ensures mailbox.slot == (if accepted then Some(id) else old(mailbox.slot)) && mailbox.open == old(mailbox.open)
    ensures queue.Value(ch) == if accepted then Marked(old(queue.Value(ch)), id) else old(queue.Value(ch))
    ensures forall c | c != ch :: queue.Value(c) == old(queue.Value(c))
  {
    accepted := mailbox.TrySend(id);
    if accepted {
      var _ := queue.MarkNativeSteerPending(ch, id);
    }
  }

  /** What the main loop does with an acknowledgement; `None` is a channel dropped without one. */
  datatype Verdict = Verdict(release: bool, drop: bool, fallback: bool)

  const METHOD_NOT_FOUND := -32601

  function Decide(ack: Option<Ack>): (v: Verdict)
    ensures v.release != v.drop
    ensures v.drop <==> ack == Some(Success)
    ensures v.fallback <==>
              ack.Some? && ack.value.Failed?
              && (ack.value.error.SteerAgentError? ==> ack.value.error.code == METHOD_NOT_FOUND)
  {
    match ack
    case Some(Success) => Verdict(false, true, false)
    case Some(Failed(SteerAgentError(code))) => Verdict(true, false, code == METHOD_NOT_FOUND)
    case Some(Failed(_)) => Verdict(true, false, true)
    case Some(PromptCompletedNeutral) => Verdict(true, false, false)
    case None => Verdict(true, false, false)
  }

  function Applied(q: ChannelQueue, id: EventId, ack: Option<Ack>): ChannelQueue {
    if Decide(ack).drop then Removed(q, id) else Released(q, id)
  }

  /** The acknowledgement arm of the main loop. */
  method HandleSteerAck(queue: EventQueue, ch: Channel, id: EventId, ack: Option<Ack>) returns (fallback: bool)
    requires queue.Valid()
    modifies queue
    ensures queue.Valid()
    ensures queue.Value(ch) == Applied(old(queue.Value(ch)), id, ack)
    ensures forall c | c != ch :: queue.Value(c) == old(queue.Value(c))
    ensures fallback == Decide(ack).fallback
  {
    var verdict := Decide(ack);
    if verdict.drop {
      queue.RemoveEvent(ch, id);
    }
    if verdict.release {
      queue.ReleaseNativeSteer(ch, id);
    }
    fallback := verdict.fallback;
  }

  // ---- The system ---------------------------------------------------------

  /** An acknowledgement channel: waited on, filled, or dropped by its sender. */
  datatype Oneshot = Waiting | Filled(ack: Ack) | Dropped

  /** The turn's receiving half: gone, installed, or taken by a read loop. */
  datatype Turn = NoReceiver | Installed | Reading(p: Params, l: LoopState)

  /** One channel's steering. The last six are histories: the steers accepted,
      those whose event was in the queue to withhold, those answered by a
      delivering response, the two fates, and those whose event the queue took
      off the side table by itself. */
  datatype State = State(
    turn: Turn,
    mailbox: Option<SteerId>,
    oneshots: map<SteerId, Oneshot>,
    events: seq<(SteerId, Option<Ack>)>,
    queue: ChannelQueue,
    accepted: set<SteerId>,
    withholding: set<SteerId>,
    delivered: set<SteerId>,
    dropped: set<SteerId>,
    released: set<SteerId>,
    swept: set<SteerId>)

  const START := State(NoReceiver, None, map[], [], ChannelQueue([], []), {}, {}, {}, {}, {}, {})

  datatype Step =
    | Push(e: QueuedEvent)
    | Flush
    | Install
    | BeginRead(p: Params, l: LoopState)
    | TrySteer(id: SteerId)
    | Read(i: Input)
    | Abandon
    | Watch(id: SteerId)
    | HandleAck
    | Expire
    | Drain

  predicate PendingIs(s: State, id: SteerId) {
    s.turn.Reading? && ReadLoopRuns.Holds(s.turn.l, id)
  }

  /** The request is in the mailbox or written and unanswered. */
  predicate InFlight(s: State, id: SteerId) {
    s.mailbox == Some(id) || PendingIs(s, id)
  }

  /** An event is pushed once, and steered at most once, when it arrives. */
  predicate Enabled(s: State, step: Step) {
    match step
    case Push(e) => !Has(s.queue.queued, e.id) && !Has(s.queue.withheld, e.id) && e.id !in s.accepted
    case Flush => true
    case Install => s.turn.NoReceiver?
    case BeginRead(_, l) => s.turn.Installed? && l.pending.None?
    case TrySteer(id) => id !in s.accepted
    case Read(i) =>
      && s.turn.Reading? && Possible(s.turn.l, i)
      && (i.event.Steer? ==> s.mailbox == Some(i.event.steer))
    case Abandon => !s.turn.NoReceiver?
    case Watch(id) => id in s.oneshots && !s.oneshots[id].Waiting?
    case HandleAck => s.events != []
    case Expire => true
    case Drain => true
  }

  /** The turn's receiver goes away, and with it every sender in flight. */
  function Closed(s: State): State {
    s.(turn := NoReceiver, mailbox := None,
       oneshots := map id | id in s.oneshots :: if InFlight(s, id) then Dropped else s.oneshots[id])
  }

  function Accepted(s: State, id: SteerId): State {
    s.(mailbox := Some(id), oneshots := s.oneshots[id := Waiting],
       queue := Marked(s.queue, id), accepted := s.accepted + {id},
       withholding := if Has(s.queue.queued, id) then s.withholding + {id} else s.withholding)
  }

  /** What the read loop's iteration changes around it. */
  function Iteration(s: State, i: Input, o: Outcome): State
    requires s.turn.Reading?
  {
    s.(turn := Turn.Reading(s.turn.p, o.next),
       mailbox := if i.event.Steer? && ReadLoopRuns.Takes(s.turn.l, i, i.event.steer) then None else s.mailbox,
       oneshots := if o.ack.Some? then s.oneshots[o.ack.value.0 := Filled(o.ack.value.1)] else s.oneshots,
       delivered := if o.ack.Some? && o.ack.value.1.Success? then s.delivered + {o.ack.value.0} else s.delivered)
  }

  function Handled(s: State): State
    requires s.events != []
  {
    var (id, ack) := s.events[0];
    s.(events := s.events[1..], queue := Applied(s.queue, id, ack),
       dropped := if Decide(ack).drop then s.dropped + {id} else s.dropped,
       released := if Decide(ack).release then s.released + {id} else s.released)
  }

  function Watched(s: State, id: SteerId): State
    requires id in s.oneshots
  {
    var ack := if s.oneshots[id].Filled? then Some(s.oneshots[id].ack) else None;
    s.(oneshots := s.oneshots - {id}, events := s.events + [(id, ack)])
  }

  function Ids(events: seq<QueuedEvent>): set<SteerId> {
    set e | e in events :: e.id
  }

  /** The in-flight deadline expired, or the agent left the channel: the queue
      clears the side table without waiting for acknowledgements. */
  function Swept(s: State, q: ChannelQueue): State {
    s.(queue := q, swept := s.swept + Ids(s.queue.withheld))
  }

  function Next(s: State, step: Step): State
    requires Enabled(s, step)
  {
    match step
    case Push(e) => s.(queue := Pushed(s.queue, e))
    case Flush => s.(queue := s.queue.(queued := []))
    case Install => s.(turn := Installed)
    case BeginRead(p, l) => s.(turn := Turn.Reading(p, l))
    case TrySteer(id) => if !s.turn.NoReceiver? && s.mailbox.None? then Accepted(s, id) else s
    case Read(i) =>
      var o := Iterated(s.turn.p, s.turn.l, i);
      if o.finish.Some? then Closed(Iteration(s, i, o)) else Iteration(s, i, o)
    case Abandon => Closed(s)
    case Watch(id) => Watched(s, id)
    case HandleAck => Handled(s)
    case Expire => Swept(s, Recovered(s.queue))
    case Drain => Swept(s, ChannelQueue([], []))
  }

  // ---- Invariants ---------------------------------------------------------

  /** Exactly the steers in flight have a channel still waited on, and the mailbox's is not the written one. */
  ghost predicate Custody(s: State) {
    && (forall id | InFlight(s, id) :: id in s.oneshots)
    && (forall id | id in s.oneshots :: s.oneshots[id].Waiting? <==> InFlight(s, id))
    && (s.mailbox.Some? ==> !PendingIs(s, s.mailbox.value))
    && (s.turn.NoReceiver? ==> s.mailbox.None?)
  }

  predicate HasEvent(s: State, id: SteerId) {
    exists k | 0 <= k < |s.events| :: s.events[k].0 == id
  }

  /** Every accepted steer is in exactly one place: its channel, an event on its way, dropped, or released. */
  ghost predicate OnePlace(s: State) {
    && (forall id :: id in s.accepted <==> id in s.oneshots || HasEvent(s, id) || id in s.dropped || id in s.released)
    && (forall id | id in s.oneshots :: !HasEvent(s, id) && id !in s.dropped && id !in s.released)
    && (forall k | 0 <= k < |s.events| :: s.events[k].0 !in s.dropped && s.events[k].0 !in s.released)
    && (forall j, k | 0 <= j < k < |s.events| :: s.events[j].0 != s.events[k].0)
    && s.dropped !! s.released
  }

  /** A success is recorded exactly for the steers a response confirmed. */
  ghost predicate Truthful(s: State) {
    && (forall id | id in s.oneshots :: s.oneshots[id] == Filled(Success) <==> id in s.delivered)
    && (forall k | 0 <= k < |s.events| :: s.events[k].1 == Some(Success) <==> s.events[k].0 in s.delivered)
    && s.dropped <= s.delivered && s.released !! s.delivered && s.delivered <= s.accepted
  }

  /** The side table holds exactly the withheld events whose fate is open. */
  ghost predicate Withheld(s: State) {
    && s.swept <= s.withholding <= s.accepted
    && (forall i, j | 0 <= i < j < |s.queue.withheld| :: s.queue.withheld[i].id != s.queue.withheld[j].id)
    && (forall id :: Has(s.queue.withheld, id)
          <==> id in s.withholding && id !in s.dropped && id !in s.released && id !in s.swept)
  }

  ghost predicate Invariant(s: State) {
    Custody(s) && OnePlace(s) && Truthful(s) && Withheld(s)
  }

  // ---- An iteration of the read loop --------------------------------------

  /** What the read loop guarantees about the steers it answers for. */
  ghost predicate Accounts(l: LoopState, i: Input, o: Outcome) {
    forall id: SteerId ::
      && ((ReadLoopRuns.Holds(l, id) || ReadLoopRuns.Takes(l, i, id))
          <==> (ReadLoopRuns.Holds(o.next, id) || (o.ack.Some? && o.ack.value.0 == id)))
      && !(ReadLoopRuns.Holds(o.next, id) && o.ack.Some? && o.ack.value.0 == id)
  }

  lemma LoopAccounts(p: Params, l: LoopState, i: Input)
    requires Possible(l, i)
    ensures Accounts(l, i, Iterated(p, l, i))
  {
    var o := Iterated(p, l, i);
    forall id: SteerId
      ensures (ReadLoopRuns.Holds(l, id) || ReadLoopRuns.Takes(l, i, id))
              <==> (ReadLoopRuns.Holds(o.next, id) || (o.ack.Some? && o.ack.value.0 == id))
      ensures !(ReadLoopRuns.Holds(o.next, id) && o.ack.Some? && o.ack.value.0 == id)
    {
      ReadLoopRuns.CustodyStep(p, l, i, id);
    }
  }

  /** An acknowledged steer was in flight until then. */
  lemma AckWasInFlight(s: State, i: Input, o: Outcome)
    requires Custody(s) && Enabled(s, Read(i)) && Accounts(s.turn.l, i, o) && o.ack.Some?
    ensures InFlight(s, o.ack.value.0) && s.oneshots[o.ack.value.0] == Waiting
  {
    var id := o.ack.value.0;
    assert ReadLoopRuns.Holds(s.turn.l, id) || ReadLoopRuns.Takes(s.turn.l, i, id);
  }

  lemma IterationCustody(s: State, i: Input, o: Outcome)
    requires Custody(s) && Enabled(s, Read(i)) && Accounts(s.turn.l, i, o)
    ensures Custody(Iteration(s, i, o))
  {
    var t := Iteration(s, i, o);
    forall id: SteerId
      ensures InFlight(t, id) <==> InFlight(s, id) && !(o.ack.Some? && o.ack.value.0 == id)
    {
      assert ReadLoopRuns.Takes(s.turn.l, i, id) ==> s.mailbox == Some(id) && t.mailbox.None?;
    }
    if o.ack.Some? {
      AckWasInFlight(s, i, o);
    }
  }

  lemma IterationOnePlace(s: State, i: Input, o: Outcome)
    requires Custody(s) && OnePlace(s) && Enabled(s, Read(i)) && Accounts(s.turn.l, i, o)
    ensures OnePlace(Iteration(s, i, o))
  {
    var t := Iteration(s, i, o);
    if o.ack.Some? {
      AckWasInFlight(s, i, o);
      assert t.oneshots.Keys == s.oneshots.Keys;
    }
    assert forall id :: HasEvent(t, id) == HasEvent(s, id);
  }

  lemma IterationTruthful(s: State, i: Input, o: Outcome)
    requires Custody(s) && OnePlace(s) && Truthful(s) && Enabled(s, Read(i)) && Accounts(s.turn.l, i, o)
    ensures Truthful(Iteration(s, i, o))
  {
    if o.ack.Some? {
      AckWasInFlight(s, i, o);
      var id := o.ack.value.0;
      assert id !in s.delivered;
      assert !HasEvent(s, id) && id !in s.released;
    }
  }

  lemma IterationKeeps(s: State, i: Input, o: Outcome)
    requires Invariant(s) && Enabled(s, Read(i)) && Accounts(s.turn.l, i, o)
    ensures Invariant(Iteration(s, i, o))
  {
    IterationCustody(s, i, o);
    IterationOnePlace(s, i, o);
    IterationTruthful(s, i, o);
  }

  lemma ClosedKeeps(s: State)
    requires Invariant(s)
    ensures Invariant(Closed(s))
  {
    var t := Closed(s);
    assert forall id :: HasEvent(t, id) == HasEvent(s, id);
    assert forall id :: !InFlight(t, id);
    assert t.oneshots.Keys == s.oneshots.Keys;
  }

  // ---- The other steps ----------------------------------------------------

  lemma MarkedWithheld(q: ChannelQueue, id: EventId)
    ensures Marked(q, id).withheld ==
      if Has(q.queued, id) then q.withheld + [q.queued[Position(q.queued, id)]] else q.withheld
  {
  }

  lemma AcceptedWithheld(s: State, id: SteerId)
    requires OnePlace(s) && Withheld(s) && id !in s.accepted
    ensures Withheld(Accepted(s, id))
  {
    var t := Accepted(s, id);
    MarkedWithheld(s.queue, id);
    assert id !in s.dropped && id !in s.released && !Has(s.queue.withheld, id);
    if Has(s.queue.queued, id) {
      var e := s.queue.queued[Position(s.queue.queued, id)];
      HasSnoc(s.queue.withheld, e);
    }
  }

  lemma HasSnoc(events: seq<QueuedEvent>, e: QueuedEvent)
    ensures forall id :: Has(events + [e], id) <==> Has(events, id) || id == e.id
  {
    forall id ensures Has(events + [e], id) <==> Has(events, id) || id == e.id {
      assert (events + [e])[|events|] == e;
      if Has(events, id) {
        var k :| 0 <= k < |events| && events[k].id == id;
        assert (events + [e])[k].id == id;
      }
    }
  }

  lemma AcceptedKeeps(s: State, id: SteerId)
    requires Invariant(s) && id !in s.accepted && !s.turn.NoReceiver? && s.mailbox.None?
    ensures Invariant(Accepted(s, id))
  {
    var t := Accepted(s, id);
    AcceptedWithheld(s, id);
    assert id !in s.oneshots && !HasEvent(s, id) && id !in s.delivered;
    assert forall other :: HasEvent(t, other) == HasEvent(s, other);
    assert forall other :: InFlight(t, other) <==> InFlight(s, other) || other == id;
  }

  lemma WatchedEvents(s: State, id: SteerId)
    requires id in s.oneshots
    ensures forall other :: HasEvent(Watched(s, id), other) <==> HasEvent(s, other) || other == id
  {
    var t := Watched(s, id);
    forall other ensures HasEvent(t, other) <==> HasEvent(s, other) || other == id {
      assert t.events[|s.events|].0 == id;
      if HasEvent(s, other) {
        var k :| 0 <= k < |s.events| && s.events[k].0 == other;
        assert t.events[k].0 == other;
      }
    }
  }

  lemma WatchedKeeps(s: State, id: SteerId)
    requires Invariant(s) && Enabled(s, Watch(id))
    ensures Invariant(Watched(s, id))
  {
    WatchedEvents(s, id);
    WatchedCustody(s, id);
    WatchedOnePlace(s, id);
    WatchedTruthful(s, id);
  }

  lemma WatchedCustody(s: State, id: SteerId)
    requires Custody(s) && Enabled(s, Watch(id))
    ensures Custody(Watched(s, id))
  {
    assert !InFlight(s, id);
    assert forall other :: InFlight(Watched(s, id), other) == InFlight(s, other);
  }

  lemma WatchedOnePlace(s: State, id: SteerId)
    requires OnePlace(s) && id in s.oneshots
    ensures OnePlace(Watched(s, id))
  {
    var t := Watched(s, id);
    WatchedEvents(s, id);
    assert forall k | 0 <= k < |s.events| :: t.events[k] == s.events[k] && HasEvent(s, s.events[k].0);
  }

  lemma WatchedTruthful(s: State, id: SteerId)
    requires Truthful(s) && Enabled(s, Watch(id))
    ensures Truthful(Watched(s, id))
  {
    var t := Watched(s, id);
    assert forall k | 0 <= k < |s.events| :: t.events[k] == s.events[k];
  }

  lemma HandledEvents(s: State)
    requires OnePlace(s) && s.events != []
    ensures forall other :: HasEvent(Handled(s), other) <==> HasEvent(s, other) && other != s.events[0].0
  {
    var t := Handled(s);
    forall other ensures HasEvent(t, other) <==> HasEvent(s, other) && other != s.events[0].0 {
      if HasEvent(s, other) && other != s.events[0].0 {
        var k :| 0 <= k < |s.events| && s.events[k].0 == other;
        assert t.events[k - 1].0 == other;
      }
      if HasEvent(t, other) {
        var k :| 0 <= k < |t.events| && t.events[k].0 == other;
        assert s.events[k + 1].0 == other;
      }
    }
  }

  lemma HandledOnePlace(s: State)
    requires OnePlace(s) && s.events != []
    ensures OnePlace(Handled(s))
  {
    var t := Handled(s);
    HandledEvents(s);
    assert HasEvent(s, s.events[0].0);
    assert forall k | 0 <= k < |t.events| :: t.events[k] == s.events[k + 1];
  }

  lemma HandledTruthful(s: State)
    requires OnePlace(s) && Truthful(s) && s.events != []
    ensures Truthful(Handled(s))
  {
    var t := Handled(s);
    assert forall k | 0 <= k < |t.events| :: t.events[k] == s.events[k + 1];
  }

  /** Removing or releasing a withheld event takes exactly it off the side table. */
  lemma AppliedWithheld(q: ChannelQueue, id: EventId, ack: Option<Ack>)
    requires forall i, j | 0 <= i < j < |q.withheld| :: q.withheld[i].id != q.withheld[j].id
    ensures
      var w := Applied(q, id, ack).withheld;
      && (forall i, j | 0 <= i < j < |w| :: w[i].id != w[j].id)
      && forall other :: Has(w, other) <==> Has(q.withheld, other) && other != id
  {
    if Decide(ack).drop {
      RetainedDistinct(q.withheld, id);
    } else {
      var at := Position(q.withheld, id);
      if at < |q.withheld| {
        WithoutDistinct(q.withheld, at);
      }
    }
  }

  lemma {:induction false} RetainedDistinct(events: seq<QueuedEvent>, id: EventId)
    requires forall i, j | 0 <= i < j < |events| :: events[i].id != events[j].id
    ensures forall i, j | 0 <= i < j < |Retained(events, id)| :: Retained(events, id)[i].id != Retained(events, id)[j].id
    ensures forall other :: Has(Retained(events, id), other) <==> Has(events, other) && other != id
  {
    if events != [] {
      var init, last := events[..|events| - 1], events[|events| - 1];
      RetainedDistinct(init, id);
      assert events == init + [last];
      HasSnoc(init, last);
      assert !Has(init, last.id);
      HasSnoc(Retained(init, id), last);
      if last.id != id {
        SnocDistinct(Retained(init, id), last);
      }
    }
  }

  lemma SnocDistinct(events: seq<QueuedEvent>, e: QueuedEvent)
    requires forall i, j | 0 <= i < j < |events| :: events[i].id != events[j].id
    requires !Has(events, e.id)
    ensures forall i, j | 0 <= i < j < |events + [e]| :: (events + [e])[i].id != (events + [e])[j].id
  {
  }

  lemma WithoutDistinct(events: seq<QueuedEvent>, at: nat)
    requires at < |events| && forall i, j | 0 <= i < j < |events| :: events[i].id != events[j].id
    ensures
      var w := Without(events, at);
      && (forall i, j | 0 <= i < j < |w| :: w[i].id != w[j].id)
      && forall other :: Has(w, other) <==> Has(events, other) && other != events[at].id
  {
    var w := Without(events, at);
    assert forall i | 0 <= i < |w| :: w[i] == if i < at then events[i] else events[i + 1];
    forall other ensures Has(w, other) <==> Has(events, other) && other != events[at].id {
      if Has(events, other) && other != events[at].id {
        var k :| 0 <= k < |events| && events[k].id == other;
        assert w[if k < at then k else k - 1].id == other;
      }
    }
  }

  lemma HandledWithheld(s: State)
    requires OnePlace(s) && Withheld(s) && s.events != []
    ensures Withheld(Handled(s))
  {
    AppliedWithheld(s.queue, s.events[0].0, s.events[0].1);
  }

  lemma HandledKeeps(s: State)
    requires Invariant(s) && s.events != []
    ensures Invariant(Handled(s))
  {
    HandledOnePlace(s);
    HandledTruthful(s);
    HandledWithheld(s);
    assert forall id :: InFlight(Handled(s), id) == InFlight(s, id);
  }

  /** Steps that touch neither steers nor the side table. */
  lemma QuietKeeps(s: State, step: Step)
    requires Invariant(s) && Enabled(s, step)
    requires step.Push? || step.Flush? || step.Install? || step.BeginRead?
    ensures Invariant(Next(s, step))
  {
    var t := Next(s, step);
    assert t.queue.withheld == s.queue.withheld;
    assert forall id :: HasEvent(t, id) == HasEvent(s, id);
    assert forall id :: InFlight(t, id) == InFlight(s, id);
  }

  lemma SweptKeeps(s: State, q: ChannelQueue)
    requires Invariant(s) && q.withheld == []
    ensures Invariant(Swept(s, q))
  {
    var t := Swept(s, q);
    forall id ensures id in Ids(s.queue.withheld) <==> Has(s.queue.withheld, id) {
      if Has(s.queue.withheld, id) {
        var k :| 0 <= k < |s.queue.withheld| && s.queue.withheld[k].id == id;
        assert s.queue.withheld[k] in s.queue.withheld;
      }
    }
    assert forall id :: HasEvent(t, id) == HasEvent(s, id);
    assert forall id :: InFlight(t, id) == InFlight(s, id);
  }

  lemma ReadKeeps(s: State, i: Input)
    requires Invariant(s) && Enabled(s, Read(i))
    ensures Invariant(Next(s, Read(i)))
  {
    var o := Iterated(s.turn.p, s.turn.l, i);
    LoopAccounts(s.turn.p, s.turn.l, i);
    IterationKeeps(s, i, o);
    if o.finish.Some? {
      ClosedKeeps(Iteration(s, i, o));
    }
  }

  lemma StepKeeps(s: State, step: Step)
    requires Invariant(s) && Enabled(s, step)
    ensures Invariant(Next(s, step))
  {
    match step {
      case Push(_) => QuietKeeps(s, step);
      case Flush => QuietKeeps(s, step);
      case Install => QuietKeeps(s, step);
      case BeginRead(_, _) => QuietKeeps(s, step);
      case TrySteer(id) =>
        if !s.turn.NoReceiver? && s.mailbox.None? {
          AcceptedKeeps(s, id);
        }
      case Read(i) => ReadKeeps(s, i);
      case Abandon => ClosedKeeps(s);
      case Watch(id) => WatchedKeeps(s, id);
      case HandleAck => HandledKeeps(s);
      case Expire => SweptKeeps(s, Recovered(s.queue));
      case Drain => SweptKeeps(s, ChannelQueue([], []));
    }
  }

  // ---- Every run ----------------------------------------------------------

  ghost predicate IsRun(run: seq<State>, steps: seq<Step>) {
    && |run| == |steps| + 1 && run[0] == START
    && forall k {:trigger Enabled(run[k], steps[k])} | 0 <= k < |steps| ::
         Enabled(run[k], steps[k]) && run[k + 1] == Next(run[k], steps[k])
  }

  lemma StartHolds()
    ensures Invariant(START)
  {
  }

  lemma {:induction false} RunKeeps(run: seq<State>, steps: seq<Step>, k: nat)
    requires IsRun(run, steps) && k <= |steps|
    ensures Invariant(run[k])
  {
    if k == 0 {
      StartHolds();
    } else {
      var j := k - 1;
      assert Enabled(run[j], steps[j]);
      RunKeeps(run, steps, j);
      StepKeeps(run[j], steps[j]);
      assert run[j + 1] == Next(run[j], steps[j]);
    }
  }

  /** How many of the places a steer can be in hold it. */
  function Places(s: State, id: SteerId): nat {
    (if id in s.oneshots then 1 else 0) + (if HasEvent(s, id) then 1 else 0)
    + (if id in s.dropped then 1 else 0) + (if id in s.released then 1 else 0)
  }

  /** In every run an accepted steer is in exactly one place: waited for, on its
      way as its one event, dropped or released; never two of them, never none. */
  lemma ExactlyOneFate(run: seq<State>, steps: seq<Step>, k: nat, id: SteerId)
    requires IsRun(run, steps) && k <= |steps|
    ensures Places(run[k], id) == if id in run[k].accepted then 1 else 0
  {
    RunKeeps(run, steps, k);
    if HasEvent(run[k], id) {
      var e :| 0 <= e < |run[k].events| && run[k].events[e].0 == id;
    }
  }

  /** A withheld event stays in the side table until its steer is dropped or
      released or the queue clears the table, and is not there afterwards. */
  lemma WithheldUntilSettled(run: seq<State>, steps: seq<Step>, k: nat, id: SteerId)
    requires IsRun(run, steps) && k <= |steps| && id in run[k].withholding
    ensures Has(run[k].queue.withheld, id) <==> !(id in run[k].dropped || id in run[k].released || id in run[k].swept)
  {
    RunKeeps(run, steps, k);
  }

  /** A message is dropped only when a response confirmed it, and never released then. */
  lemma DroppedOnlyIfDelivered(run: seq<State>, steps: seq<Step>, k: nat)
    requires IsRun(run, steps) && k <= |steps|
    ensures run[k].dropped <= run[k].delivered && run[k].released !! run[k].delivered
  {
    RunKeeps(run, steps, k);
  }

  /** A step confirms a steer exactly when it reads a delivering success response with that steer's own id. */
  lemma DeliveredIff(s: State, step: Step, id: SteerId)
    requires Invariant(s) && Enabled(s, step)
    ensures id in Next(s, step).delivered
            <==> id in s.delivered
                 || (step.Read? && ReadLoopRuns.Holds(s.turn.l, id)
                     && step.i.event.Line? && step.i.event.line.Message?
                     && ReadLoopRuns.Reads(s.turn.l, step.i, step.i.event.line.msg)
                     && ReadLoopRuns.Delivers(s.turn.l, step.i.event.line.msg))
  {
    if step.Read? {
      var o := Iterated(s.turn.p, s.turn.l, step.i);
      ReadLoopRuns.SuccessIff(s.turn.p, s.turn.l, step.i, id);
      assert Next(s, step).delivered == Iteration(s, step.i, o).delivered;
    }
  }

  /** A released event that was withheld is back at the head of its queue. */
  lemma ReleasedIsQueued(s: State)
    requires Invariant(s) && s.events != [] && Decide(s.events[0].1).release
    requires s.events[0].0 in s.withholding && s.events[0].0 !in s.swept
    ensures Handled(s).queue.queued != [] && Handled(s).queue.queued[0].id == s.events[0].0
  {
    var id := s.events[0].0;
    assert Has(s.queue.withheld, id);
    EventQueues.ReleasedIsFirst(s.queue, id);
  }

  /** On expiry the withheld events are recovered, in order, at the head of the queue. */
  lemma ExpiryRecovers(s: State, k: nat)
    requires k < |s.queue.withheld| && k < MAX_PENDING_PER_CHANNEL
    ensures k < |Next(s, Expire).queue.queued| && Next(s, Expire).queue.queued[k] == s.queue.withheld[k]
    ensures Next(s, Expire).queue.withheld == []
  {
  }

  /** And nothing else happens: behind them stand the events already queued, in
      order; only the newest beyond the cap are lost, and none under it. */
  lemma ExpiryKeepsAll(s: State)
    requires s.queue.withheld != []
    ensures
      var before, after := s.queue.withheld + s.queue.queued, Next(s, Expire).queue.queued;
      && |after| == (if |before| <= 500 then |before| else 500)
      && (forall k | 0 <= k < |after| :: after[k] == before[k])
      && (|before| <= 500 ==> after == before)
  {
  }

  lemma ExpiryOfNothing(s: State)
    requires s.queue.withheld == []
    ensures Next(s, Expire).queue == s.queue
  {
  }

  /** A dropped event is nowhere in the queue, even if it was recovered before. */
  lemma DroppedIsGone(s: State)
    requires s.events != [] && Decide(s.events[0].1).drop
    ensures !Has(Handled(s).queue.queued, s.events[0].0) && !Has(Handled(s).queue.withheld, s.events[0].0)
  {
    var id := s.events[0].0;
    var queued, withheld := Retained(s.queue.queued, id), Retained(s.queue.withheld, id);
    assert forall i | 0 <= i < |queued| :: queued[i] in queued;
    assert forall i | 0 <= i < |withheld| :: withheld[i] in withheld;
  }

  // ---- No event is lost on the way ----------------------------------------

  /** The channel's queue or its side table holds the event. */
  predicate Stored(s: State, id: SteerId) {
    Has(s.queue.queued, id) || Has(s.queue.withheld, id)
  }

  /** What may take an event away: flushing the queue, leaving the channel, a
      confirmed delivery of its own steer, and a queue at the cap. */
  predicate MayLose(s: State, step: Step, id: SteerId)
    requires Enabled(s, step)
  {
    || step.Flush? || step.Drain?
    || (step.HandleAck? && s.events[0] == (id, Some(Success)))
    || |s.queue.queued| + |s.queue.withheld| >= 500
  }

  lemma HasAt(events: seq<QueuedEvent>, at: nat, id: SteerId)
    requires at < |events|
    ensures Has(events, id) <==> events[at].id == id || Has(Without(events, at), id)
  {
    var rest := Without(events, at);
    if Has(events, id) {
      var i :| 0 <= i < |events| && events[i].id == id;
      assert i < at ==> rest[i] == events[i];
      assert i > at ==> rest[i - 1] == events[i];
    }
    if Has(rest, id) {
      var i :| 0 <= i < |rest| && rest[i].id == id;
      assert rest[i] == if i < at then events[i] else events[i + 1];
    }
  }

  lemma HasPlus(a: seq<QueuedEvent>, b: seq<QueuedEvent>, id: SteerId)
    ensures Has(a + b, id) <==> Has(a, id) || Has(b, id)
  {
    if Has(a, id) {
      var i :| 0 <= i < |a| && a[i].id == id;
      assert (a + b)[i] == a[i];
    }
    if Has(b, id) {
      var i :| 0 <= i < |b| && b[i].id == id;
      assert (a + b)[|a| + i] == b[i];
    }
  }

  lemma MarkedStores(q: ChannelQueue, steer: SteerId, id: SteerId)
    ensures
      var r := Marked(q, steer);
      Has(r.queued, id) || Has(r.withheld, id) <==> Has(q.queued, id) || Has(q.withheld, id)
  {
    var at := Position(q.queued, steer);
    if at < |q.queued| {
      HasAt(q.queued, at, id);
      HasPlus(q.withheld, [q.queued[at]], id);
      assert Has([q.queued[at]], id) <==> q.queued[at].id == id by {
        assert [q.queued[at]][0] == q.queued[at];
      }
    }
  }

  lemma ReleasedStores(q: ChannelQueue, steer: SteerId, id: SteerId)
    requires |q.queued| + |q.withheld| < 500
    ensures
      var r := Released(q, steer);
      Has(r.queued, id) || Has(r.withheld, id) <==> Has(q.queued, id) || Has(q.withheld, id)
  {
    var at := Position(q.withheld, steer);
    if at < |q.withheld| {
      HasAt(q.withheld, at, id);
      HasPlus([q.withheld[at]], q.queued, id);
      assert Has([q.withheld[at]], id) <==> q.withheld[at].id == id by {
        assert [q.withheld[at]][0] == q.withheld[at];
      }
    }
  }

  lemma RetainedHas(events: seq<QueuedEvent>, steer: SteerId, id: SteerId)
    requires id != steer
    ensures Has(Retained(events, steer), id) <==> Has(events, id)
  {
    var r := Retained(events, steer);
    if Has(events, id) {
      var i :| 0 <= i < |events| && events[i].id == id;
      assert events[i] in r;
    }
    if Has(r, id) {
      var i :| 0 <= i < |r| && r[i].id == id;
      assert r[i] in events;
    }
  }

  lemma AppliedStores(q: ChannelQueue, steer: SteerId, ack: Option<Ack>, id: SteerId)
    requires |q.queued| + |q.withheld| < 500 && (id != steer || ack != Some(Success))
    ensures
      var r := Applied(q, steer, ack);
      Has(r.queued, id) || Has(r.withheld, id) <==> Has(q.queued, id) || Has(q.withheld, id)
  {
    if Decide(ack).drop {
      RetainedHas(q.queued, steer, id);
      RetainedHas(q.withheld, steer, id);
    } else {
      ReleasedStores(q, steer, id);
    }
  }

  /** Short of those, a step neither loses an event nor makes one up: what is
      stored afterwards was stored before or has just been pushed. */
  lemma StoredIff(s: State, step: Step, id: SteerId)
    requires Enabled(s, step) && !MayLose(s, step, id)
    ensures Stored(Next(s, step), id) <==> Stored(s, id) || (step.Push? && step.e.id == id)
  {
    match step {
      case Push(e) =>
        HasPlus(s.queue.queued, [e], id);
        assert [e][0] == e;
      case TrySteer(steer) => MarkedStores(s.queue, steer, id);
      case HandleAck => AppliedStores(s.queue, s.events[0].0, s.events[0].1, id);
      case Expire => HasPlus(s.queue.withheld, s.queue.queued, id);
      case _ =>
    }
  }

  lemma StoredAt(run: seq<State>, steps: seq<Step>, k: nat, id: SteerId)
    requires IsRun(run, steps) && k < |steps| && Enabled(run[k], steps[k]) && !MayLose(run[k], steps[k], id)
    requires Stored(run[k], id)
    ensures Stored(run[k + 1], id)
  {
    StoredIff(run[k], steps[k], id);
    assert run[k + 1] == Next(run[k], steps[k]);
  }

  ghost predicate NeverLoses(run: seq<State>, steps: seq<Step>, m: nat, n: nat, id: SteerId)
    requires n <= |steps| < |run|
  {
    forall k {:trigger Enabled(run[k], steps[k])} | m <= k < n && Enabled(run[k], steps[k]) :: !MayLose(run[k], steps[k], id)
  }

  /** So in every run a pushed event is in the queue or withheld, through any
      number of steers, turns and expiries, until one of those takes it away. */
  lemma {:induction false} PushedEventStays(run: seq<State>, steps: seq<Step>, m: nat, n: nat, e: QueuedEvent)
    requires IsRun(run, steps) && m < n <= |steps| && steps[m] == Push(e)
    requires NeverLoses(run, steps, m, n, e.id)
    ensures Stored(run[n], e.id)
  {
    var k := n - 1;
    assert Enabled(run[k], steps[k]);
    if m < k {
      PushedEventStays(run, steps, m, k, e);
      StoredAt(run, steps, k, e.id);
    } else {
      StoredIff(run[k], steps[k], e.id);
    }
  }

  lemma CapKept(s: State, step: Step)
    requires Enabled(s, step) && |s.queue.queued| <= 500
    ensures |Next(s, step).queue.queued| <= 500
  {
    if step.HandleAck? {
      RetainedNoLonger(s.queue.queued, s.events[0].0);
    }
  }

  lemma {:induction false} RetainedNoLonger(events: seq<QueuedEvent>, id: SteerId)
    ensures |Retained(events, id)| <= |events|
  {
    if events != [] {
      RetainedNoLonger(events[..|events| - 1], id);
    }
  }

  /** In every run the channel queues at most five hundred events. */
  lemma {:induction false} CapHolds(run: seq<State>, steps: seq<Step>, k: nat)
    requires IsRun(run, steps) && k <= |steps|
    ensures |run[k].queue.queued| <= 500
  {
    if k > 0 {
      var j := k - 1;
      assert Enabled(run[j], steps[j]);
      CapHolds(run, steps, j);
      CapKept(run[j], steps[j]);
      assert run[j + 1] == Next(run[j], steps[j]);
    }
  }

  // ---- Nothing is left hanging --------------------------------------------

  /** Work left for the watchers and the main loop. */
  function Outstanding(s: State): nat {
    2 * |s.oneshots| + |s.events|
  }

  predicate Settles(step: Step) {
    step.Watch? || step.HandleAck?
  }

  /** With no receiver left, every watcher and acknowledgement step lowers what
      is outstanding by one; no other step but the start of a turn changes it. */
  lemma SettlingStep(s: State, step: Step)
    requires Invariant(s) && s.turn.NoReceiver? && Enabled(s, step) && !step.Install?
    ensures
      var t := Next(s, step);
      && Outstanding(t) == Outstanding(s) - (if Settles(step) then 1 else 0)
      && t.turn.NoReceiver? && t.accepted == s.accepted && t.delivered == s.delivered
  {
    if step.Watch? {
      assert s.oneshots == (s.oneshots - {step.id})[step.id := s.oneshots[step.id]];
    }
  }

  /** And one of them is enabled while anything is outstanding. */
  lemma SomethingSettles(s: State) returns (step: Step)
    requires Invariant(s) && s.turn.NoReceiver? && Outstanding(s) > 0
    ensures Enabled(s, step) && Settles(step)
  {
    if s.events != [] {
      step := HandleAck;
    } else {
      assert s.oneshots.Keys != {};
      var id :| id in s.oneshots;
      assert !InFlight(s, id);
      step := Watch(id);
    }
  }

  /** Any run, of any enabled steps, that begins with the turn over and starts no new one. */
  ghost predicate IsAftermath(run: seq<State>, steps: seq<Step>) {
    && |run| == |steps| + 1 && Invariant(run[0]) && run[0].turn.NoReceiver?
    && forall k {:trigger Enabled(run[k], steps[k])} | 0 <= k < |steps| ::
         !steps[k].Install? && Enabled(run[k], steps[k]) && run[k + 1] == Next(run[k], steps[k])
  }

  /** How many of the first `k` steps are a watcher's or handle an acknowledgement. */
  function SettlingSteps(steps: seq<Step>, k: nat): nat
    requires k <= |steps|
  {
    if k == 0 then 0 else SettlingSteps(steps, k - 1) + (if Settles(steps[k - 1]) then 1 else 0)
  }

  lemma {:induction false} AftermathCounts(run: seq<State>, steps: seq<Step>, k: nat)
    requires IsAftermath(run, steps) && k <= |steps|
    ensures Invariant(run[k]) && run[k].turn.NoReceiver?
    ensures run[k].accepted == run[0].accepted && run[k].delivered == run[0].delivered
    ensures Outstanding(run[k]) + SettlingSteps(steps, k) == Outstanding(run[0])
  {
    if k > 0 {
      var j := k - 1;
      assert Enabled(run[j], steps[j]);
      AftermathCounts(run, steps, j);
      SettlingStep(run[j], steps[j]);
      StepKeeps(run[j], steps[j]);
      assert run[j + 1] == Next(run[j], steps[j]);
    }
  }

  /** Every accepted steer is dropped or released, and nothing is withheld. */
  predicate AllSettled(s: State) {
    s.accepted == s.dropped + s.released && s.queue.withheld == []
  }

  lemma SettledState(s: State)
    requires Invariant(s) && Outstanding(s) == 0
    ensures AllSettled(s)
  {
    assert s.oneshots.Keys == {};
    assert forall id :: !HasEvent(s, id);
    if s.queue.withheld != [] {
      var id := s.queue.withheld[0].id;
      assert Has(s.queue.withheld, id);
    }
  }

  /** Once the turn is over every schedule settles everything: however watcher and
      acknowledgement steps are ordered and mixed with all others, there are at
      most as many of them as were outstanding, and once there have been that
      many, each accepted steer is dropped or released and nothing is withheld. */
  lemma EverythingSettles(run: seq<State>, steps: seq<Step>, k: nat)
    requires IsAftermath(run, steps) && k <= |steps|
    ensures SettlingSteps(steps, k) <= Outstanding(run[0])
    ensures SettlingSteps(steps, k) == Outstanding(run[0]) ==> AllSettled(run[k])
  {
    AftermathCounts(run, steps, k);
    if Outstanding(run[k]) == 0 {
      SettledState(run[k]);
    }
  }

  /** How many acknowledgements are handled in steps `m` to `n`. */
  function Handlings(steps: seq<Step>, m: nat, n: nat): nat
    requires m <= n <= |steps|
  {
    if m == n then 0 else Handlings(steps, m, n - 1) + (if steps[n - 1].HandleAck? then 1 else 0)
  }

  /** What has become of event number `e` after `h` more were handled: it moved up, or its steer is settled. */
  predicate MovedUp(event: (SteerId, Option<Ack>), e: nat, h: nat, s: State) {
    if h <= e then e - h < |s.events| && s.events[e - h] == event else event.0 in s.dropped + s.released
  }

  lemma MovedUpStep(event: (SteerId, Option<Ack>), e: nat, h: nat, s: State, step: Step)
    requires Enabled(s, step) && MovedUp(event, e, h, s)
    ensures MovedUp(event, e, h + if step.HandleAck? then 1 else 0, Next(s, step))
  {
  }

  lemma MovedUpAt(run: seq<State>, steps: seq<Step>, event: (SteerId, Option<Ack>), e: nat, m: nat, n: nat)
    requires IsRun(run, steps) && m <= n < |steps| && MovedUp(event, e, Handlings(steps, m, n), run[n])
    ensures MovedUp(event, e, Handlings(steps, m, n + 1), run[n + 1])
  {
    assert Enabled(run[n], steps[n]);
    MovedUpStep(event, e, Handlings(steps, m, n), run[n], steps[n]);
  }

  /** Acknowledgements are handled in order in every run, later turns included:
      the steer whose event is number `e` is settled once `e + 1` more have been handled. */
  lemma {:induction false} EventIsHandled(run: seq<State>, steps: seq<Step>, m: nat, n: nat, e: nat)
    requires IsRun(run, steps) && m <= n <= |steps| && e < |run[m].events|
    ensures MovedUp(run[m].events[e], e, Handlings(steps, m, n), run[n])
  {
    if m < n {
      EventIsHandled(run, steps, m, n - 1, e);
      MovedUpAt(run, steps, run[m].events[e], e, m, n - 1);
    }
  }

  /** A fatal message ends the turn with the steer in flight unresolved, its channel dropped. */
  lemma LeakDropsChannel(s: State, i: Input, id: SteerId)
    requires Invariant(s) && Enabled(s, Read(i)) && PendingIs(s, id) && ReadLoopRuns.ReadsFatal(s.turn.l, i)
    ensures
      var t := Next(s, Read(i));
      t.turn.NoReceiver? && id in t.oneshots && t.oneshots[id] == Dropped && t.accepted == s.accepted
  {
    var o := Iterated(s.turn.p, s.turn.l, i);
    ReadLoopRuns.LeakIff(s.turn.p, s.turn.l, i);
    LoopAccounts(s.turn.p, s.turn.l, i);
    IterationKeeps(s, i, o);
    assert InFlight(Iteration(s, i, o), id);
  }

  // ---- Every steer, in every run ------------------------------------------

  /** Its sender is done with the steer's channel, and nobody has taken it off yet. */
  predicate Resolved(s: State, id: SteerId) {
    id in s.oneshots && !s.oneshots[id].Waiting?
  }

  lemma ResolvedStep(s: State, step: Step, id: SteerId)
    requires Invariant(s) && Enabled(s, step) && Resolved(s, id) && step != Watch(id)
    ensures Resolved(Next(s, step), id) && Next(s, step).oneshots[id] == s.oneshots[id]
  {
    if step.Read? {
      var o := Iterated(s.turn.p, s.turn.l, step.i);
      LoopAccounts(s.turn.p, s.turn.l, step.i);
      IterationKeeps(s, step.i, o);
      if o.ack.Some? {
        AckWasInFlight(s, step.i, o);
      }
    }
  }

  /** A channel whose sender is done keeps what it holds until its watcher takes it, later turns or not. */
  lemma {:induction false} ResolvedStays(run: seq<State>, steps: seq<Step>, m: nat, n: nat, id: SteerId)
    requires IsRun(run, steps) && m <= n <= |steps| && Resolved(run[m], id)
    requires forall k | m <= k < n :: steps[k] != Watch(id)
    ensures Resolved(run[n], id) && run[n].oneshots[id] == run[m].oneshots[id]
  {
    if m < n {
      var j := n - 1;
      ResolvedStays(run, steps, m, j, id);
      RunKeeps(run, steps, j);
      assert Enabled(run[j], steps[j]);
      ResolvedStep(run[j], steps[j], id);
    }
  }

  /** A steer is settled, and its event not withheld. */
  predicate IsSettled(s: State, id: SteerId) {
    id in s.dropped + s.released && !Has(s.queue.withheld, id)
  }

  /** A watched steer is settled once its event and those before it have been handled. */
  lemma WatchedIsSettled(run: seq<State>, steps: seq<Step>, w: nat, n: nat, id: SteerId)
    requires IsRun(run, steps) && w < n <= |steps| && steps[w] == Watch(id)
    requires Handlings(steps, w + 1, n) > |run[w].events|
    ensures IsSettled(run[n], id)
  {
    var e := |run[w].events|;
    assert Enabled(run[w], steps[w]);
    assert run[w + 1].events[e].0 == id;
    EventIsHandled(run, steps, w + 1, n, e);
    RunKeeps(run, steps, n);
  }

  /** From step `m` to step `n` the watchers and the main loop come to the steer:
      its channel, if still there, is watched, and then as many acknowledgements
      are handled as wait in line up to its own. */
  ghost predicate GetsItsTurn(run: seq<State>, steps: seq<Step>, m: nat, n: nat, id: SteerId)
    requires m <= n <= |steps| < |run|
  {
    if id in run[m].oneshots then
      exists w | m <= w < n :: steps[w] == Watch(id) && Handlings(steps, w + 1, n) > |run[w].events|
    else Handlings(steps, m, n) >= |run[m].events|
  }

  lemma FatesGrow(s: State, step: Step)
    requires Enabled(s, step)
    ensures s.dropped <= Next(s, step).dropped && s.released <= Next(s, step).released
  {
  }

  lemma {:induction false} FatesStay(run: seq<State>, steps: seq<Step>, m: nat, n: nat)
    requires IsRun(run, steps) && m <= n <= |steps|
    ensures run[m].dropped <= run[n].dropped && run[m].released <= run[n].released
  {
    if m < n {
      FatesStay(run, steps, m, n - 1);
      assert Enabled(run[n - 1], steps[n - 1]);
      FatesGrow(run[n - 1], steps[n - 1]);
    }
  }

  /** In every run, new turns included, an accepted steer that gets its turn is
      dropped or released, and its event is not withheld any more. */
  lemma EverySteerSettles(run: seq<State>, steps: seq<Step>, m: nat, n: nat, id: SteerId)
    requires IsRun(run, steps) && m <= n <= |steps| && id in run[m].accepted
    requires GetsItsTurn(run, steps, m, n, id)
    ensures IsSettled(run[n], id)
  {
    RunKeeps(run, steps, m);
    RunKeeps(run, steps, n);
    if id in run[m].oneshots {
      var w :| m <= w < n && steps[w] == Watch(id) && Handlings(steps, w + 1, n) > |run[w].events|;
      WatchedIsSettled(run, steps, w, n, id);
    } else if HasEvent(run[m], id) {
      var e :| 0 <= e < |run[m].events| && run[m].events[e].0 == id;
      EventIsHandled(run, steps, m, n, e);
    } else {
      FatesStay(run, steps, m, n);
    }
  }

  /** Nothing keeps a steer out of flight from its turn: until it is settled its
      watcher can take its channel, or an acknowledgement can be handled. */
  lemma TurnIsEnabled(s: State, id: SteerId)
    requires Invariant(s) && id in s.accepted && !InFlight(s, id) && !IsSettled(s, id)
    ensures (id in s.oneshots && Enabled(s, Watch(id))) || (HasEvent(s, id) && Enabled(s, HandleAck))
  {
  }

  /** What the main loop hears when the watcher takes the channel. */
  predicate Says(o: Oneshot, ack: Option<Ack>) {
    match o
    case Waiting => false
    case Filled(a) => ack == Some(a)
    case Dropped => ack == None
  }

  /** The steer's acknowledgement is in its channel, or in its event, or has been
      acted on as it says; `None` is that of a dropped sender. */
  ghost predicate Carries(s: State, id: SteerId, ack: Option<Ack>) {
    || (id in s.oneshots && Says(s.oneshots[id], ack))
    || (exists e | 0 <= e < |s.events| :: s.events[e] == (id, ack))
    || (if ack == Some(Success) then id in s.dropped else id in s.released)
  }

  lemma CarriesStep(s: State, step: Step, id: SteerId, ack: Option<Ack>)
    requires Invariant(s) && Enabled(s, step) && Carries(s, id, ack)
    ensures Carries(Next(s, step), id, ack)
  {
    var t := Next(s, step);
    if id in s.oneshots && Says(s.oneshots[id], ack) {
      if step == Watch(id) {
        assert t.events[|s.events|] == (id, ack);
      } else {
        ResolvedStep(s, step, id);
      }
    } else if e :| 0 <= e < |s.events| && s.events[e] == (id, ack) {
      CarriedEventStep(s, step, id, ack, e);
    } else {
      FatesGrow(s, step);
    }
  }

  lemma CarriedEventStep(s: State, step: Step, id: SteerId, ack: Option<Ack>, e: nat)
    requires Enabled(s, step) && e < |s.events| && s.events[e] == (id, ack)
    ensures Carries(Next(s, step), id, ack)
  {
    var t := Next(s, step);
    if step.HandleAck? {
      assert e > 0 ==> t.events[e - 1] == s.events[e];
    } else {
      assert t.events[e] == s.events[e];
    }
  }

  lemma {:induction false} CarriesStays(
      run: seq<State>, steps: seq<Step>, m: nat, n: nat, id: SteerId, ack: Option<Ack>)
    requires IsRun(run, steps) && m <= n <= |steps| && Carries(run[m], id, ack)
    ensures Carries(run[n], id, ack)
  {
    if m < n {
      var j := n - 1;
      CarriesStays(run, steps, m, j, id, ack);
      RunKeeps(run, steps, j);
      assert Enabled(run[j], steps[j]);
      CarriesStep(run[j], steps[j], id, ack);
    }
  }

  /** What the read loop acknowledges fills that steer's channel, and no other. */
  lemma AckFillsChannel(s: State, i: Input)
    requires Invariant(s) && Enabled(s, Read(i)) && Iterated(s.turn.p, s.turn.l, i).ack.Some?
    ensures
      var (id, ack) := Iterated(s.turn.p, s.turn.l, i).ack.value;
      Carries(Next(s, Read(i)), id, Some(ack))
  {
    var o := Iterated(s.turn.p, s.turn.l, i);
    var id := o.ack.value.0;
    LoopAccounts(s.turn.p, s.turn.l, i);
    AckWasInFlight(s, i, o);
    IterationKeeps(s, i, o);
    assert Iteration(s, i, o).oneshots[id] == Filled(o.ack.value.1);
    assert !InFlight(Iteration(s, i, o), id);
  }

  /** An acknowledgement in a channel or an event stays on its way unaltered, or
      has been acted on as it says; and it has been once the steer got its turn. */
  lemma CarriedIsActedOn(run: seq<State>, steps: seq<Step>, m: nat, n: nat, id: SteerId, ack: Option<Ack>)
    requires IsRun(run, steps) && m <= n <= |steps| && Carries(run[m], id, ack)
    ensures Carries(run[n], id, ack)
    ensures GetsItsTurn(run, steps, m, n, id) ==>
              if ack == Some(Success) then id in run[n].dropped else id in run[n].released
  {
    RunKeeps(run, steps, m);
    RunKeeps(run, steps, n);
    CarriesStays(run, steps, m, n, id, ack);
    CarriedIsAccepted(run[m], id, ack);
    if GetsItsTurn(run, steps, m, n, id) {
      EverySteerSettles(run, steps, m, n, id);
      SettledCarriesFate(run[n], id, ack);
    }
  }

  lemma AckIsCarried(run: seq<State>, steps: seq<Step>, m: nat, id: SteerId, ack: Ack)
    requires IsRun(run, steps) && m < |steps| && steps[m].Read? && run[m].turn.Reading?
    requires Iterated(run[m].turn.p, run[m].turn.l, steps[m].i).ack == Some((id, ack))
    ensures Carries(run[m + 1], id, Some(ack))
  {
    assert Enabled(run[m], steps[m]);
    RunKeeps(run, steps, m);
    AckFillsChannel(run[m], steps[m].i);
  }

  /** End to end, in every run: an acknowledgement of the read loop is on its way
      unaltered from then on, or has been acted on; and it is acted on once the
      steer gets its turn: dropped for success, released for anything else. */
  lemma AckIsActedOn(run: seq<State>, steps: seq<Step>, m: nat, n: nat, id: SteerId, ack: Ack)
    requires IsRun(run, steps) && m < n <= |steps| && steps[m].Read? && run[m].turn.Reading?
    requires Iterated(run[m].turn.p, run[m].turn.l, steps[m].i).ack == Some((id, ack))
    ensures Carries(run[n], id, Some(ack))
    ensures GetsItsTurn(run, steps, m + 1, n, id) ==> if ack.Success? then id in run[n].dropped else id in run[n].released
  {
    AckIsCarried(run, steps, m, id, ack);
    CarriedIsActedOn(run, steps, m + 1, n, id, Some(ack));
  }

  lemma CarriedIsAccepted(s: State, id: SteerId, ack: Option<Ack>)
    requires Invariant(s) && Carries(s, id, ack)
    ensures id in s.accepted
  {
    if e :| 0 <= e < |s.events| && s.events[e] == (id, ack) {
      assert HasEvent(s, id);
    }
  }

  lemma SettledCarriesFate(s: State, id: SteerId, ack: Option<Ack>)
    requires Invariant(s) && Carries(s, id, ack) && IsSettled(s, id)
    ensures if ack == Some(Success) then id in s.dropped else id in s.released
  {
  }

  /** A steer is accepted exactly when a receiver is there and the mailbox is
      free, and then it is the one in the mailbox and its event is withheld. */
  lemma AcceptedIff(s: State, id: SteerId)
    requires Invariant(s) && Enabled(s, TrySteer(id))
    ensures
      var t := Next(s, TrySteer(id));
      && (id in t.accepted <==> !s.turn.NoReceiver? && s.mailbox.None?)
      && (id in t.accepted ==> t.mailbox == Some(id) && (Has(s.queue.queued, id) <==> Has(t.queue.withheld, id)))
      && (id !in t.accepted ==> t == s)
  {
    if !s.turn.NoReceiver? && s.mailbox.None? {
      AcceptedWithheld(s, id);
    }
  }

  lemma CarriedNoneIsNotDelivered(s: State, id: SteerId)
    requires Invariant(s) && Carries(s, id, None)
    ensures id !in s.delivered && id !in s.dropped
  {
  }

  /** When a turn is abandoned every steer in flight has its channel dropped, and
      so has the one still in the mailbox when the read loop ends. */
  lemma AbandonDrops(s: State, id: SteerId)
    requires Invariant(s) && Enabled(s, Abandon) && InFlight(s, id)
    ensures Next(s, Abandon).turn.NoReceiver? && Carries(Next(s, Abandon), id, None)
  {
  }

  lemma EndDropsMailbox(s: State, i: Input, id: SteerId)
    requires Invariant(s) && Enabled(s, Read(i)) && s.mailbox == Some(id) && !i.event.Steer?
    requires Iterated(s.turn.p, s.turn.l, i).finish.Some?
    ensures Next(s, Read(i)).turn.NoReceiver? && Carries(Next(s, Read(i)), id, None)
  {
    var o := Iterated(s.turn.p, s.turn.l, i);
    LoopAccounts(s.turn.p, s.turn.l, i);
    if o.ack.Some? {
      AckWasInFlight(s, i, o);
      assert ReadLoopRuns.Holds(s.turn.l, o.ack.value.0);
    }
    assert InFlight(Iteration(s, i, o), id);
  }

  lemma LeakIsCarried(run: seq<State>, steps: seq<Step>, m: nat, id: SteerId)
    requires IsRun(run, steps) && m < |steps| && steps[m].Read?
    requires PendingIs(run[m], id) && ReadLoopRuns.ReadsFatal(run[m].turn.l, steps[m].i)
    ensures Carries(run[m + 1], id, None) && id in run[m + 1].accepted
  {
    assert Enabled(run[m], steps[m]);
    RunKeeps(run, steps, m);
    RunKeeps(run, steps, m + 1);
    LeakDropsChannel(run[m], steps[m].i, id);
  }

  /** That is repaired in every run, new turns included. From then on the leaked
      steer's message is never dropped: it waits as a dropped channel or as the
      event of one, or has been released; and it is released once it gets its turn. */
  lemma LeakIsRepaired(run: seq<State>, steps: seq<Step>, m: nat, n: nat, id: SteerId)
    requires IsRun(run, steps) && m < n <= |steps| && steps[m].Read?
    requires PendingIs(run[m], id) && ReadLoopRuns.ReadsFatal(run[m].turn.l, steps[m].i)
    ensures Carries(run[n], id, None) && id !in run[n].delivered && id !in run[n].dropped
    ensures GetsItsTurn(run, steps, m + 1, n, id) ==> id in run[n].released && !Has(run[n].queue.withheld, id)
  {
    LeakIsCarried(run, steps, m, id);
    CarriedIsActedOn(run, steps, m + 1, n, id, None);
    RunKeeps(run, steps, n);
    CarriedNoneIsNotDelivered(run[n], id);
    if GetsItsTurn(run, steps, m + 1, n, id) {
      EverySteerSettles(run, steps, m + 1, n, id);
    }
  }
}
