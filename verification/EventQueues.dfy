/** Withholding a queued event while a steer carries it
    (crates/buzz-acp/src/queue.rs:614-794). */
module EventQueues {
  import Uuids

  type Channel = Uuids.Uuid
  type EventId = string

  datatype QueuedEvent = QueuedEvent(id: EventId, receivedAt: nat)

  const MAX_PENDING_PER_CHANNEL := 500

  // ---- One channel, as values ---------------------------------------------

  datatype ChannelQueue = ChannelQueue(queued: seq<QueuedEvent>, withheld: seq<QueuedEvent>)

  /** Where an event first is, or the length. */
  function Position(events: seq<QueuedEvent>, id: EventId): (p: nat)
    ensures p <= |events|
    ensures p < |events| ==> events[p].id == id
    ensures forall i | 0 <= i < p :: events[i].id != id
  {
    if events == [] || events[0].id == id then 0 else 1 + Position(events[1..], id)
  }

  predicate Has(events: seq<QueuedEvent>, id: EventId) {
    exists i | 0 <= i < |events| :: events[i].id == id
  }

  function Without(events: seq<QueuedEvent>, at: nat): seq<QueuedEvent>
    requires at < |events|
  {
    events[..at] + events[at + 1..]
  }

  /** All events but those with the given id, in order. */
  function Retained(events: seq<QueuedEvent>, id: EventId): (r: seq<QueuedEvent>)
    ensures forall e | e in r :: e in events && e.id != id
    ensures forall e | e in events && e.id != id :: e in r
    ensures !Has(events, id) ==> r == events
  {
    if events == [] then []
    else if events[|events| - 1].id == id then Retained(events[..|events| - 1], id)
    else
      var r := Retained(events[..|events| - 1], id);
      assert !Has(events, id) ==> !Has(events[..|events| - 1], id);
      r + [events[|events| - 1]]
  }

  /** The oldest events, as many as the cap allows. */
  function Capped(events: seq<QueuedEvent>): seq<QueuedEvent> {
    if |events| <= MAX_PENDING_PER_CHANNEL then events else events[..MAX_PENDING_PER_CHANNEL]
  }

  function Marked(q: ChannelQueue, id: EventId): ChannelQueue {
    var at := Position(q.queued, id);
    if at == |q.queued| then q else ChannelQueue(Without(q.queued, at), q.withheld + [q.queued[at]])
  }

  function Released(q: ChannelQueue, id: EventId): ChannelQueue {
    var at := Position(q.withheld, id);
    if at == |q.withheld| then q
    else ChannelQueue(Capped([q.withheld[at]] + q.queued), Without(q.withheld, at))
  }

  function Removed(q: ChannelQueue, id: EventId): ChannelQueue {
    ChannelQueue(Retained(q.queued, id), Retained(q.withheld, id))
  }

  /** All withheld events back in front, in their order. */
  function Recovered(q: ChannelQueue): ChannelQueue {
    if q.withheld == [] then q else ChannelQueue(Capped(q.withheld + q.queued), [])
  }

  /** `push` on a queue that is not in drop mode: at the cap the oldest event makes room. */
  function Pushed(q: ChannelQueue, e: QueuedEvent): ChannelQueue {
    q.(queued := (if |q.queued| >= MAX_PENDING_PER_CHANNEL then q.queued[1..] else q.queued) + [e])
  }

  // ---- The queue ----------------------------------------------------------

  type Side = map<Channel, seq<QueuedEvent>>

  function At(side: Side, ch: Channel): seq<QueuedEvent> {
    if ch in side then side[ch] else []
  }

  /** Empty entries are removed from the maps. */
  function Store(side: Side, ch: Channel, events: seq<QueuedEvent>): (r: Side)
    ensures At(r, ch) == events
    ensures forall c | c != ch :: At(r, c) == At(side, c)
    ensures (forall c | c in side :: side[c] != []) ==> forall c | c in r :: r[c] != []
  {
    if events == [] then side - {ch} else side[ch := events]
  }

  class EventQueue {
    var queues: Side
    var withheldNativeSteer: Side

    function Value(ch: Channel): ChannelQueue
      reads this
    {
      ChannelQueue(At(queues, ch), At(withheldNativeSteer, ch))
    }

    /** No channel is kept with an empty list. */
    predicate Valid()
      reads this
    {
      && (forall ch | ch in queues :: queues[ch] != [])
      && (forall ch | ch in withheldNativeSteer :: withheldNativeSteer[ch] != [])
    }

    constructor ()
      ensures Valid()
      ensures forall ch :: Value(ch) == ChannelQueue([], [])
    {
      queues, withheldNativeSteer := map[], map[];
    }

    /** `mark_native_steer_pending`. */
    method MarkNativeSteerPending(ch: Channel, id: EventId) returns (withheld: bool)
      requires Valid()
      modifies this
      ensures Valid()
      ensures Value(ch) == Marked(old(Value(ch)), id)
      ensures forall c | c != ch :: Value(c) == old(Value(c))
      ensures withheld <==> Has(old(Value(ch)).queued, id)
    {
      if ch !in queues {
        return false;
      }
      var q := queues[ch];
      var at := Position(q, id);
      if at == |q| {
        return false;
      }
      queues := Store(queues, ch, q[..at] + q[at + 1..]);
      withheldNativeSteer := withheldNativeSteer[ch := At(withheldNativeSteer, ch) + [q[at]]];
      withheld := true;
    }

    /** `release_native_steer`: back to the front, newest events giving way at the cap. */
    method ReleaseNativeSteer(ch: Channel, id: EventId)
      requires Valid()
      modifies this
      ensures Valid()
      ensures Value(ch) == Released(old(Value(ch)), id)
      ensures forall c | c != ch :: Value(c) == old(Value(c))
    {
      if ch !in withheldNativeSteer {
        return;
      }
      var entries := withheldNativeSteer[ch];
      var at := Position(entries, id);
      if at == |entries| {
        return;
      }
      withheldNativeSteer := Store(withheldNativeSteer, ch, entries[..at] + entries[at + 1..]);
      var queue := [entries[at]] + At(queues, ch);
      ghost var whole := queue;
      while |queue| > MAX_PENDING_PER_CHANNEL
        invariant |queue| <= |whole| && queue == whole[..|queue|]
        invariant |queue| < |whole| ==> |queue| >= MAX_PENDING_PER_CHANNEL
      {
        queue := queue[..|queue| - 1];
      }
      queues := queues[ch := queue];
    }

    /** `recover_withheld_for_expired_channel`. */
    method RecoverWithheld(ch: Channel)
      requires Valid()
      modifies this
      ensures Valid()
      ensures Value(ch) == Recovered(old(Value(ch)))
      ensures forall c | c != ch :: Value(c) == old(Value(c))
    {
      if ch !in withheldNativeSteer {
        return;
      }
      var entries := withheldNativeSteer[ch];
      ghost var was := At(queues, ch);
      withheldNativeSteer := withheldNativeSteer - {ch};
      var queue := At(queues, ch);
      assert entries[|entries|..] + was == was;
      for i := |entries| downto 0
        invariant queue == entries[i..] + was
      {
        assert entries[i..] == [entries[i]] + entries[i + 1..];
        queue := [entries[i]] + queue;
      }
      ghost var whole := queue;
      assert entries[0..] == entries;
      while |queue| > MAX_PENDING_PER_CHANNEL
        invariant |queue| <= |whole| && queue == whole[..|queue|]
        invariant |queue| < |whole| ==> |queue| >= MAX_PENDING_PER_CHANNEL
      {
        queue := queue[..|queue| - 1];
      }
      queues := queues[ch := queue];
    }

    /** The part of `drain_channel` that concerns the two stores. */
    method DrainChannel(ch: Channel)
      requires Valid()
      modifies this
      ensures Valid()
      ensures Value(ch) == ChannelQueue([], [])
      ensures forall c | c != ch :: Value(c) == old(Value(c))
    {
      queues := queues - {ch};
      withheldNativeSteer := withheldNativeSteer - {ch};
    }

    /** `remove_event`. */
    method RemoveEvent(ch: Channel, id: EventId)
      requires Valid()
      modifies this
      ensures Valid()
      ensures Value(ch) == Removed(old(Value(ch)), id)
      ensures forall c | c != ch :: Value(c) == old(Value(c))
    {
      if ch in withheldNativeSteer {
        withheldNativeSteer := Store(withheldNativeSteer, ch, Retained(withheldNativeSteer[ch], id));
      }
      if ch in queues {
        queues := Store(queues, ch, Retained(queues[ch], id));
      }
    }
  }

  // ---- Withholding and giving back ----------------------------------------

  /** Each id is in the channel once. */
  ghost predicate Unique(q: ChannelQueue) {
    && (forall i, j | 0 <= i < j < |q.queued| :: q.queued[i].id != q.queued[j].id)
    && (forall i, j | 0 <= i < j < |q.withheld| :: q.withheld[i].id != q.withheld[j].id)
    && (forall i, j | 0 <= i < |q.queued| && 0 <= j < |q.withheld| :: q.queued[i].id != q.withheld[j].id)
  }

  lemma NotWithheldPosition(events: seq<QueuedEvent>, e: QueuedEvent)
    requires !Has(events, e.id)
    ensures Position(events + [e], e.id) == |events|
    ensures Without(events + [e], |events|) == events
  {
    var more := events + [e];
    assert more[|events|].id == e.id;
    assert forall i | 0 <= i < |events| :: more[i] == events[i];
  }

  /** An event withheld and released is back with its original time, at the
      front of its channel; the others keep their order, and none is lost. */
  lemma ReleaseAfterMark(q: ChannelQueue, id: EventId)
    requires Unique(q) && Has(q.queued, id) && |q.queued| <= MAX_PENDING_PER_CHANNEL
    ensures
      var at := Position(q.queued, id);
      at < |q.queued| && Released(Marked(q, id), id) == ChannelQueue([q.queued[at]] + Without(q.queued, at), q.withheld)
  {
    var at := Position(q.queued, id);
    var e := q.queued[at];
    NotWithheldPosition(q.withheld, e);
  }

  /** A queue holds the newest five hundred of what it held and what is pushed. */
  lemma PushedKeepsNewest(q: ChannelQueue, e: QueuedEvent)
    requires |q.queued| <= 500
    ensures
      var all := q.queued + [e];
      Pushed(q, e) == ChannelQueue(if |all| <= 500 then all else all[|all| - 500..], q.withheld)
  {
  }

  /** Exactly what withholding does: the first event with the id goes to the end
      of the side table, and nothing happens when there is none. */
  lemma MarkedExactly(q: ChannelQueue, id: EventId, at: nat)
    requires at <= |q.queued| && (forall i | 0 <= i < at :: q.queued[i].id != id)
    requires at < |q.queued| ==> q.queued[at].id == id
    ensures
      Marked(q, id) == if at == |q.queued| then q
                       else ChannelQueue(q.queued[..at] + q.queued[at + 1..], q.withheld + [q.queued[at]])
  {
    assert Position(q.queued, id) == at;
  }

  /** Deletion goes through both stores event by event, in order, and leaves out
      those with the id and no others. */
  lemma {:induction false} RetainedParts(a: seq<QueuedEvent>, b: seq<QueuedEvent>, id: EventId)
    ensures Retained(a + b, id) == Retained(a, id) + Retained(b, id)
  {
    if b == [] {
      assert a + b == a;
    } else {
      assert (a + b)[..|a + b| - 1] == a + b[..|b| - 1];
      RetainedParts(a, b[..|b| - 1], id);
    }
  }

  lemma RemovedEach(q: ChannelQueue, id: EventId, k: nat)
    ensures k < |q.queued| ==>
              Removed(q, id).queued
              == Removed(ChannelQueue(q.queued[..k], []), id).queued
                 + (if q.queued[k].id == id then [] else [q.queued[k]])
                 + Removed(ChannelQueue(q.queued[k + 1..], []), id).queued
    ensures k < |q.withheld| ==>
              Removed(q, id).withheld
              == Removed(ChannelQueue([], q.withheld[..k]), id).withheld
                 + (if q.withheld[k].id == id then [] else [q.withheld[k]])
                 + Removed(ChannelQueue([], q.withheld[k + 1..]), id).withheld
  {
    if k < |q.queued| {
      RetainedAround(q.queued, id, k);
    }
    if k < |q.withheld| {
      RetainedAround(q.withheld, id, k);
    }
  }

  lemma RetainedOne(e: QueuedEvent, id: EventId)
    ensures Retained([e], id) == if e.id == id then [] else [e]
  {
    assert [e][..0] == [];
  }

  lemma RetainedAround(events: seq<QueuedEvent>, id: EventId, k: nat)
    requires k < |events|
    ensures Retained(events, id)
            == Retained(events[..k], id) + (if events[k].id == id then [] else [events[k]]) + Retained(events[k + 1..], id)
  {
    var a, one, b := events[..k], [events[k]], events[k + 1..];
    assert events == a + one + b;
    RetainedParts(a + one, b, id);
    RetainedParts(a, one, id);
    RetainedOne(events[k], id);
  }

  /** A released event heads its queue, whatever arrived meanwhile. */
  lemma ReleasedIsFirst(q: ChannelQueue, id: EventId)
    requires Has(q.withheld, id)
    ensures Released(q, id).queued != [] && Released(q, id).queued[0].id == id
  {
  }

  /** Exactly what a release does at any time: the event goes first with its time,
      the queue follows it in order up to the cap, and only it leaves the side table. */
  lemma ReleasedExactly(q: ChannelQueue, id: EventId, at: nat)
    requires at < |q.withheld| && q.withheld[at].id == id && forall i | 0 <= i < at :: q.withheld[i].id != id
    ensures
      var r := Released(q, id);
      && |r.queued| == (if |q.queued| + 1 <= 500 then |q.queued| + 1 else 500)
      && r.queued[0] == q.withheld[at]
      && (forall k | 1 <= k < |r.queued| :: r.queued[k] == q.queued[k - 1])
      && r.withheld == q.withheld[..at] + q.withheld[at + 1..]
  {
    var p := Position(q.withheld, id);
    assert p == at;
  }

  /** An event withheld and removed is gone, and nothing else is. */
  lemma RemoveAfterMark(q: ChannelQueue, id: EventId)
    requires Unique(q) && Has(q.queued, id)
    ensures Removed(Marked(q, id), id) == ChannelQueue(Without(q.queued, Position(q.queued, id)), q.withheld)
  {
    var at := Position(q.queued, id);
    var rest := Without(q.queued, at);
    var e := q.queued[at];
    assert !Has(rest, id) by {
      forall i | 0 <= i < |rest| ensures rest[i].id != id {
        assert rest[i] == if i < at then q.queued[i] else q.queued[i + 1];
      }
    }
    assert !Has(q.withheld, id);
    assert (q.withheld + [e])[..|q.withheld|] == q.withheld;
  }
}
