/** The in-process observer bus and the splice of its replay buffer with the
    live feed (crates/buzz-acp/src/observer.rs:19-137,
    crates/buzz-acp/src/lib.rs:411-484). */
module ObserverBus {
  import opened Options
  import opened ObserverEvents
  import Json

  type Event = ObserverEvent<Json.Value>

  const BUFFER_CAP := 1000

  function LastOnes(log: seq<Event>): (r: seq<Event>) {
    if |log| <= BUFFER_CAP then log else log[|log| - BUFFER_CAP..]
  }

  // ---- The bus ------------------------------------------------------------

  /** The next sequence number, the replay buffer, and the events sent to the
      subscribed receiver that it has not read. */
  datatype Bus = Bus(next: nat, buffer: seq<Event>, live: Option<seq<Event>>)

  const NEW_BUS := Bus(1, [], None)

  function Pushed(b: Bus, e: Event): Bus {
    b.(buffer := (if |b.buffer| >= BUFFER_CAP then b.buffer[1..] else b.buffer) + [e])
  }

  function Sent(b: Bus, e: Event): Bus {
    if b.live.Some? then b.(live := Some(b.live.value + [e])) else b
  }

  class ObserverHandle {
    var seq_: nat
    var buffer: seq<Event>
    var live: Option<seq<Event>>

    function Value(): Bus
      reads this
    {
      Bus(seq_, buffer, live)
    }

    constructor ()
      ensures Value() == NEW_BUS
    {
      seq_, buffer, live := 1, [], None;
    }

    /** `seq.fetch_add(1)`. */
    method DrawSeq() returns (n: nat)
      modifies this
      ensures n == old(seq_) && Value() == old(Value()).(next := n + 1)
    {
      n := seq_;
      seq_ := seq_ + 1;
    }

    /** The push under the buffer lock. */
    method PushBack(e: Event)
      modifies this
      ensures Value() == Pushed(old(Value()), e)
    {
      if |buffer| >= BUFFER_CAP {
        buffer := buffer[1..];
      }
      buffer := buffer + [e];
    }

    /** `tx.send`: nobody receives it before there is a subscriber. */
    method Send(e: Event)
      modifies this
      ensures Value() == Sent(old(Value()), e)
    {
      if live.Some? {
        live := Some(live.value + [e]);
      }
    }

    /** `emit`, run without another emitter in between. */
    method Emit(body: Event)
      modifies this
      ensures Value() == Emitted(old(Value()), body)
    {
      var n := DrawSeq();
      var e := body.(seq_ := n);
      PushBack(e);
      Send(e);
    }

    method Subscribe()
      requires live.None?
      modifies this
      ensures Value() == old(Value()).(live := Some([]))
    {
      live := Some([]);
    }

    /** `snapshot`. */
    method Snapshot() returns (events: seq<Event>)
      ensures events == buffer
    {
      events := buffer;
    }
  }

  function Emitted(b: Bus, body: Event): Bus {
    var e := body.(seq_ := b.next);
    Sent(Pushed(b.(next := b.next + 1), e), e)
  }

  // ---- The splice ---------------------------------------------------------

  /** The high-water mark of a snapshot, zero when it is empty. */
  function MaxSeq(events: seq<Event>): (m: nat)
    ensures forall i | 0 <= i < |events| :: events[i].seq_ <= m
    ensures events != [] ==> exists i | 0 <= i < |events| :: events[i].seq_ == m
    ensures events == [] ==> m == 0
  {
    if events == [] then 0
    else
      var n := |events| - 1;
      var m := MaxSeq(events[..n]);
      assert forall i | 0 <= i < n :: events[i] == events[..n][i];
      if n == 0 || events[n].seq_ > m then events[n].seq_
      else
        var i :| 0 <= i < n && events[..n][i].seq_ == m;
        assert events[i].seq_ == m;
        m
  }

  /** What passes the high-water test among live events `from` to `to`. */
  function Above(log: seq<Event>, from: nat, to: nat, high: nat): (r: seq<Event>)
    requires from <= to <= |log|
  {
    if from == to then []
    else Above(log, from, to - 1, high) + (if log[to - 1].seq_ > high then [log[to - 1]] else [])
  }

  /** What `run_relay_observer_publisher` passes to the coalescer, for a
      snapshot and the live events that follow. */
  method Splice(snapshot: seq<Event>, live: seq<Event>) returns (passed: seq<Event>)
    ensures passed == snapshot + Above(live, 0, |live|, MaxSeq(snapshot))
  {
    var high := 0;
    for i := 0 to |snapshot|
      invariant high == MaxSeq(snapshot[..i])
    {
      assert snapshot[..i + 1][..i] == snapshot[..i];
      if snapshot[i].seq_ > high {
        high := snapshot[i].seq_;
      }
    }
    assert snapshot[..|snapshot|] == snapshot;
    passed := snapshot;
    for i := 0 to |live|
      invariant passed == snapshot + Above(live, 0, i, high)
    {
      if live[i].seq_ <= high {
        continue;
      }
      passed := passed + [live[i]];
    }
  }
}
