/** Pacing observer publishes (crates/buzz-acp/src/lib.rs:364-410). Times are in
    milliseconds; the constants are whole milliseconds. */
module Pacer {

  /** `OBSERVER_PUBLISH_INTERVAL`. */
  const INTERVAL := 167

  /** `OBSERVER_PUBLISH_LIMIT_PER_MINUTE`. */
  const LIMIT := 90

  const MINUTE := 60_000

  type Time = int

  // ---- The two limits -----------------------------------------------------

  ghost predicate Spaced(h: seq<Time>) {
    forall i :: 1 <= i < |h| ==> h[i] >= h[i - 1] + INTERVAL
  }

  /** Any 91 publishes in a row take a minute or more. */
  ghost predicate Windowed(h: seq<Time>) {
    forall i :: LIMIT <= i < |h| ==> h[i] >= h[i - LIMIT] + MINUTE
  }

  /** The publishes at or after `lo` and before `lo + MINUTE`. */
  function CountIn(h: seq<Time>, lo: Time): nat {
    if h == [] then 0
    else CountIn(h[..|h| - 1], lo) + (if lo <= h[|h| - 1] < lo + MINUTE then 1 else 0)
  }

  ghost predicate Ordered(h: seq<Time>) {
    forall i, j :: 0 <= i <= j < |h| ==> h[i] <= h[j]
  }

  lemma {:induction false} SpacedIsOrdered(h: seq<Time>)
    requires Spaced(h)
    ensures Ordered(h)
  {
    if |h| > 1 {
      var n := |h| - 1;
      SpacedIsOrdered(h[..n]);
      assert forall i :: 0 <= i < n ==> h[..n][i] == h[i];
      assert h[n] >= h[n - 1] + INTERVAL;
    }
  }

  /** If the last publish is before the window, none is in it. */
  lemma {:induction false} NoneBefore(h: seq<Time>, lo: Time)
    requires Ordered(h) && (h != [] ==> h[|h| - 1] < lo)
    ensures CountIn(h, lo) == 0
  {
    if h != [] {
      NoneBefore(h[..|h| - 1], lo);
    }
  }

  /** The count is at most the number of publishes after the last one that is
      before the window. */
  lemma {:induction false} CountAfter(h: seq<Time>, lo: Time, k: nat)
    requires Ordered(h) && k <= |h| && (k > 0 ==> h[k - 1] < lo)
    ensures CountIn(h, lo) <= |h| - k
  {
    if k == |h| {
      NoneBefore(h, lo);
    } else {
      CountAfter(h[..|h| - 1], lo, k);
    }
  }

  /** Every half-open minute holds at most 90 publishes. */
  lemma {:induction false} AtMostLimitPerMinute(h: seq<Time>, lo: Time)
    requires Spaced(h) && Windowed(h)
    ensures CountIn(h, lo) <= LIMIT
  {
    SpacedIsOrdered(h);
    if h != [] {
      var n := |h| - 1;
      AtMostLimitPerMinute(h[..n], lo);
      if lo <= h[n] < lo + MINUTE && n >= LIMIT {
        CountAfter(h[..n], lo, n - LIMIT + 1);
      }
      if n < LIMIT {
        CountAtMostAll(h, lo);
      }
    }
  }

  lemma {:induction false} CountAtMostAll(h: seq<Time>, lo: Time)
    ensures CountIn(h, lo) <= |h|
  {
    if h != [] {
      CountAtMostAll(h[..|h| - 1], lo);
    }
  }

  /** Conversely, 90 per half-open minute forces `Windowed`. */
  lemma LimitPerMinuteIsWindowed(h: seq<Time>)
    requires Ordered(h) && forall lo :: CountIn(h, lo) <= LIMIT
    ensures Windowed(h)
  {
    forall i | LIMIT <= i < |h|
      ensures h[i] >= h[i - LIMIT] + MINUTE
    {
      assert CountIn(h, h[i - LIMIT]) <= LIMIT;
      if h[i] < h[i - LIMIT] + MINUTE {
        CountOfRange(h, h[i - LIMIT], i - LIMIT, i);
      }
    }
  }

  lemma {:induction false} CountOfRange(h: seq<Time>, lo: Time, i: nat, j: nat)
    requires Ordered(h) && i <= j < |h| && lo <= h[i] && h[j] < lo + MINUTE
    ensures CountIn(h, lo) >= j - i + 1
  {
    var n := |h| - 1;
    if j < n {
      CountOfRange(h[..n], lo, i, j);
    } else if i < n {
      CountOfRange(h[..n], lo, i, j - 1);
    }
  }

  // ---- The earliest allowed time ------------------------------------------

  function Max(a: Time, b: Time): Time {
    if a < b then b else a
  }

  /** The end of the initial wait or of the interval after the last publish. */
  function AfterLast(start: Time, h: seq<Time>): Time {
    (if h == [] then start else h[|h| - 1]) + INTERVAL
  }

  /** The earliest next publish of a pacer created at `start` that made the
      publishes `h`. */
  function Earliest(start: Time, h: seq<Time>): Time {
    if |h| >= LIMIT then Max(AfterLast(start, h), h[|h| - LIMIT] + MINUTE) else AfterLast(start, h)
  }

  /** One more publish keeps both limits exactly from that time on. */
  lemma EarliestIff(start: Time, h: seq<Time>, t: Time)
    requires Spaced(h) && Windowed(h)
    ensures t >= Earliest(start, h) <==>
            Spaced(h + [t]) && Windowed(h + [t]) && (h == [] ==> t >= start + INTERVAL)
  {
    var g := h + [t];
    var n := |h|;
    assert forall i :: 0 <= i < n ==> g[i] == h[i];
    if t >= Earliest(start, h) {
      forall i | LIMIT <= i < |g|
        ensures g[i] >= g[i - LIMIT] + MINUTE
      {
      }
    }
    if Spaced(g) && n > 0 {
      assert g[n] >= g[n - 1] + INTERVAL;
    }
    if Windowed(g) && n >= LIMIT {
      assert g[n] >= g[n - LIMIT] + MINUTE;
    }
  }

  // ---- The sliding record of publishes ------------------------------------

  /** `published` is the end of `h`, and what it lacks is a minute old. */
  ghost predicate Tracks(h: seq<Time>, published: seq<Time>, seen: Time) {
    && |published| <= LIMIT && |published| <= |h|
    && published == h[|h| - |published|..]
    && (|published| < |h| ==> h[|h| - |published| - 1] + MINUTE <= seen)
  }

  lemma TracksDrop(h: seq<Time>, published: seq<Time>, now: Time)
    requires Tracks(h, published, now) && published != [] && now - published[0] >= MINUTE
    ensures Tracks(h, published[1..], now)
  {
  }

  /** Pops publishes off the front while they are a minute old. */
  method DropOld(published: seq<Time>, now: Time, ghost h: seq<Time>) returns (kept: seq<Time>)
    requires Tracks(h, published, now)
    ensures Tracks(h, kept, now)
    ensures kept != [] ==> now < kept[0] + MINUTE
  {
    kept := published;
    while |kept| > 0 && now - kept[0] >= MINUTE
      invariant Tracks(h, kept, now)
    {
      TracksDrop(h, kept, now);
      kept := kept[1..];
    }
  }

  lemma TracksPush(h: seq<Time>, published: seq<Time>, now: Time, at: Time)
    requires Tracks(h, published, now) && |published| < LIMIT && now <= at
    ensures Tracks(h + [at], published + [at], at)
  {
  }

  /** The time the code waits for. */
  function Slot(published: seq<Time>, nextPublish: Time): Time {
    if |published| >= LIMIT then Max(published[0] + MINUTE, nextPublish) else nextPublish
  }

  /** Once old publishes are dropped, waiting for the slot is waiting for the
      earliest allowed time. */
  lemma SlotIsEarliest(start: Time, h: seq<Time>, published: seq<Time>, now: Time)
    requires Spaced(h) && Tracks(h, published, now)
    requires published != [] ==> now < published[0] + MINUTE
    ensures Max(now, Slot(published, AfterLast(start, h))) == Max(now, Earliest(start, h))
    ensures Slot(published, AfterLast(start, h)) <= now ==> |published| < LIMIT
  {
    SpacedIsOrdered(h);
    var n, k := |h|, |published|;
    if n >= LIMIT && k < LIMIT {
      assert h[n - LIMIT] <= h[n - k - 1];
    }
  }

  // ---- The clock ----------------------------------------------------------

  /** A clock that only moves forward. An exact one stands still while code runs
      and wakes a sleeper on time. */
  class Clock {
    const exact: bool
    var now: Time

    constructor (exact: bool, now: Time)
      ensures this.exact == exact && this.now == now
    {
      this.exact, this.now := exact, now;
    }

    method Now() returns (t: Time)
      modifies this
      ensures t == now && now >= old(now)
      ensures exact ==> now == old(now)
    {
      if !exact {
        var drift: int := *;
        now := if drift > 0 then now + drift else now;
      }
      t := now;
    }

    method SleepUntil(t: Time)
      modifies this
      ensures now >= old(now) && now >= t
      ensures exact ==> now == if t > old(now) then t else old(now)
    {
      now := if t > now then t else now;
      if !exact {
        var drift: int := *;
        now := if drift > 0 then now + drift else now;
      }
    }
  }

  // ---- The pacer ----------------------------------------------------------

  class ObserverPublishPacer {
    var nextPublish: Time
    var published: seq<Time>

    /** When the pacer was created, and every publish since. */
    ghost const start: Time
    ghost var history: seq<Time>
    /** The latest time the pacer has seen. */
    ghost var seen: Time

    ghost predicate Valid()
      reads this
    {
      && Spaced(history) && Windowed(history)
      && nextPublish == AfterLast(start, history)
      && (history != [] ==> history[|history| - 1] <= seen)
      && Tracks(history, published, seen)
    }

    constructor (now: Time)
      ensures Valid() && history == [] && start == now && seen == now
    {
      nextPublish := now + INTERVAL;
      published := [];
      start, history, seen := now, [], now;
    }

    /** Drops the publishes that are a minute old at `now`. */
    method Prune(now: Time)
      requires Valid() && seen <= now
      modifies `published, `seen
      ensures Valid() && seen == now
      ensures published != [] ==> now < published[0] + MINUTE
    {
      published := DropOld(published, now, history);
      seen := now;
    }

    /** Records a publish. */
    method Push(at: Time)
      requires Valid() && seen <= at && |published| < LIMIT && Earliest(start, history) <= at
      modifies this
      ensures Valid() && seen == at && history == old(history) + [at]
    {
      EarliestIff(start, history, at);
      TracksPush(history, published, seen, at);
      published := published + [at];
      nextPublish := at + INTERVAL;
      history, seen := history + [at], at;
    }

    /** Waits for a publish slot. Whatever the clock does, there is at most one
        sleep and the publish respects both limits; with an exact clock it happens
        at the earliest time that does. */
    method Wait(clock: Clock) returns (sleeps: nat, at: Time)
      requires Valid() && seen <= clock.now
      modifies this, clock
      ensures Valid() && seen == clock.now == at
      ensures history == old(history) + [at]
      ensures at >= Max(old(clock.now), Earliest(start, old(history)))
      ensures clock.exact ==> at == Max(old(clock.now), Earliest(start, old(history)))
      ensures sleeps <= 1
    {
      ghost var called, goal := clock.now, Max(clock.now, Earliest(start, history));
      sleeps := 0;
      while true
        invariant Valid() && seen <= clock.now && history == old(history)
        invariant called <= clock.now && sleeps <= 1
        invariant sleeps == 1 ==> clock.now >= goal
        invariant clock.exact ==> clock.now == if sleeps == 0 then called else goal
        decreases 1 - sleeps
      {
        var now := clock.Now();
        Prune(now);
        SlotIsEarliest(start, history, published, now);
        var slot := Slot(published, nextPublish);
        if slot > now {
          clock.SleepUntil(slot);
          sleeps := sleeps + 1;
          continue;
        }
        at := clock.Now();
        Push(at);
        return;
      }
    }
  }

  // ---- Every run ----------------------------------------------------------

  /** Any number of publishes through one pacer, however late the clock: at most
      90 in any half-open minute, and 167 ms between any two. */
  method PublishMany(clock: Clock, count: nat) returns (times: seq<Time>)
    modifies clock
    ensures |times| == count
    ensures forall lo :: CountIn(times, lo) <= LIMIT
    ensures forall i :: 1 <= i < count ==> times[i] >= times[i - 1] + INTERVAL
    ensures count > 0 ==> times[0] >= old(clock.now) + INTERVAL
  {
    var pacer := new ObserverPublishPacer(clock.now);
    times := [];
    while |times| < count
      invariant pacer.Valid() && pacer.history == times && pacer.seen == clock.now
      invariant fresh(pacer) && pacer.start == old(clock.now) && |times| <= count
      invariant times != [] ==> times[0] >= old(clock.now) + INTERVAL
    {
      var sleeps, at := pacer.Wait(clock);
      times := times + [at];
    }
    forall lo
      ensures CountIn(times, lo) <= LIMIT
    {
      AtMostLimitPerMinute(times, lo);
    }
  }
}
