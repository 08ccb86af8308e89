/** Waking a lazily started agent pool
    (crates/buzz-acp/src/pool_lifecycle.rs). Times are in seconds. */
module PoolLifecycle {
  import opened Options
  import opened Powers

  type Time = int

  /** `INITIAL_RETRY_DELAY` and `MAX_RETRY_DELAY`. */
  const INITIAL_DELAY := 5
  const MAX_DELAY := 300

  const U32_MAX := 0xFFFF_FFFF
  const U64_MAX := 0xFFFF_FFFF_FFFF_FFFF

  datatype Lifecycle<+P> =
    | Listening
    | Waking(attempt: nat)
    | Ready(pool: P)
    | Failed(attempt: nat, retryAt: Time, error: string)

  // ---- Integer arithmetic as in the source --------------------------------

  function SaturatingAdd32(a: nat, b: nat): nat {
    if a + b > U32_MAX then U32_MAX else a + b
  }

  function SaturatingSub(a: nat, b: nat): nat {
    if a < b then 0 else a - b
  }

  function SaturatingMul64(a: nat, b: nat): nat {
    if a * b > U64_MAX then U64_MAX else a * b
  }

  /** `1_u64.checked_shl(n)`: defined for shifts below the width. */
  function CheckedShl64(n: nat): Option<nat> {
    if n < 64 then Some(Power2(n)) else None
  }

  function RetryDelay(attempt: nat): nat {
    var exponent := if SaturatingSub(attempt, 1) < 63 then SaturatingSub(attempt, 1) else 63;
    var multiplier := match CheckedShl64(exponent) case Some(m) => m case None => U64_MAX;
    var delay := SaturatingMul64(INITIAL_DELAY, multiplier);
    if delay < MAX_DELAY then delay else MAX_DELAY
  }

  /** Neither the shift nor the product can be seen to saturate: the delay doubles
      from 5 seconds until it reaches 300, for every attempt. */
  lemma RetryDelayIsCappedDoubling(attempt: nat)
    requires attempt >= 1
    ensures RetryDelay(attempt) == if INITIAL_DELAY * Power2(attempt - 1) < MAX_DELAY
                                   then INITIAL_DELAY * Power2(attempt - 1) else MAX_DELAY
  {
    assert Power2(6) == 64;
    if attempt - 1 >= 6 {
      Power2Grows(6, attempt - 1);
      Power2Grows(6, if attempt - 1 < 63 then attempt - 1 else 63);
    } else {
      Power2Grows(attempt - 1, 6);
    }
  }

  /** 5, 10, 20, 40, 80, 160 and then 300 seconds. */
  lemma RetryDelayTable(attempt: nat)
    requires attempt >= 1
    ensures attempt <= 6 ==> RetryDelay(attempt) == [5, 10, 20, 40, 80, 160][attempt - 1]
    ensures attempt >= 7 ==> RetryDelay(attempt) == MAX_DELAY
  {
    RetryDelayIsCappedDoubling(attempt);
    assert Power2(0) == 1 && Power2(1) == 2 && Power2(2) == 4 && Power2(3) == 8 && Power2(4) == 16
        && Power2(5) == 32 && Power2(6) == 64;
    if attempt >= 7 {
      Power2Grows(6, attempt - 1);
    }
  }

  // ---- Transitions --------------------------------------------------------

  function StartWakeIfDue<P>(s: Lifecycle<P>, pendingWork: bool, now: Time): (Lifecycle<P>, Option<nat>) {
    if !pendingWork then (s, None)
    else
      match s
      case Listening => (Waking(1), Some(1))
      case Failed(attempt, retryAt, _) =>
        if now >= retryAt then (Waking(SaturatingAdd32(attempt, 1)), Some(SaturatingAdd32(attempt, 1)))
        else (s, None)
      case Waking(_) => (s, None)
      case Ready(_) => (s, None)
  }

  datatype WakeResult<+P> = WokeUp(pool: P) | WakeError(error: string)

  /** The new state, and whether the result was accepted. */
  function CompleteWake<P>(s: Lifecycle<P>, attempt: nat, result: WakeResult<P>, now: Time): (Lifecycle<P>, bool) {
    if !s.Waking? || s.attempt != attempt then (s, false)
    else
      match result
      case WokeUp(pool) => (Ready(pool), true)
      case WakeError(error) => (Failed(attempt, now + RetryDelay(attempt), error), true)
  }

  function TakeReady<P>(s: Lifecycle<P>): (Lifecycle<P>, Option<P>) {
    match s
    case Ready(pool) => (Listening, Some(pool))
    case _ => (s, None)
  }

  class LazyPool<P> {
    var state: Lifecycle<P>

    constructor ()
      ensures state == Listening
    {
      state := Listening;
    }

    method StartIfDue(pendingWork: bool, now: Time) returns (started: Option<nat>)
      modifies this
      ensures (state, started) == StartWakeIfDue(old(state), pendingWork, now)
    {
      if !pendingWork {
        return None;
      }
      started := None;
      match state {
        case Listening => started := Some(1);
        case Failed(attempt, retryAt, _) =>
          if now >= retryAt {
            started := Some(SaturatingAdd32(attempt, 1));
          }
        case _ =>
      }
      if started.Some? {
        state := Waking(started.value);
      }
    }

    method Complete(attempt: nat, result: WakeResult<P>, now: Time) returns (accepted: bool)
      modifies this
      ensures (state, accepted) == CompleteWake(old(state), attempt, result, now)
      ensures !accepted ==> state == old(state)
    {
      if !state.Waking? || state.attempt != attempt {
        return false;
      }
      match result {
        case WokeUp(pool) => state := Ready(pool);
        case WakeError(error) => state := Failed(attempt, now + RetryDelay(attempt), error);
      }
      accepted := true;
    }

    method Cancel(attempt: nat, error: string, now: Time) returns (accepted: bool)
      modifies this
      ensures (state, accepted) == CompleteWake(old(state), attempt, WakeError(error), now)
    {
      accepted := Complete(attempt, WakeError(error), now);
    }

    method Take() returns (pool: Option<P>)
      modifies this
      ensures (state, pool) == TakeReady(old(state))
    {
      var taken := state;
      state := Listening;
      if taken.Ready? {
        return Some(taken.pool);
      }
      state := taken;
      pool := None;
    }
  }

  // ---- Every run ----------------------------------------------------------

  /** Cancelling is delivering an error. A result may come at any time with any
      attempt number: late, twice, or never. */
  datatype Event<+P> =
    | Poll(at: Time, pendingWork: bool)
    | Result(at: Time, attempt: nat, result: WakeResult<P>)
    | TakePool(at: Time)

  /** Time never goes back. */
  ghost predicate Timed<P>(events: seq<Event<P>>) {
    forall i, j :: 0 <= i <= j < |events| ==> events[i].at <= events[j].at
  }

  function Next<P>(s: Lifecycle<P>, e: Event<P>): Lifecycle<P> {
    match e
    case Poll(at, pending) => StartWakeIfDue(s, pending, at).0
    case Result(at, attempt, result) => CompleteWake(s, attempt, result, at).0
    case TakePool(_) => TakeReady(s).0
  }

  function Before<P>(events: seq<Event<P>>, k: nat): Lifecycle<P>
    requires k <= |events|
  {
    if k == 0 then Listening else Next(Before(events, k - 1), events[k - 1])
  }

  /** Event `k` starts wake number `Started(events, k)` of the current series. */
  function Started<P>(events: seq<Event<P>>, k: nat): Option<nat>
    requires k < |events|
  {
    if events[k].Poll? then StartWakeIfDue(Before(events, k), events[k].pendingWork, events[k].at).1 else None
  }

  function Accepted<P>(events: seq<Event<P>>, k: nat): bool
    requires k < |events|
  {
    events[k].Result? && CompleteWake(Before(events, k), events[k].attempt, events[k].result, events[k].at).1
  }

  /** Wakes started minus results accepted before event `k`. */
  function Outstanding<P>(events: seq<Event<P>>, k: nat): int
    requires k <= |events|
  {
    if k == 0 then 0
    else Outstanding(events, k - 1)
         + (if Started(events, k - 1).Some? then 1 else 0) - (if Accepted(events, k - 1) then 1 else 0)
  }

  /** A wake is outstanding exactly while the state is `Waking`, and only one. */
  lemma {:induction false} AtMostOneWake<P>(events: seq<Event<P>>, k: nat)
    requires k <= |events|
    ensures Outstanding(events, k) == if Before(events, k).Waking? then 1 else 0
  {
    if k > 0 {
      AtMostOneWake(events, k - 1);
    }
  }

  /** A result that is not the outstanding wake's changes nothing: it came when
      none was outstanding, or with the number of another attempt. */
  lemma StaleResultIsIgnored<P>(events: seq<Event<P>>, k: nat)
    requires k < |events| && events[k].Result?
    ensures !Accepted(events, k) <==> !Before(events, k).Waking? || Before(events, k).attempt != events[k].attempt
    ensures !Accepted(events, k) ==> Before(events, k + 1) == Before(events, k)
  {
  }

  // ---- Backoff ------------------------------------------------------------

  /** The delays after the first `n` attempts, added up. */
  function TotalDelay(n: nat): nat {
    if n == 0 then 0 else TotalDelay(n - 1) + RetryDelay(n)
  }

  /** The start of the current series of attempts: the last wake started from
      `Listening` before event `k`. */
  function SeriesStart<P>(events: seq<Event<P>>, k: nat): Option<Time>
    requires k <= |events|
  {
    if k == 0 then None
    else if Before(events, k - 1).Listening? && Started(events, k - 1).Some? then Some(events[k - 1].at)
    else SeriesStart(events, k - 1)
  }

  /** Attempts are numbered from 1 without gaps (up to the 32-bit limit), each no
      earlier than all the delays before it allow. */
  ghost predicate OnSchedule<P>(s: Lifecycle<P>, start: Option<Time>, now: Time) {
    match s
    case Waking(a) => 1 <= a <= U32_MAX && start.Some? && now >= start.value + TotalDelay(a - 1)
    case Failed(a, retryAt, _) => 1 <= a <= U32_MAX && start.Some? && retryAt >= start.value + TotalDelay(a)
    case _ => true
  }

  /** The series start after an event: its own time if it starts the first wake. */
  function StartAfter<P>(s: Lifecycle<P>, start: Option<Time>, e: Event<P>): Option<Time> {
    if s.Listening? && e.Poll? && StartWakeIfDue(s, e.pendingWork, e.at).1.Some? then Some(e.at) else start
  }

  lemma ScheduleStep<P>(s: Lifecycle<P>, start: Option<Time>, now: Time, e: Event<P>)
    requires OnSchedule(s, start, now) && now <= e.at
    ensures OnSchedule(Next(s, e), StartAfter(s, start, e), e.at)
  {
    match e {
      case Poll(_, _) =>
        if s.Failed? {
          assert TotalDelay(s.attempt) == TotalDelay(s.attempt - 1) + RetryDelay(s.attempt);
        }
      case Result(_, attempt, _) =>
        if s.Waking? {
          assert TotalDelay(s.attempt) == TotalDelay(s.attempt - 1) + RetryDelay(s.attempt);
        }
      case TakePool(_) =>
    }
  }

  lemma {:induction false} RunIsOnSchedule<P>(events: seq<Event<P>>, k: nat)
    requires Timed(events) && k < |events|
    ensures OnSchedule(Before(events, k + 1), SeriesStart(events, k + 1), events[k].at)
  {
    var s, start := Before(events, k), SeriesStart(events, k);
    if k > 0 {
      RunIsOnSchedule(events, k - 1);
      ScheduleStep(s, start, events[k - 1].at, events[k]);
    } else {
      ScheduleStep(s, start, events[k].at, events[k]);
    }
    assert SeriesStart(events, k + 1) == StartAfter(s, start, events[k]);
  }

  /** Attempt `a` starts no earlier than the sum of the first `a - 1` delays after
      attempt 1 of its series. */
  lemma AttemptStartsNoEarlier<P>(events: seq<Event<P>>, k: nat)
    requires Timed(events) && k < |events| && Started(events, k).Some?
    ensures Started(events, k).value >= 1
    ensures SeriesStart(events, k + 1).Some?
    ensures events[k].at >= SeriesStart(events, k + 1).value + TotalDelay(Started(events, k).value - 1)
  {
    RunIsOnSchedule(events, k);
  }

  lemma {:induction false} TotalDelayClosedForm(n: nat)
    requires n >= 6
    ensures TotalDelay(n) == 315 + MAX_DELAY * (n - 6)
  {
    RetryDelayTable(n);
    if n == 6 {
      RetryDelayTable(1);
      RetryDelayTable(2);
      RetryDelayTable(3);
      RetryDelayTable(4);
      RetryDelayTable(5);
      assert TotalDelay(3) == 35;
    } else {
      TotalDelayClosedForm(n - 1);
    }
  }

  /** Within `t` seconds of the first, a series starts at most 7 + (t - 315) / 300
      attempts, and at most 6 while `t` is less than 315. */
  lemma AttemptsInTime<P>(events: seq<Event<P>>, k: nat, t: nat)
    requires Timed(events) && k < |events| && Started(events, k).Some?
    requires SeriesStart(events, k + 1).Some? && events[k].at <= SeriesStart(events, k + 1).value + t
    ensures t >= 315 ==> Started(events, k).value <= 7 + (t - 315) / MAX_DELAY
    ensures t < 315 ==> Started(events, k).value <= 6
  {
    var a := Started(events, k).value;
    AttemptStartsNoEarlier(events, k);
    if a >= 7 {
      TotalDelayClosedForm(a - 1);
    }
  }

  // ---- What must happen ---------------------------------------------------

  /** Event `i` is the outstanding wake's own result. */
  predicate Resolves<P>(events: seq<Event<P>>, i: nat)
    requires i < |events|
  {
    events[i].Result? && Before(events, i) == Waking(events[i].attempt)
  }

  /** When a wake starts: with work pending, at once from the start, and after a
      failure once its time has come; it is the first, or one more. */
  lemma StartedIff<P>(events: seq<Event<P>>, k: nat)
    requires k < |events| && events[k].Poll?
    ensures
      var s := Before(events, k);
      && (Started(events, k).Some? <==>
            events[k].pendingWork && (s.Listening? || (s.Failed? && s.retryAt <= events[k].at)))
      && (Started(events, k).Some? ==>
            && Before(events, k + 1) == Waking(Started(events, k).value)
            && (s.Listening? ==> Started(events, k) == Some(1))
            && (s.Failed? && s.attempt < U32_MAX ==> Started(events, k) == Some(s.attempt + 1)))
      && (Started(events, k).None? ==> Before(events, k + 1) == s)
  {
  }

  /** Event `i` brings the pool `p`, and nobody takes a pool before event `k`. */
  ghost predicate Brought<P>(events: seq<Event<P>>, i: nat, k: nat, p: P)
    requires i < k <= |events|
  {
    Resolves(events, i) && events[i].result == WokeUp(p) && forall j | i < j < k :: !events[j].TakePool?
  }

  lemma {:induction false} BroughtIsReady<P>(events: seq<Event<P>>, i: nat, k: nat, p: P)
    requires i < k <= |events| && Brought(events, i, k, p)
    ensures Before(events, k) == Ready(p)
  {
    if i + 1 < k {
      BroughtIsReady(events, i, k - 1, p);
    }
  }

  lemma {:induction false} ReadyWasBrought<P>(events: seq<Event<P>>, k: nat, p: P) returns (i: nat)
    requires k <= |events| && Before(events, k) == Ready(p)
    ensures i < k && Brought(events, i, k, p)
  {
    if Before(events, k - 1) == Ready(p) {
      i := ReadyWasBrought(events, k - 1, p);
    } else {
      i := k - 1;
    }
  }

  /** A pool is taken exactly when the outstanding wake brought it and none was
      taken since: whatever polls and stale results come in between. */
  lemma TakenIff<P>(events: seq<Event<P>>, k: nat, p: P)
    requires k < |events| && events[k].TakePool?
    ensures TakeReady(Before(events, k)).1 == Some(p) <==> exists i | 0 <= i < k :: Brought(events, i, k, p)
    ensures Before(events, k).Ready? ==> Before(events, k + 1) == Listening
  {
    if Before(events, k) == Ready(p) {
      var i := ReadyWasBrought(events, k, p);
    }
    if i :| 0 <= i < k && Brought(events, i, k, p) {
      BroughtIsReady(events, i, k, p);
    }
  }

  /** Event `i` fails the outstanding wake, and no poll with work pending comes
      when the retry is due before event `k`. */
  ghost predicate FailedSince<P>(events: seq<Event<P>>, i: nat, k: nat)
    requires i < k <= |events|
  {
    && Resolves(events, i) && events[i].result.WakeError?
    && forall j | i < j < k :: DueAt(events, i, j) ==> !events[j].pendingWork
  }

  predicate DueAt<P>(events: seq<Event<P>>, i: nat, j: nat)
    requires i < |events| && j < |events| && events[i].Result?
  {
    events[j].Poll? && events[j].at >= events[i].at + RetryDelay(events[i].attempt)
  }

  lemma {:induction false} FailureStays<P>(events: seq<Event<P>>, i: nat, k: nat)
    requires i < k <= |events| && FailedSince(events, i, k)
    ensures Before(events, k)
            == Failed(events[i].attempt, events[i].at + RetryDelay(events[i].attempt), events[i].result.error)
  {
    if i + 1 < k {
      FailureStays(events, i, k - 1);
      assert DueAt(events, i, k - 1) ==> !events[k - 1].pendingWork;
    }
  }

  /** After a failure the next attempt starts with the first poll that finds work
      pending once the delay is over, and with no other. */
  lemma RetryStartsIff<P>(events: seq<Event<P>>, i: nat, k: nat)
    requires i < k < |events| && FailedSince(events, i, k) && events[k].Poll? && events[i].attempt < U32_MAX
    ensures Started(events, k)
            == if DueAt(events, i, k) && events[k].pendingWork then Some(events[i].attempt + 1) else None
  {
    FailureStays(events, i, k);
  }
}
