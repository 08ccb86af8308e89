/** The per-slot circuit breaker for agent respawns
    (crates/buzz-acp/src/lib.rs:1006-1132). Times are in nanoseconds. */
module Circuit {
  import opened Options
  import opened Powers

  type Time = int

  const SECOND := 1_000_000_000

  /** `CIRCUIT_BREAKER_THRESHOLD`, `_WINDOW` and `_COOLDOWN`. */
  const THRESHOLD := 3
  const WINDOW := 60 * SECOND
  const COOLDOWN := 300 * SECOND

  /** `RESPAWN_BASE_DELAY` and `RESPAWN_MAX_DELAY`, in seconds. */
  const BASE_DELAY := 1.0
  const MAX_DELAY := 30.0

  datatype Verdict =
    | Respawn(delay: real)  // seconds
    | CircuitOpen
    | HalfOpenProbe

  // ---- The breaker as a value ---------------------------------------------

  datatype Breaker = Breaker(crashTimes: seq<Time>, openUntil: Option<Time>)

  const CLOSED := Breaker([], None)

  /** The crashes at most a window old at `now`; the last one is. */
  function Recent(times: seq<Time>, now: Time): (r: seq<Time>)
    ensures |r| <= |times|
    ensures times != [] && now - times[|times| - 1] < WINDOW ==> r != []
  {
    if times == [] then []
    else
      var rest := Recent(times[..|times| - 1], now);
      if now - times[|times| - 1] < WINDOW then rest + [times[|times| - 1]] else rest
  }

  /** Half-open: as if the slot had just crashed once less than the threshold. */
  function Probing(now: Time): Breaker {
    Breaker([now, now], None)
  }

  /** `base * 2^(recent - 1)`, the exponent capped at 5, the delay at the maximum,
      times a factor of 0.8 to 1.2. */
  function Backoff(recent: nat, jitter: real): real
    requires recent >= 1
  {
    var exponent := if recent - 1 < 5 then recent - 1 else 5;
    var base := BASE_DELAY * Power2(exponent) as real;
    (if base < MAX_DELAY then base else MAX_DELAY) * (0.8 + jitter * 0.4)
  }

  function Crashed(b: Breaker, now: Time, jitter: real): (Breaker, Verdict) {
    match b.openUntil
    case Some(until) =>
      if now >= until then (Probing(now), HalfOpenProbe) else (b, CircuitOpen)
    case None =>
      var recent := Recent(b.crashTimes + [now], now);
      if |recent| >= THRESHOLD then (Breaker(recent, Some(now + COOLDOWN)), CircuitOpen)
      else (Breaker(recent, None), Respawn(Backoff(|recent|, jitter)))
  }

  function SpawnFailed(b: Breaker, now: Time): Breaker {
    b.(openUntil := Some(now + COOLDOWN))
  }

  /** Whether an empty slot may be refilled, and the breaker afterwards. */
  function Refilled(b: Breaker, now: Time): (Breaker, bool) {
    match b.openUntil
    case Some(until) => if now >= until then (Probing(now), true) else (b, false)
    case None => (b, true)
  }

  class SlotCircuit {
    var crashTimes: seq<Time>
    var openUntil: Option<Time>
    var respawnInFlight: bool

    function State(): Breaker
      reads this
    {
      Breaker(crashTimes, openUntil)
    }

    constructor ()
      ensures State() == CLOSED && !respawnInFlight
    {
      crashTimes, openUntil, respawnInFlight := [], None, false;
    }

    method RecordCrash(now: Time, jitter: real) returns (verdict: Verdict)
      modifies `crashTimes, `openUntil
      ensures (State(), verdict) == Crashed(old(State()), now, jitter)
    {
      if openUntil.Some? {
        if now >= openUntil.value {
          PreSeed(now);
          return HalfOpenProbe;
        }
        return CircuitOpen;
      }
      crashTimes := Recent(crashTimes + [now], now);
      var recent := |crashTimes|;
      if recent >= THRESHOLD {
        openUntil := Some(now + COOLDOWN);
        return CircuitOpen;
      }
      verdict := Respawn(Backoff(recent, jitter));
    }

    method MarkSpawnFailed(now: Time)
      modifies `openUntil
      ensures State() == SpawnFailed(old(State()), now)
    {
      openUntil := Some(now + COOLDOWN);
    }

    method CanRefill(now: Time) returns (allowed: bool)
      modifies `crashTimes, `openUntil
      ensures (State(), allowed) == Refilled(old(State()), now)
    {
      if openUntil.None? {
        return true;
      }
      if now < openUntil.value {
        return false;
      }
      PreSeed(now);
      allowed := true;
    }

    /** Closes the circuit one crash short of the threshold. */
    method PreSeed(now: Time)
      modifies `crashTimes, `openUntil
      ensures State() == Probing(now)
    {
      crashTimes := [];
      for i := 0 to THRESHOLD - 1
        invariant crashTimes == [now, now][..i]
      {
        crashTimes := crashTimes + [now];
      }
      openUntil := None;
    }
  }

  // ---- Every run ----------------------------------------------------------

  datatype Event =
    | Crash(at: Time, jitter: real)
    | Refill(at: Time)
    | Failed(at: Time)

  /** Time never goes back. */
  ghost predicate Timed(events: seq<Event>) {
    forall i, j :: 0 <= i <= j < |events| ==> events[i].at <= events[j].at
  }

  function Next(b: Breaker, e: Event): Breaker {
    match e
    case Crash(at, jitter) => Crashed(b, at, jitter).0
    case Refill(at) => Refilled(b, at).0
    case Failed(at) => SpawnFailed(b, at)
  }

  /** The breaker before event `k` of a run. */
  function Before(events: seq<Event>, k: nat): Breaker
    requires k <= |events|
  {
    if k == 0 then CLOSED else Next(Before(events, k - 1), events[k - 1])
  }

  /** The verdict on the crash at index `i` of a run. */
  function VerdictAt(events: seq<Event>, i: nat): Verdict
    requires i < |events| && events[i].Crash?
  {
    Crashed(Before(events, i), events[i].at, events[i].jitter).1
  }

  /** The crash at `i` was answered with a respawn. */
  predicate Granted(events: seq<Event>, i: nat)
    requires i < |events|
  {
    events[i].Crash? && VerdictAt(events, i) != CircuitOpen
  }

  /** The times of the crashes before event `k` answered with a respawn. */
  function Grants(events: seq<Event>, k: nat): seq<Time>
    requires k <= |events|
  {
    if k == 0 then []
    else Grants(events, k - 1) + (if Granted(events, k - 1) then [events[k - 1].at] else [])
  }

  /** How many of the times are later than `since`. */
  function Since(times: seq<Time>, since: Time): (n: nat)
    ensures n <= |times|
  {
    if times == [] then 0
    else Since(times[..|times| - 1], since) + (if times[|times| - 1] > since then 1 else 0)
  }

  lemma SinceSnoc(times: seq<Time>, t: Time, since: Time)
    ensures Since(times + [t], since) == Since(times, since) + (if t > since then 1 else 0)
  {
    assert (times + [t])[..|times|] == times;
  }

  lemma {:induction false} RecentSince(times: seq<Time>, now: Time, since: Time)
    requires since >= now - WINDOW
    ensures Since(Recent(times, now), since) == Since(times, since)
  {
    if times != [] {
      var n := |times| - 1;
      RecentSince(times[..n], now, since);
      SinceSnoc(Recent(times[..n], now), times[n], since);
    }
  }

  lemma ProbingSince(now: Time, since: Time)
    ensures Since(Probing(now).crashTimes, since) == if now > since then 2 else 0
  {
    SinceSnoc([], now, since);
    SinceSnoc([now], now, since);
    assert [] + [now] == [now] && [now] + [now] == [now, now];
  }

  /** What the breaker remembers about the respawns it granted by `now`: while
      open, all are a cooldown before it closes; while closed, it counts within
      the window at least as many crashes as it granted respawns. */
  ghost predicate Remembers(b: Breaker, grants: seq<Time>, now: Time) {
    && (forall since :: since >= now ==> Since(grants, since) == 0)
    && match b.openUntil
       case Some(until) =>
         until <= now + COOLDOWN && forall since :: since >= until - COOLDOWN ==> Since(grants, since) == 0
       case None =>
         forall since :: since >= now - WINDOW ==> Since(grants, since) <= Since(b.crashTimes, since)
  }

  lemma ProbeRemembers(grants: seq<Time>, until: Time, at: Time, more: seq<Time>)
    requires forall since :: since >= until - COOLDOWN ==> Since(grants, since) == 0
    requires until <= at && (more == [] || more == [at])
    ensures Remembers(Probing(at), grants + more, at)
  {
    forall since | since >= at - WINDOW
      ensures Since(grants + more, since) <= Since(Probing(at).crashTimes, since)
      ensures since >= at ==> Since(grants + more, since) == 0
    {
      ProbingSince(at, since);
      if more == [] {
        assert grants + more == grants;
      } else {
        SinceSnoc(grants, at, since);
      }
    }
  }

  lemma RespawnRemembers(b: Breaker, grants: seq<Time>, now: Time, at: Time)
    requires Remembers(b, grants, now) && now <= at && b.openUntil.None?
    ensures Remembers(Breaker(Recent(b.crashTimes + [at], at), None), grants + [at], at)
  {
    forall since | since >= at - WINDOW
      ensures Since(grants + [at], since) <= Since(Recent(b.crashTimes + [at], at), since)
      ensures since >= at ==> Since(grants + [at], since) == 0
    {
      RecentSince(b.crashTimes + [at], at, since);
      SinceSnoc(b.crashTimes, at, since);
      SinceSnoc(grants, at, since);
    }
  }

  lemma CrashRemembers(b: Breaker, grants: seq<Time>, now: Time, at: Time, jitter: real)
    requires Remembers(b, grants, now) && now <= at
    ensures var (next, verdict) := Crashed(b, at, jitter);
            Remembers(next, grants + (if verdict != CircuitOpen then [at] else []), at)
  {
    assert grants + [] == grants;
    match b.openUntil
    case Some(until) =>
      if at >= until {
        ProbeRemembers(grants, until, at, [at]);
      }
    case None => RespawnRemembers(b, grants, now, at);
  }

  lemma NextRemembers(b: Breaker, grants: seq<Time>, now: Time, e: Event)
    requires Remembers(b, grants, now) && now <= e.at
    ensures Remembers(Next(b, e),
                      grants + (if e.Crash? && Crashed(b, e.at, e.jitter).1 != CircuitOpen then [e.at] else []),
                      e.at)
  {
    assert grants + [] == grants;
    match e
    case Crash(at, jitter) => CrashRemembers(b, grants, now, at, jitter);
    case Refill(at) =>
      if b.openUntil.Some? && at >= b.openUntil.value {
        ProbeRemembers(grants, b.openUntil.value, at, []);
      }
    case Failed(at) =>
  }

  lemma {:induction false} RunRemembers(events: seq<Event>, k: nat)
    requires Timed(events) && k < |events|
    ensures Remembers(Before(events, k + 1), Grants(events, k + 1), events[k].at)
  {
    if k == 0 {
      assert Remembers(CLOSED, [], events[0].at);
      NextRemembers(CLOSED, [], events[0].at, events[0]);
      assert Before(events, 0) == CLOSED && Grants(events, 0) == [];
    } else {
      RunRemembers(events, k - 1);
      NextRemembers(Before(events, k), Grants(events, k), events[k - 1].at, events[k]);
    }
  }

  lemma FewCrashesAfterGrant(b: Breaker, at: Time, jitter: real)
    requires Crashed(b, at, jitter).1 != CircuitOpen
    ensures Crashed(b, at, jitter).0.openUntil.None? && |Crashed(b, at, jitter).0.crashTimes| <= 2
  {
  }

  /** A granted crash is at most the second within its window. */
  lemma GrantIsAtMostSecond(events: seq<Event>, k: nat)
    requires Timed(events) && k < |events| && Granted(events, k)
    ensures Since(Grants(events, k + 1), events[k].at - WINDOW) <= 2
  {
    RunRemembers(events, k);
    FewCrashesAfterGrant(Before(events, k), events[k].at, events[k].jitter);
  }

  lemma {:induction false} SinceGrows(events: seq<Event>, i: nat, k: nat, since: Time)
    requires i <= k <= |events|
    ensures Since(Grants(events, i), since) <= Since(Grants(events, k), since)
    decreases k
  {
    if i < k {
      var grants := Grants(events, k - 1);
      SinceGrows(events, i, k - 1, since);
      assert grants + [] == grants;
      SinceSnoc(grants, events[k - 1].at, since);
    }
  }

  /** A granted crash after `since` adds to the count at every later event. */
  lemma SinceGrant(events: seq<Event>, i: nat, k: nat, since: Time)
    requires i < k <= |events| && Granted(events, i) && events[i].at > since
    ensures Since(Grants(events, i), since) + 1 <= Since(Grants(events, k), since)
  {
    SinceSnoc(Grants(events, i), events[i].at, since);
    SinceGrows(events, i + 1, k, since);
  }

  /** Any three crashes within less than a minute include an open circuit. */
  lemma ThreeCrashesOpen(events: seq<Event>, i: nat, j: nat, k: nat)
    requires Timed(events) && i < j < k < |events|
    requires events[i].Crash? && events[j].Crash? && events[k].Crash?
    requires events[k].at - events[i].at < WINDOW
    ensures || VerdictAt(events, i) == CircuitOpen
            || VerdictAt(events, j) == CircuitOpen
            || VerdictAt(events, k) == CircuitOpen
  {
    if Granted(events, i) && Granted(events, j) && Granted(events, k) {
      var since := events[k].at - WINDOW;
      SinceGrant(events, i, j, since);
      SinceGrant(events, j, k, since);
      SinceGrant(events, k, k + 1, since);
      GrantIsAtMostSecond(events, k);
    }
  }

  // ---- Cooldowns ----------------------------------------------------------

  lemma NextWhileOpen(b: Breaker, e: Event, until: Time)
    requires b.openUntil.Some? && b.openUntil.value >= until && until <= e.at + COOLDOWN && e.at < until
    ensures Next(b, e).openUntil.Some? && Next(b, e).openUntil.value >= until
    ensures e.Crash? ==> Crashed(b, e.at, e.jitter).1 == CircuitOpen
    ensures e.Refill? ==> !Refilled(b, e.at).1
  {
  }

  /** Until an open circuit's time is up it stays open, and grants neither a
      respawn nor a refill. */
  lemma {:induction false} OpenCircuitBlocks(events: seq<Event>, i: nat, until: Time, k: nat)
    requires Timed(events) && i <= k < |events| && Before(events, i).openUntil == Some(until)
    requires events[k].at < until
    ensures Before(events, k).openUntil.Some? && Before(events, k).openUntil.value >= until
    ensures events[k].Crash? ==> VerdictAt(events, k) == CircuitOpen
    ensures events[k].Refill? ==> !Refilled(Before(events, k), events[k].at).1
    decreases k
  {
    if i > 0 {
      RunRemembers(events, i - 1);
      assert until <= events[i - 1].at + COOLDOWN;
    }
    if i < k {
      OpenCircuitBlocks(events, i, until, k - 1);
      NextWhileOpen(Before(events, k - 1), events[k - 1], until);
    }
    NextWhileOpen(Before(events, k), events[k], until);
  }

  /** The event at `p` is a half-open probe: of a crashed or of an empty slot. */
  ghost predicate ProbeAt(events: seq<Event>, p: nat)
    requires p < |events|
  {
    var b := Before(events, p);
    !events[p].Failed? && b.openUntil.Some? && events[p].at >= b.openUntil.value
  }

  /** The state of a slot less than a window after a probe, unless a crash or a
      failed spawn has opened the circuit again. */
  predicate OnProbation(b: Breaker, probe: Time) {
    b == Probing(probe) || (b.openUntil.Some? && b.openUntil.value >= probe + COOLDOWN)
  }

  lemma NextOnProbation(b: Breaker, probe: Time, e: Event)
    requires OnProbation(b, probe) && probe <= e.at < probe + WINDOW
    ensures OnProbation(Next(b, e), probe)
  {
    ThirdCrash(probe, e.at);
  }

  lemma {:induction false} WithinProbation(events: seq<Event>, p: nat, k: nat)
    requires Timed(events) && p < k <= |events| && ProbeAt(events, p)
    requires events[k - 1].at < events[p].at + WINDOW
    ensures OnProbation(Before(events, k), events[p].at)
    decreases k
  {
    if p + 1 < k {
      WithinProbation(events, p, k - 1);
      NextOnProbation(Before(events, k - 1), events[p].at, events[k - 1]);
    }
  }

  lemma ThirdCrash(probe: Time, at: Time)
    requires probe <= at < probe + WINDOW
    ensures Recent(Probing(probe).crashTimes + [at], at) == [probe, probe, at]
  {
    var s := [probe, probe, at];
    assert s[..2] == [probe, probe] && s[..2][..1] == [probe] && s[..2][..1][..0] == [];
    assert [probe, probe] + [at] == s;
    assert Recent([probe], at) == [probe];
    assert [probe, probe][..1] == [probe];
    assert Recent([probe, probe], at) == [probe, probe];
  }

  lemma CrashOnProbation(b: Breaker, probe: Time, at: Time, jitter: real)
    requires OnProbation(b, probe) && probe <= at < probe + WINDOW
    ensures Crashed(b, at, jitter).1 == CircuitOpen
    ensures Crashed(b, at, jitter).0.openUntil.Some?
    ensures Crashed(b, at, jitter).0.openUntil.value >= probe + COOLDOWN
    ensures b.openUntil.None? ==> Crashed(b, at, jitter).0.openUntil.value == at + COOLDOWN
  {
    ThirdCrash(probe, at);
  }

  /** A crash within a minute of a half-open probe finds or opens the circuit,
      which then stays open for a cooldown from the probe, and for a cooldown
      from the crash when it was closed before. */
  lemma CrashAfterProbeReopens(events: seq<Event>, p: nat, k: nat)
    requires Timed(events) && p < k < |events| && ProbeAt(events, p)
    requires events[k].Crash? && events[k].at < events[p].at + WINDOW
    ensures VerdictAt(events, k) == CircuitOpen
    ensures Before(events, k + 1).openUntil.Some?
    ensures Before(events, k + 1).openUntil.value >= events[p].at + COOLDOWN
    ensures Before(events, k).openUntil.None? ==>
              Before(events, k + 1).openUntil.value == events[k].at + COOLDOWN
  {
    WithinProbation(events, p, k);
    CrashOnProbation(Before(events, k), events[p].at, events[k].at, events[k].jitter);
  }

  // ---- The verdict --------------------------------------------------------

  lemma {:induction false} RecentCount(times: seq<Time>, now: Time)
    ensures |Recent(times, now)| == Since(times, now - 60 * SECOND)
  {
    if times != [] {
      RecentCount(times[..|times| - 1], now);
    }
  }

  /** A crash must wait: the circuit is open, or this is the third within a minute. */
  predicate CrashIsRefused(b: Breaker, now: Time) {
    match b.openUntil
    case Some(until) => now < until
    case None => Since(b.crashTimes, now - 60 * SECOND) >= 2
  }

  /** The verdict on a crash, exactly: refused; or a probe, when the circuit was
      open and its time is up; or a respawn. */
  lemma VerdictIff(b: Breaker, now: Time, jitter: real)
    ensures
      var (after, verdict) := Crashed(b, now, jitter);
      && (verdict.CircuitOpen? <==> CrashIsRefused(b, now))
      && (verdict.HalfOpenProbe? <==> !CrashIsRefused(b, now) && b.openUntil.Some?)
      && (verdict.Respawn? <==> !CrashIsRefused(b, now) && b.openUntil.None?)
      && (verdict.CircuitOpen? && b.openUntil.None? ==> after.openUntil == Some(now + 300 * SECOND))
      && (verdict.CircuitOpen? && b.openUntil.Some? ==> after == b)
      && (!verdict.CircuitOpen? ==> after.openUntil.None?)
  {
    RecentCount(b.crashTimes + [now], now);
    SinceSnoc(b.crashTimes, now, now - 60 * SECOND);
  }

  /** A closed circuit remembers exactly the crashes of the last minute and the
      new one; after a probe it is one crash short of opening. */
  lemma CrashIsRecorded(b: Breaker, now: Time, jitter: real, since: Time)
    requires since >= now - 60 * SECOND
    ensures b.openUntil.None? ==>
              Since(Crashed(b, now, jitter).0.crashTimes, since) == Since(b.crashTimes, since) + (if now > since then 1 else 0)
    ensures b.openUntil.Some? && now >= b.openUntil.value ==>
              Since(Crashed(b, now, jitter).0.crashTimes, since) == if now > since then 2 else 0
  {
    RecentSince(b.crashTimes + [now], now, since);
    SinceSnoc(b.crashTimes, now, since);
    ProbingSince(now, since);
  }

  /** A refill is refused exactly while the circuit is open; one granted after
      that leaves the slot one crash short of opening again. */
  lemma RefillIff(b: Breaker, now: Time)
    ensures
      var (after, allowed) := Refilled(b, now);
      && (allowed <==> b.openUntil.None? || now >= b.openUntil.value)
      && (!allowed || b.openUntil.None? ==> after == b)
      && (allowed ==> after.openUntil.None?)
      && (allowed && b.openUntil.Some? ==> Since(after.crashTimes, now - 60 * SECOND) == 2)
  {
    ProbingSince(now, now - 60 * SECOND);
  }

  /** What the breaker remembers is no newer than the last event. */
  ghost predicate NoNewerThan(b: Breaker, last: Time) {
    Since(b.crashTimes, last) == 0 && (b.openUntil.Some? ==> b.openUntil.value <= last + COOLDOWN)
  }

  lemma NewerStep(b: Breaker, last: Time, e: Event)
    requires NoNewerThan(b, last) && last <= e.at
    ensures NoNewerThan(Next(b, e), e.at)
  {
    SinceMonotone(b.crashTimes, last, e.at);
    if e.Crash? {
      RecentSince(b.crashTimes + [e.at], e.at, e.at);
      SinceSnoc(b.crashTimes, e.at, e.at);
    }
    ProbingSince(e.at, e.at);
  }

  lemma {:induction false} SinceMonotone(times: seq<Time>, early: Time, late: Time)
    requires early <= late
    ensures Since(times, late) <= Since(times, early)
  {
    if times != [] {
      SinceMonotone(times[..|times| - 1], early, late);
    }
  }

  lemma {:induction false} RunIsNoNewer(events: seq<Event>, k: nat)
    requires Timed(events) && k < |events|
    ensures NoNewerThan(Before(events, k + 1), events[k].at)
  {
    if k == 0 {
      NewerStep(Before(events, 0), events[0].at, events[0]);
    } else {
      RunIsNoNewer(events, k - 1);
      NewerStep(Before(events, k), events[k - 1].at, events[k]);
    }
  }

  lemma QuietIsGranted(b: Breaker, last: Time, at: Time, jitter: real)
    requires NoNewerThan(b, last) && at >= last + 300 * SECOND
    ensures !Crashed(b, at, jitter).1.CircuitOpen? && Refilled(b, at).1
  {
    SinceMonotone(b.crashTimes, last, at - 60 * SECOND);
    VerdictIff(b, at, jitter);
  }

  /** In every run, a crash or refill five minutes or more after everything else
      that happened to the slot is granted. */
  lemma QuietSlotIsGranted(events: seq<Event>, k: nat)
    requires Timed(events) && k < |events| && (k > 0 ==> events[k].at >= events[k - 1].at + 300 * SECOND)
    ensures events[k].Crash? ==> Granted(events, k)
    ensures events[k].Refill? ==> Refilled(Before(events, k), events[k].at).1
  {
    var at, jitter := events[k].at, if events[k].Crash? then events[k].jitter else 0.0;
    if k > 0 {
      RunIsNoNewer(events, k - 1);
      QuietIsGranted(Before(events, k), events[k - 1].at, at, jitter);
    } else {
      QuietIsGranted(CLOSED, at - 300 * SECOND, at, jitter);
    }
  }

  // ---- Backoff ------------------------------------------------------------

  lemma BackoffOf(recent: nat, jitter: real)
    requires 1 <= recent <= 2 && 0.0 <= jitter < 1.0
    ensures recent == 1 ==> 0.8 <= Backoff(recent, jitter) < 1.2
    ensures recent == 2 ==> 1.6 <= Backoff(recent, jitter) < 2.4
  {
    assert Power2(0) == 1 && Power2(1) == 2;
    var factor := 0.8 + jitter * 0.4;
    assert 0.8 <= factor < 1.2;
    assert Backoff(recent, jitter) == (if recent == 1 then 1.0 else 2.0) * factor;
  }

  /** The first crash of a window backs off 0.8 to 1.2 seconds, the second 1.6 to
      2.4; the 30-second maximum is never reached. */
  lemma BackoffRange(events: seq<Event>, k: nat)
    requires k < |events| && events[k].Crash? && 0.0 <= events[k].jitter < 1.0
    requires VerdictAt(events, k).Respawn?
    ensures var d, recent := VerdictAt(events, k).delay, |Before(events, k + 1).crashTimes|;
            (recent == 1 && 0.8 <= d < 1.2) || (recent == 2 && 1.6 <= d < 2.4)
  {
    var recent := |Before(events, k + 1).crashTimes|;
    assert 1 <= recent <= 2;
    BackoffOf(recent, events[k].jitter);
  }
}
