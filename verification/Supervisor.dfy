/** Who owns each agent slot: the pool, a prompt task or a respawn task
    (crates/buzz-acp/src/lib.rs:1167-1223, 1678-1682, 1811-1878, 3156-3173,
    3524-3620 and 3773-3822; crates/buzz-acp/src/pool.rs:593-625 and 718-728). */
module Supervisor {
  import opened Options
  import opened Circuit

  type TaskId = nat

  datatype RespawnResult = RespawnResult(index: nat, ok: bool)

  // ---- The bounded result channel and its guard ---------------------------

  /** `try_send` on a channel of the given capacity: a full channel drops the result. */
  function Offered(queue: seq<RespawnResult>, capacity: nat, r: RespawnResult): seq<RespawnResult> {
    if |queue| < capacity then queue + [r] else queue
  }

  class ResultChannel {
    const capacity: nat
    var queue: seq<RespawnResult>

    constructor (capacity: nat)
      ensures this.capacity == capacity && queue == []
    {
      this.capacity := capacity;
      queue := [];
    }

    method TrySend(r: RespawnResult) returns (accepted: bool)
      modifies this
      ensures queue == Offered(old(queue), capacity, r)
      ensures accepted <==> |old(queue)| < capacity
    {
      accepted := |queue| < capacity;
      if accepted {
        queue := queue + [r];
      }
    }
  }

  class RespawnGuard {
    const index: nat
    const tx: ResultChannel
    var sent: bool

    constructor (index: nat, tx: ResultChannel)
      ensures this.index == index && this.tx == tx && !sent
    {
      this.index := index;
      this.tx := tx;
      sent := false;
    }

    /** `send`: disarms the guard only if the result was accepted. */
    method Send(ok: bool)
      modifies this, tx
      ensures sent == (old(sent) || |old(tx.queue)| < tx.capacity)
      ensures tx.queue == Offered(old(tx.queue), tx.capacity, RespawnResult(index, ok))
    {
      var accepted := tx.TrySend(RespawnResult(index, ok));
      if accepted {
        sent := true;
      }
    }

    /** `drop`: an armed guard reports a failure. */
    method Drop()
      modifies tx
      ensures tx.queue ==
        if sent then old(tx.queue) else Offered(old(tx.queue), tx.capacity, RespawnResult(index, false))
    {
      if !sent {
        var _ := tx.TrySend(RespawnResult(index, false));
      }
    }
  }

  /** How a respawn task ends: with its own result, or by a panic or an abort. */
  datatype Ending = Completed(ok: bool) | Unwound

  predicate Succeeded(e: Ending) {
    e.Completed? && e.ok
  }

  /** A respawn task from the guard's creation to its drop. With room in the
      channel it leaves exactly one result, whichever way it ends. */
  method RunRespawnTask(index: nat, tx: ResultChannel, ending: Ending)
    modifies tx
    ensures tx.queue == Offered(old(tx.queue), tx.capacity, RespawnResult(index, Succeeded(ending)))
  {
    var guard := new RespawnGuard(index, tx);
    if ending.Completed? {
      guard.Send(ending.ok);
    }
    guard.Drop();
  }

  // ---- What the main loop keeps -------------------------------------------

  /** Agents idle in their slots, `task_map`, one breaker and one flag per
      slot, the respawn tasks under way and their result channel. */
  datatype Loop = Loop(
    idle: seq<bool>,
    tasks: map<TaskId, nat>,
    breakers: seq<Breaker>,
    inFlight: seq<bool>,
    running: multiset<nat>,
    queue: seq<RespawnResult>)

  /** What a finished prompt means for its agent. */
  datatype Fate = GiveBack | Crash(now: Time, jitter: real)

  predicate Sized(l: Loop) {
    && |l.idle| == |l.breakers| == |l.inFlight|
    && (forall t | t in l.tasks :: l.tasks[t] < |l.idle|)
    && (forall r | r in l.queue :: r.index < |l.idle|)
  }

  function Claimed(l: Loop, i: nat, t: TaskId): Loop
    requires i < |l.idle|
  {
    l.(idle := l.idle[i := false], tasks := l.tasks[t := i])
  }

  function Spawned(l: Loop, i: nat): Loop
    requires i < |l.inFlight|
  {
    l.(inFlight := l.inFlight[i := true], running := l.running + multiset{i})
  }

  /** A crash is recorded; the circuit decides whether a respawn starts. */
  function CrashedAt(l: Loop, i: nat, now: Time, jitter: real): Loop
    requires i < |l.breakers| && i < |l.inFlight|
  {
    var (b, verdict) := Crashed(l.breakers[i], now, jitter);
    var recorded := l.(breakers := l.breakers[i := b]);
    if verdict.CircuitOpen? then recorded else Spawned(recorded, i)
  }

  /** `task_map` without the tasks of agent `i`. */
  function Without(tasks: map<TaskId, nat>, i: nat): map<TaskId, nat> {
    map t | t in tasks && tasks[t] != i :: tasks[t]
  }

  function Settled(l: Loop, i: nat, fate: Fate): Loop
    requires i < |l.idle| && i < |l.breakers| && i < |l.inFlight|
  {
    var m := l.(tasks := Without(l.tasks, i));
    match fate
    case GiveBack => m.(idle := m.idle[i := true])
    case Crash(now, jitter) => CrashedAt(m, i, now, jitter)
  }

  function Recovered(l: Loop, t: TaskId, now: Time, jitter: real): Loop
    requires Sized(l)
  {
    if t in l.tasks then CrashedAt(l.(tasks := l.tasks - {t}), l.tasks[t], now, jitter) else l
  }

  /** `slot_alive`: idle in the pool or checked out. */
  predicate Alive(l: Loop, i: nat)
    requires i < |l.idle|
  {
    l.idle[i] || i in l.tasks.Values
  }

  function RefilledAt(l: Loop, i: nat, now: Time): Loop
    requires Sized(l) && i < |l.idle|
  {
    if Alive(l, i) || l.inFlight[i] then l
    else
      var (b, allowed) := Refilled(l.breakers[i], now);
      var recorded := l.(breakers := l.breakers[i := b]);
      if allowed then Spawned(recorded, i) else recorded
  }

  /** A respawn task for slot `i` has ended and left its result. */
  function Ended(l: Loop, i: nat, ending: Ending): Loop {
    l.(running := l.running - multiset{i},
       queue := Offered(l.queue, |l.idle|, RespawnResult(i, Succeeded(ending))))
  }

  function Collected(l: Loop, now: Time): Loop
    requires Sized(l) && l.queue != []
  {
    var r := l.queue[0];
    var m := l.(inFlight := l.inFlight[r.index := false], queue := l.queue[1..]);
    if r.ok then m.(idle := m.idle[r.index := true])
    else m.(breakers := m.breakers[r.index := SpawnFailed(m.breakers[r.index], now)])
  }

  /** The slots from `i` on, refilled in order. */
  function RefilledFrom(l: Loop, now: Time, i: nat): Loop
    requires Sized(l) && i <= |l.idle|
    decreases |l.idle| - i
  {
    if i == |l.idle| then l else RefilledFrom(RefilledAt(l, i, now), now, i + 1)
  }

  lemma RefilledSized(l: Loop, i: nat, now: Time)
    requires Sized(l) && i < |l.idle|
    ensures Sized(RefilledAt(l, i, now)) && |RefilledAt(l, i, now).idle| == |l.idle|
  {
  }

  function CollectedAll(l: Loop, now: Time): Loop
    requires Sized(l)
    decreases |l.queue|
  {
    if l.queue == [] then l else CollectedAll(Collected(l, now), now)
  }

  class MainLoop {
    var agents: seq<bool>
    var taskMap: map<TaskId, nat>
    var circuits: seq<Breaker>
    var respawnInFlight: seq<bool>
    var respawnTasks: multiset<nat>
    var respawnRx: seq<RespawnResult>

    function Value(): Loop
      reads this
    {
      Loop(agents, taskMap, circuits, respawnInFlight, respawnTasks, respawnRx)
    }

    /** `AgentPool::from_slots`, with one closed breaker per slot, filled or not. */
    constructor (slots: seq<bool>)
      ensures Value() == StartLoop(slots)
    {
      agents, circuits, respawnInFlight := slots, seq(|slots|, _ => CLOSED), seq(|slots|, _ => false);
      taskMap, respawnTasks, respawnRx := map[], multiset{}, [];
    }

    /** `try_claim` of slot `i` and the `task_map` entry of the prompt task started for it. */
    method Dispatch(i: nat, t: TaskId)
      requires Sized(Value()) && i < |agents|
      modifies this
      ensures Value() == Claimed(old(Value()), i, t)
    {
      agents := agents[i := false];
      taskMap := taskMap[t := i];
    }

    /** `spawn_respawn_task`, and the end of `recover_panicked_agent`. */
    method SpawnRespawnTask(i: nat, now: Time, jitter: real) returns (spawned: bool)
      requires Sized(Value()) && i < |agents|
      modifies this
      ensures Value() == CrashedAt(old(Value()), i, now, jitter)
      ensures spawned <==> !Crashed(old(circuits)[i], now, jitter).1.CircuitOpen?
    {
      var (breaker, verdict) := Crashed(circuits[i], now, jitter);
      circuits := circuits[i := breaker];
      if verdict.CircuitOpen? {
        return false;
      }
      respawnInFlight := respawnInFlight[i := true];
      respawnTasks := respawnTasks + multiset{i};
      spawned := true;
    }

    /** The ownership part of `handle_prompt_result`. */
    method HandlePromptResult(i: nat, fate: Fate)
      requires Sized(Value()) && i < |agents|
      modifies this
      ensures Value() == Settled(old(Value()), i, fate)
    {
      taskMap := map t | t in taskMap && taskMap[t] != i :: taskMap[t];
      match fate {
        case GiveBack =>
          agents := agents[i := true];
        case Crash(now, jitter) =>
          var _ := SpawnRespawnTask(i, now, jitter);
      }
    }

    /** The ownership part of `recover_panicked_agent`. */
    method RecoverPanickedAgent(t: TaskId, now: Time, jitter: real)
      requires Sized(Value())
      modifies this
      ensures Value() == Recovered(old(Value()), t, now, jitter)
    {
      if t !in taskMap {
        return;
      }
      var i := taskMap[t];
      taskMap := taskMap - {t};
      var _ := SpawnRespawnTask(i, now, jitter);
    }

    /** The slot refill of the maintenance pass. */
    method RefillSlots(now: Time)
      requires Sized(Value())
      modifies this
      ensures Value() == RefilledFrom(old(Value()), now, 0)
    {
      ghost var goal := RefilledFrom(Value(), now, 0);
      var n := |agents|;
      for i := 0 to n
        invariant n == |agents| && Sized(Value())
        invariant goal == RefilledFrom(Value(), now, i)
      {
        RefilledSized(Value(), i, now);
        RefillSlot(i, now);
      }
    }

    /** One slot of it. */
    method RefillSlot(i: nat, now: Time)
      requires Sized(Value()) && i < |agents|
      modifies this
      ensures Value() == RefilledAt(old(Value()), i, now)
    {
      if agents[i] || i in taskMap.Values || respawnInFlight[i] {
        return;
      }
      var (breaker, allowed) := Refilled(circuits[i], now);
      circuits := circuits[i := breaker];
      if allowed {
        respawnInFlight := respawnInFlight[i := true];
        respawnTasks := respawnTasks + multiset{i};
      }
    }

    /** Takes every respawn result there is. */
    method CollectRespawns(now: Time)
      requires Sized(Value())
      modifies this
      ensures Value() == CollectedAll(old(Value()), now)
    {
      while respawnRx != []
        invariant Sized(Value())
        invariant CollectedAll(Value(), now) == CollectedAll(old(Value()), now)
        decreases |respawnRx|
      {
        ghost var before := Value();
        var r := respawnRx[0];
        respawnRx := respawnRx[1..];
        respawnInFlight := respawnInFlight[r.index := false];
        if r.ok {
          agents := agents[r.index := true];
        } else {
          circuits := circuits[r.index := SpawnFailed(circuits[r.index], now)];
        }
        assert Value() == Collected(before, now);
      }
    }
  }

  /** Before anything happened; a slot whose agent failed to start is empty. */
  function StartLoop(slots: seq<bool>): Loop {
    Loop(slots, map[], seq(|slots|, _ => CLOSED), seq(|slots|, _ => false), multiset{}, [])
  }

  // ---- The whole supervisor -----------------------------------------------

  /** What a prompt task has done: it still holds its agent, has sent its
      result, or has panicked and lost the agent. */
  datatype Doing = Working | Finished | Panicked

  /** The main loop, the prompt tasks, and counts of respawns started and results collected. */
  datatype State = State(
    loop: Loop,
    doing: map<TaskId, Doing>,
    started: multiset<nat>,
    collected: multiset<nat>)

  datatype Step =
    | Claim(i: nat, t: TaskId)
    | Finish(t: TaskId)
    | Panic(t: TaskId)
    | Settle(t: TaskId, fate: Fate)
    | Recover(t: TaskId, now: Time, jitter: real)
    | Refill(i: nat, now: Time)
    | End(i: nat, ending: Ending)
    | Collect(now: Time)

  predicate Enabled(s: State, step: Step) {
    match step
    case Claim(i, t) => i < |s.loop.idle| && s.loop.idle[i] && t !in s.loop.tasks
    case Finish(t) => t in s.doing && s.doing[t].Working?
    case Panic(t) => t in s.doing && s.doing[t].Working?
    case Settle(t, _) => t in s.doing && s.doing[t].Finished?
    case Recover(t, _, _) => t in s.doing && s.doing[t].Panicked?
    case Refill(i, _) => i < |s.loop.idle|
    case End(i, _) => i in s.loop.running
    case Collect(_) => s.loop.queue != []
  }

  /** Respawns a loop step has just started. */
  function NewlyRunning(before: Loop, after: Loop): multiset<nat> {
    after.running - before.running
  }

  function Next(s: State, step: Step): State
    requires Sized(s.loop) && s.doing.Keys == s.loop.tasks.Keys && Enabled(s, step)
  {
    match step
    case Claim(i, t) => s.(loop := Claimed(s.loop, i, t), doing := s.doing[t := Working])
    case Finish(t) => s.(doing := s.doing[t := Finished])
    case Panic(t) => s.(doing := s.doing[t := Panicked])
    case Settle(t, fate) => Moved(s, Settled(s.loop, s.loop.tasks[t], fate)).(doing := s.doing - {t})
    case Recover(t, now, jitter) => Moved(s, Recovered(s.loop, t, now, jitter)).(doing := s.doing - {t})
    case Refill(i, now) => Moved(s, RefilledAt(s.loop, i, now))
    case End(i, ending) => s.(loop := Ended(s.loop, i, ending))
    case Collect(now) =>
      s.(loop := Collected(s.loop, now), collected := s.collected + multiset{s.loop.queue[0].index})
  }

  function Moved(s: State, after: Loop): State {
    s.(loop := after, started := s.started + NewlyRunning(s.loop, after))
  }

  function Start(slots: seq<bool>): State {
    State(StartLoop(slots), map[], multiset{}, multiset{})
  }

  // ---- Invariants ---------------------------------------------------------

  function Queued(queue: seq<RespawnResult>): multiset<nat> {
    if queue == [] then multiset{} else multiset{queue[0].index} + Queued(queue[1..])
  }

  /** No two prompt tasks hold the same agent. */
  ghost predicate OneTaskEach(l: Loop) {
    forall t, u | t in l.tasks && u in l.tasks && l.tasks[t] == l.tasks[u] :: t == u
  }

  /** A slot has at most one owner: the pool, a prompt task or a respawn. */
  ghost predicate OneOwner(l: Loop)
    requires Sized(l)
  {
    forall i | 0 <= i < |l.idle| ::
      && !(l.idle[i] && i in l.tasks.Values)
      && !(l.inFlight[i] && Alive(l, i))
  }

  /** The flag stands for exactly one respawn, running or with its result waiting. */
  ghost predicate FlagsCount(l: Loop)
    requires Sized(l)
  {
    && (forall i | 0 <= i < |l.idle| :: l.running[i] + Queued(l.queue)[i] == if l.inFlight[i] then 1 else 0)
    && (forall i | i in l.running :: i < |l.idle|)
  }

  ghost predicate Owned(l: Loop) {
    Sized(l) && OneTaskEach(l) && OneOwner(l) && FlagsCount(l)
  }

  /** Every respawn started is running, waiting with its result, or collected. */
  ghost predicate Balanced(s: State) {
    s.started == s.collected + (s.loop.running + Queued(s.loop.queue))
  }

  ghost predicate Invariant(s: State) {
    Owned(s.loop) && s.doing.Keys == s.loop.tasks.Keys && Balanced(s)
  }

  // ---- The channel never fills --------------------------------------------

  lemma {:induction false} QueuedSize(queue: seq<RespawnResult>)
    ensures |Queued(queue)| == |queue|
  {
    if queue != [] {
      QueuedSize(queue[1..]);
    }
  }

  lemma {:induction false} QueuedPush(queue: seq<RespawnResult>, r: RespawnResult)
    ensures Queued(queue + [r]) == Queued(queue) + multiset{r.index}
  {
    if queue == [] {
      assert ([] + [r])[1..] == [];
    } else {
      QueuedPush(queue[1..], r);
      assert (queue + [r])[1..] == queue[1..] + [r];
    }
  }

  /** A multiset with at most one of each number below `n` has at most `n` elements. */
  lemma {:induction false} AtMostOneEach(m: multiset<nat>, n: nat)
    requires forall i | i in m :: i < n && m[i] == 1
    ensures |m| <= n
  {
    if n == 0 {
      assert m == multiset{};
    } else {
      var rest := m[n - 1 := 0];
      AtMostOneEach(rest, n - 1);
      assert m == rest + multiset{n - 1} || m == rest;
    }
  }

  lemma PendingFits(l: Loop)
    requires Sized(l) && FlagsCount(l)
    ensures |l.running| + |l.queue| <= |l.idle|
  {
    var pending := l.running + Queued(l.queue);
    QueuedIndices(l.queue);
    forall i | i in pending ensures i < |l.idle| && pending[i] == 1 {
      assert pending[i] > 0;
    }
    AtMostOneEach(pending, |l.idle|);
    QueuedSize(l.queue);
  }

  lemma {:induction false} QueuedIndices(queue: seq<RespawnResult>)
    ensures forall i | i in Queued(queue) :: exists r | r in queue :: r.index == i
  {
    if queue != [] {
      QueuedIndices(queue[1..]);
      forall i | i in Queued(queue) ensures exists r | r in queue :: r.index == i {
        if i == queue[0].index {
          assert queue[0] in queue;
        } else {
          assert i in Queued(queue[1..]);
          var r :| r in queue[1..] && r.index == i;
          assert r in queue;
        }
      }
    }
  }

  /** So a respawn task that ends always finds room, and its one result is queued. */
  lemma EndingIsAccepted(l: Loop, i: nat, ending: Ending)
    requires Sized(l) && FlagsCount(l) && i in l.running
    ensures Ended(l, i, ending).queue == l.queue + [RespawnResult(i, Succeeded(ending))]
  {
    PendingFits(l);
    assert |l.running| > 0;
  }

  // ---- Every step keeps the invariants ------------------------------------

  /** No owner at all: what must hold for a respawn to start. */
  predicate Vacant(l: Loop, i: nat)
    requires i < |l.idle| && i < |l.inFlight|
  {
    !Alive(l, i) && !l.inFlight[i]
  }

  lemma SpawnKeeps(l: Loop, i: nat)
    requires Owned(l) && i < |l.idle| && Vacant(l, i)
    ensures Owned(Spawned(l, i))
  {
    var m := Spawned(l, i);
    assert forall j | 0 <= j < |l.idle| :: Alive(m, j) == Alive(l, j);
  }

  lemma BreakerKeeps(l: Loop, i: nat, b: Breaker)
    requires Owned(l) && i < |l.idle|
    ensures Owned(l.(breakers := l.breakers[i := b]))
  {
    var m := l.(breakers := l.breakers[i := b]);
    assert forall j | 0 <= j < |l.idle| :: Alive(m, j) == Alive(l, j);
  }

  lemma CrashKeeps(l: Loop, i: nat, now: Time, jitter: real)
    requires Owned(l) && i < |l.idle| && Vacant(l, i)
    ensures Owned(CrashedAt(l, i, now, jitter))
  {
    var b := Crashed(l.breakers[i], now, jitter).0;
    BreakerKeeps(l, i, b);
    SpawnKeeps(l.(breakers := l.breakers[i := b]), i);
  }

  lemma ReturnKeeps(l: Loop, i: nat)
    requires Owned(l) && i < |l.idle| && Vacant(l, i)
    ensures Owned(l.(idle := l.idle[i := true]))
  {
  }

  /** Taking task `t` off the map leaves its slot without an owner. */
  lemma TaskLeaves(l: Loop, t: TaskId)
    requires Owned(l) && t in l.tasks
    ensures Without(l.tasks, l.tasks[t]) == l.tasks - {t}
    ensures Owned(l.(tasks := l.tasks - {t})) && Vacant(l.(tasks := l.tasks - {t}), l.tasks[t])
  {
    var i := l.tasks[t];
    var m := l.(tasks := l.tasks - {t});
    assert i in l.tasks.Values;
    assert forall j | 0 <= j < |l.idle| :: Alive(m, j) ==> Alive(l, j);
  }

  lemma ClaimKeeps(l: Loop, i: nat, t: TaskId)
    requires Owned(l) && i < |l.idle| && l.idle[i] && t !in l.tasks
    ensures Owned(Claimed(l, i, t))
  {
    var m := Claimed(l, i, t);
    assert forall u | u in l.tasks :: m.tasks[u] == l.tasks[u] && l.tasks[u] in l.tasks.Values;
    assert m.tasks[t] == i;
    forall j ensures j in m.tasks.Values <==> j in l.tasks.Values || j == i {
      if j in l.tasks.Values {
        var u :| u in l.tasks && l.tasks[u] == j;
        assert m.tasks[u] == j;
      }
    }
    assert i !in l.tasks.Values;
  }

  lemma SettleKeeps(l: Loop, t: TaskId, fate: Fate)
    requires Owned(l) && t in l.tasks
    ensures Owned(Settled(l, l.tasks[t], fate))
    ensures Settled(l, l.tasks[t], fate).tasks == l.tasks - {t} && Continues(l, Settled(l, l.tasks[t], fate))
  {
    var i := l.tasks[t];
    var m := l.(tasks := l.tasks - {t});
    TaskLeaves(l, t);
    match fate {
      case GiveBack => ReturnKeeps(m, i);
      case Crash(now, jitter) => CrashKeeps(m, i, now, jitter);
    }
  }

  lemma RecoverKeeps(l: Loop, t: TaskId, now: Time, jitter: real)
    requires Owned(l) && t in l.tasks
    ensures Owned(Recovered(l, t, now, jitter))
    ensures Recovered(l, t, now, jitter).tasks == l.tasks - {t} && Continues(l, Recovered(l, t, now, jitter))
  {
    TaskLeaves(l, t);
    CrashKeeps(l.(tasks := l.tasks - {t}), l.tasks[t], now, jitter);
  }

  lemma RefillKeeps(l: Loop, i: nat, now: Time)
    requires Owned(l) && i < |l.idle|
    ensures Owned(RefilledAt(l, i, now)) && RefilledAt(l, i, now).tasks == l.tasks
    ensures Continues(l, RefilledAt(l, i, now))
  {
    if Vacant(l, i) {
      var b := Refilled(l.breakers[i], now).0;
      BreakerKeeps(l, i, b);
      SpawnKeeps(l.(breakers := l.breakers[i := b]), i);
    }
  }

  lemma EndMoves(l: Loop, i: nat, ending: Ending)
    requires Sized(l) && FlagsCount(l) && i in l.running
    ensures Sized(Ended(l, i, ending))
    ensures Ended(l, i, ending).running + Queued(Ended(l, i, ending).queue) == l.running + Queued(l.queue)
  {
    EndingIsAccepted(l, i, ending);
    QueuedPush(l.queue, RespawnResult(i, Succeeded(ending)));
  }

  lemma EndKeeps(l: Loop, i: nat, ending: Ending)
    requires Owned(l) && i in l.running
    ensures Owned(Ended(l, i, ending))
  {
    EndMoves(l, i, ending);
    SameOwners(l, Ended(l, i, ending));
    SameFlags(l, Ended(l, i, ending));
  }

  lemma SameOwners(l: Loop, m: Loop)
    requires Sized(l) && OneTaskEach(l) && OneOwner(l)
    requires Sized(m) && m.idle == l.idle && m.tasks == l.tasks && m.inFlight == l.inFlight
    ensures OneTaskEach(m) && OneOwner(m)
  {
    assert forall j | 0 <= j < |l.idle| :: Alive(m, j) == Alive(l, j);
  }

  lemma SameFlags(l: Loop, m: Loop)
    requires Sized(l) && FlagsCount(l)
    requires Sized(m) && |m.idle| == |l.idle| && m.inFlight == l.inFlight && m.running <= l.running
    requires m.running + Queued(m.queue) == l.running + Queued(l.queue)
    ensures FlagsCount(m)
  {
    forall j ensures m.running[j] + Queued(m.queue)[j] == l.running[j] + Queued(l.queue)[j] {
      assert (m.running + Queued(m.queue))[j] == (l.running + Queued(l.queue))[j];
    }
  }

  lemma CollectKeeps(l: Loop, now: Time)
    requires Owned(l) && l.queue != []
    ensures Owned(Collected(l, now)) && !Alive(l, l.queue[0].index)
    ensures Queued(l.queue) == multiset{l.queue[0].index} + Queued(Collected(l, now).queue)
  {
    var r := l.queue[0];
    var m := l.(inFlight := l.inFlight[r.index := false], queue := l.queue[1..]);
    assert Queued(l.queue)[r.index] == 1 + Queued(m.queue)[r.index];
    assert l.inFlight[r.index];
    assert forall j | 0 <= j < |l.idle| :: Alive(m, j) == Alive(l, j);
    assert forall j | 0 <= j < |l.idle| && j != r.index :: Queued(l.queue)[j] == Queued(m.queue)[j];
    assert Owned(m) && Vacant(m, r.index);
    if r.ok {
      ReturnKeeps(m, r.index);
    } else {
      BreakerKeeps(m, r.index, SpawnFailed(m.breakers[r.index], now));
    }
  }

  /** The loop collected nothing and may have started respawns. */
  predicate Continues(before: Loop, after: Loop) {
    after.queue == before.queue && before.running <= after.running
  }

  lemma Books(started: multiset<nat>, collected: multiset<nat>, was: multiset<nat>, now: multiset<nat>)
    requires started == collected + was && was <= now
    ensures started + (now - was) == collected + now
  {
  }

  lemma MovedBalanced(s: State, after: Loop)
    requires Balanced(s) && Continues(s.loop, after)
    ensures Balanced(Moved(s, after))
  {
    var q := Queued(s.loop.queue);
    Books(s.started, s.collected, s.loop.running + q, after.running + q);
    assert (after.running + q) - (s.loop.running + q) == NewlyRunning(s.loop, after);
  }

  lemma TaskStepKeeps(s: State, step: Step)
    requires Invariant(s) && Enabled(s, step) && (step.Settle? || step.Recover?)
    ensures Invariant(Next(s, step))
  {
    match step {
      case Settle(t, fate) =>
        SettleKeeps(s.loop, t, fate);
        MovedBalanced(s, Settled(s.loop, s.loop.tasks[t], fate));
      case Recover(t, now, jitter) =>
        RecoverKeeps(s.loop, t, now, jitter);
        MovedBalanced(s, Recovered(s.loop, t, now, jitter));
    }
  }

  lemma RefillStepKeeps(s: State, i: nat, now: Time)
    requires Invariant(s) && i < |s.loop.idle|
    ensures Invariant(Moved(s, RefilledAt(s.loop, i, now)))
  {
    var after := RefilledAt(s.loop, i, now);
    RefillKeeps(s.loop, i, now);
    MovedKeeps(s, after);
  }

  lemma MovedKeeps(s: State, after: Loop)
    requires Invariant(s) && Owned(after) && after.tasks == s.loop.tasks && Continues(s.loop, after)
    ensures Invariant(Moved(s, after))
  {
    MovedBalanced(s, after);
  }

  lemma EndStepKeeps(s: State, i: nat, ending: Ending)
    requires Invariant(s) && i in s.loop.running
    ensures Invariant(Next(s, End(i, ending)))
  {
    EndKeeps(s.loop, i, ending);
    EndMoves(s.loop, i, ending);
  }

  lemma CollectStepKeeps(s: State, now: Time)
    requires Invariant(s) && s.loop.queue != []
    ensures Invariant(Next(s, Collect(now)))
  {
    CollectKeeps(s.loop, now);
  }

  lemma ClaimStepKeeps(s: State, i: nat, t: TaskId)
    requires Invariant(s) && Enabled(s, Claim(i, t))
    ensures Invariant(Next(s, Claim(i, t)))
  {
    ClaimKeeps(s.loop, i, t);
  }

  lemma StepKeeps(s: State, step: Step)
    requires Invariant(s) && Enabled(s, step)
    ensures Invariant(Next(s, step))
  {
    match step {
      case Claim(i, t) => ClaimStepKeeps(s, i, t);
      case Finish(_) =>
      case Panic(_) =>
      case Settle(_, _) => TaskStepKeeps(s, step);
      case Recover(_, _, _) => TaskStepKeeps(s, step);
      case Refill(i, now) => RefillStepKeeps(s, i, now);
      case End(i, ending) => EndStepKeeps(s, i, ending);
      case Collect(now) => CollectStepKeeps(s, now);
    }
  }

  // ---- Every run ----------------------------------------------------------

  /** A run from a pool with any slots filled. */
  ghost predicate IsRun(run: seq<State>, steps: seq<Step>, slots: seq<bool>) {
    && |run| == |steps| + 1 && run[0] == Start(slots)
    && forall k {:trigger steps[k]} | 0 <= k < |steps| ::
         && Sized(run[k].loop) && run[k].doing.Keys == run[k].loop.tasks.Keys
         && Enabled(run[k], steps[k]) && run[k + 1] == Next(run[k], steps[k])
  }

  lemma StartHolds(slots: seq<bool>)
    ensures Invariant(Start(slots))
  {
  }

  lemma {:induction false} RunKeeps(run: seq<State>, steps: seq<Step>, slots: seq<bool>, k: nat)
    requires IsRun(run, steps, slots) && k <= |steps|
    ensures Invariant(run[k])
  {
    if k == 0 {
      StartHolds(slots);
    } else {
      var j := k - 1;
      RunKeeps(run, steps, slots, j);
      StepKeeps(run[j], steps[j]);
      assert run[j + 1] == Next(run[j], steps[j]);
    }
  }

  /** In every reachable state a slot is owned by at most one of the pool, a
      prompt task and a respawn, and no agent is held by two prompt tasks. */
  lemma AtMostOneOwner(run: seq<State>, steps: seq<Step>, slots: seq<bool>, k: nat)
    requires IsRun(run, steps, slots) && k <= |steps|
    ensures Sized(run[k].loop) && OneTaskEach(run[k].loop) && OneOwner(run[k].loop)
  {
    RunKeeps(run, steps, slots, k);
  }

  /** Respawn results are conserved: what was started for slot `i` was collected,
      waits in the channel or is still under way, and at most one is outstanding. */
  lemma EveryRespawnHasOneResult(run: seq<State>, steps: seq<Step>, slots: seq<bool>, k: nat, i: nat)
    requires IsRun(run, steps, slots) && k <= |steps|
    ensures run[k].started[i] == run[k].collected[i] + Queued(run[k].loop.queue)[i] + run[k].loop.running[i]
    ensures run[k].started[i] <= run[k].collected[i] + 1
  {
    RunKeeps(run, steps, slots, k);
    var l := run[k].loop;
    if i >= |l.idle| {
      QueuedIndices(l.queue);
      assert Queued(l.queue)[i] == 0 && l.running[i] == 0;
    }
  }

  /** However a respawn task ends, there is room for its result. */
  lemma ChannelNeverFull(run: seq<State>, steps: seq<Step>, slots: seq<bool>, k: nat, i: nat, ending: Ending)
    requires IsRun(run, steps, slots) && k < |steps| && steps[k] == End(i, ending)
    ensures run[k + 1].loop.queue == run[k].loop.queue + [RespawnResult(i, Succeeded(ending))]
  {
    RunKeeps(run, steps, slots, k);
    EndingIsAccepted(run[k].loop, i, ending);
    assert run[k + 1] == Next(run[k], steps[k]);
  }

  /** An agent is only ever put back into an empty slot. */
  lemma NeverOverwrites(run: seq<State>, steps: seq<Step>, slots: seq<bool>, k: nat)
    requires IsRun(run, steps, slots) && k < |steps|
    ensures steps[k].Settle? ==> !run[k].loop.idle[run[k].loop.tasks[steps[k].t]]
    ensures steps[k].Collect? ==> !Alive(run[k].loop, run[k].loop.queue[0].index)
  {
    RunKeeps(run, steps, slots, k);
    var l := run[k].loop;
    if steps[k].Collect? {
      CollectKeeps(l, steps[k].now);
    } else if steps[k].Settle? {
      assert l.tasks[steps[k].t] in l.tasks.Values;
    }
  }

  /** A prompt result removes exactly its own entry from `task_map`. */
  lemma SettlesOneTask(run: seq<State>, steps: seq<Step>, slots: seq<bool>, k: nat)
    requires IsRun(run, steps, slots) && k < |steps| && steps[k].Settle?
    ensures Without(run[k].loop.tasks, run[k].loop.tasks[steps[k].t]) == run[k].loop.tasks - {steps[k].t}
    ensures |run[k].loop.tasks| == |run[k].loop.tasks - {steps[k].t}| + 1
  {
    RunKeeps(run, steps, slots, k);
    var tasks, t := run[k].loop.tasks, steps[k].t;
    TaskLeaves(run[k].loop, t);
    assert tasks == (tasks - {t})[t := tasks[t]];
  }

  /** A vacant slot whose circuit is not open is refilled at once, its crash
      history kept; that is how a slot empty from start-up gets its agent. */
  lemma VacantSlotIsRefilled(s: State, i: nat, now: Time)
    requires Invariant(s) && i < |s.loop.idle| && Vacant(s.loop, i) && s.loop.breakers[i].openUntil.None?
    ensures
      var t := Next(s, Step.Refill(i, now));
      && t.loop.inFlight[i] && t.loop.running[i] == 1 && t.started[i] == s.started[i] + 1
      && t.loop.breakers == s.loop.breakers
  {
    var after := RefilledAt(s.loop, i, now);
    assert s.loop.running[i] == 0;
    assert NewlyRunning(s.loop, after) == multiset{i};
    assert s.loop.breakers[i := s.loop.breakers[i]] == s.loop.breakers;
  }

  // ---- Every agent comes back, or is known to be gone ---------------------

  /** Slots other than `i` have the same owner and the same breaker as before. */
  ghost predicate OthersKept(before: Loop, after: Loop, i: nat) {
    && |before.idle| == |after.idle| == |before.inFlight| == |after.inFlight|
    && |after.idle| == |before.breakers| == |after.breakers|
    && (forall j | 0 <= j < |before.idle| && j != i ::
          && before.idle[j] == after.idle[j] && before.inFlight[j] == after.inFlight[j]
          && before.breakers[j] == after.breakers[j]
          && (j in before.tasks.Values <==> j in after.tasks.Values))
  }

  lemma TaskGone(before: Loop, after: Loop, t: TaskId)
    requires Owned(before) && t in before.tasks && after.tasks == before.tasks - {t}
    ensures before.tasks[t] !in after.tasks.Values
    ensures forall j | j != before.tasks[t] :: j in before.tasks.Values <==> j in after.tasks.Values
  {
    var i := before.tasks[t];
    forall j | j in before.tasks.Values && j != i ensures j in after.tasks.Values {
      var u :| u in before.tasks && before.tasks[u] == j;
      assert after.tasks[u] == j;
    }
  }

  /** A healthy agent is back in its slot when its prompt ends, and nothing else changes. */
  lemma AgentIsGivenBack(s: State, t: TaskId)
    requires Invariant(s) && Enabled(s, Settle(t, GiveBack))
    ensures
      var i, after := s.loop.tasks[t], Next(s, Settle(t, GiveBack));
      && after.loop.idle[i] && i !in after.loop.tasks.Values && OthersKept(s.loop, after.loop, i)
      && after.loop == s.loop.(idle := after.loop.idle, tasks := s.loop.tasks - {t})
      && after.started == s.started && after.collected == s.collected && after.doing == s.doing - {t}
  {
    var after := Next(s, Settle(t, GiveBack));
    SettleKeeps(s.loop, t, GiveBack);
    TaskGone(s.loop, after.loop, t);
    assert NewlyRunning(s.loop, after.loop) == multiset{};
  }

  lemma CrashedSlot(l: Loop, i: nat, now: Time, jitter: real)
    requires Sized(l) && i < |l.idle|
    ensures
      var after := CrashedAt(l, i, now, jitter);
      && after == l.(breakers := after.breakers, inFlight := after.inFlight, running := after.running)
      && (CrashIsRefused(l.breakers[i], now) ==> after.inFlight == l.inFlight && after.running == l.running)
      && (!CrashIsRefused(l.breakers[i], now) ==>
            after.inFlight == l.inFlight[i := true] && after.running == l.running + multiset{i})
      && |after.breakers| == |l.breakers|
      && (forall j | 0 <= j < |l.breakers| && j != i :: after.breakers[j] == l.breakers[j])
  {
    VerdictIff(l.breakers[i], now, jitter);
  }

  /** The agent of a crashed or panicked task is gone: a respawn is under way for
      its slot unless the breaker refuses the crash. */
  ghost predicate CrashHandled(before: Loop, after: Loop, t: TaskId, now: Time)
    requires Sized(before) && t in before.tasks
  {
    var i := before.tasks[t];
    && OthersKept(before, after, i) && after.tasks == before.tasks - {t}
    && !Alive(after, i) && after.queue == before.queue && after.idle == before.idle
    && (after.inFlight[i] <==> !CrashIsRefused(before.breakers[i], now))
    && after.running == before.running + (if after.inFlight[i] then multiset{i} else multiset{})
  }

  lemma CrashIsHandledIn(l: Loop, t: TaskId, now: Time, jitter: real)
    requires Owned(l) && t in l.tasks
    ensures CrashHandled(l, CrashedAt(l.(tasks := l.tasks - {t}), l.tasks[t], now, jitter), t, now)
  {
    var i, m := l.tasks[t], l.(tasks := l.tasks - {t});
    assert i in l.tasks.Values;
    TaskLeaves(l, t);
    TaskGone(l, m, t);
    CrashedSlot(m, i, now, jitter);
  }

  lemma CrashIsHandled(s: State, t: TaskId, now: Time, jitter: real)
    requires Invariant(s) && t in s.doing
    ensures s.doing[t].Finished? ==> CrashHandled(s.loop, Next(s, Settle(t, Fate.Crash(now, jitter))).loop, t, now)
    ensures s.doing[t].Panicked? ==> CrashHandled(s.loop, Next(s, Recover(t, now, jitter)).loop, t, now)
  {
    CrashIsHandledIn(s.loop, t, now, jitter);
    TaskLeaves(s.loop, t);
  }

  /** The first result waiting: a success puts the new agent into the slot, a
      failure opens the circuit for five minutes; either way the flag is cleared. */
  lemma ResultIsCollected(s: State, now: Time)
    requires Invariant(s) && s.loop.queue != []
    ensures
      var r, before, after := s.loop.queue[0], s.loop, Next(s, Collect(now)).loop;
      && before.inFlight[r.index] && !after.inFlight[r.index] && OthersKept(before.(queue := []), after, r.index)
      && after.idle[r.index] == r.ok && after.tasks == before.tasks
      && after.running == before.running && after.queue == before.queue[1..]
      && after.breakers[r.index].crashTimes == before.breakers[r.index].crashTimes
      && after.breakers[r.index].openUntil
         == (if r.ok then before.breakers[r.index].openUntil else Some(now + 300 * SECOND))
  {
    CollectKeeps(s.loop, now);
    var r := s.loop.queue[0];
    assert Queued(s.loop.queue)[r.index] >= 1;
  }

  /** What can leave slot `i` without an owner: a crash or panic of its agent that
      the breaker refuses to answer, or a failed respawn. */
  ghost predicate LosesAgent(s: State, step: Step, i: nat)
    requires Sized(s.loop) && s.doing.Keys == s.loop.tasks.Keys && Enabled(s, step)
  {
    match step
    case Settle(t, fate) => fate.Crash? && s.loop.tasks[t] == i && CrashIsRefused(s.loop.breakers[i], fate.now)
    case Recover(t, now, _) => s.loop.tasks[t] == i && CrashIsRefused(s.loop.breakers[i], now)
    case Collect(_) => s.loop.queue[0] == RespawnResult(i, false)
    case _ => false
  }

  lemma ClaimedIsAlive(l: Loop, i: nat, t: TaskId)
    requires Owned(l) && i < |l.idle| && l.idle[i] && t !in l.tasks
    ensures OthersKept(l, Claimed(l, i, t), i) && Alive(Claimed(l, i, t), i)
  {
    var m := Claimed(l, i, t);
    assert m.tasks[t] == i;
    assert forall u | u in l.tasks :: m.tasks[u] == l.tasks[u];
    forall j | j in l.tasks.Values ensures j in m.tasks.Values {
      var u :| u in l.tasks && l.tasks[u] == j;
      assert m.tasks[u] == j;
    }
  }

  /** A slot with no owner that had one before is the one the step is about. */
  lemma VacantIsTheOne(before: Loop, after: Loop, at: nat, i: nat)
    requires OthersKept(before, after, at) && i < |after.idle| && Vacant(after, i)
    ensures Vacant(before, i) || i == at
  {
  }

  /** A slot without an owner after the step had none before, or this step took its agent. */
  ghost predicate LossHasCause(s: State, step: Step, after: Loop, i: nat)
    requires Invariant(s) && Enabled(s, step)
  {
    && |after.idle| == |after.inFlight| == |s.loop.idle| && i < |s.loop.idle|
    && (Vacant(after, i) ==> Vacant(s.loop, i) || LosesAgent(s, step, i))
  }

  lemma VacantAfterTask(s: State, step: Step, i: nat)
    requires Invariant(s) && Enabled(s, step) && i < |s.loop.idle| && (step.Settle? || step.Recover?)
    ensures LossHasCause(s, step, Next(s, step).loop, i)
  {
    var t := step.t;
    if step.Recover? {
      CrashIsHandled(s, t, step.now, step.jitter);
    } else if step.fate.GiveBack? {
      AgentIsGivenBack(s, t);
    } else {
      CrashIsHandled(s, t, step.fate.now, step.fate.jitter);
    }
    var after := Next(s, step).loop;
    if Vacant(after, i) {
      VacantIsTheOne(s.loop, after, s.loop.tasks[t], i);
    }
  }

  lemma VacantAfterCollect(s: State, now: Time, i: nat)
    requires Invariant(s) && Enabled(s, Collect(now)) && i < |s.loop.idle|
    ensures LossHasCause(s, Collect(now), Next(s, Collect(now)).loop, i)
  {
    var before, after := s.loop.(queue := []), Next(s, Collect(now)).loop;
    ResultIsCollected(s, now);
    if Vacant(after, i) {
      VacantIsTheOne(before, after, s.loop.queue[0].index, i);
    }
  }

  lemma VacantAfterClaim(s: State, j: nat, t: TaskId, i: nat)
    requires Invariant(s) && Enabled(s, Claim(j, t)) && i < |s.loop.idle|
    ensures LossHasCause(s, Claim(j, t), Next(s, Claim(j, t)).loop, i)
  {
    ClaimedIsAlive(s.loop, j, t);
    if Vacant(Claimed(s.loop, j, t), i) {
      VacantIsTheOne(s.loop, Claimed(s.loop, j, t), j, i);
    }
  }

  lemma OwnersStay(before: Loop, after: Loop, i: nat)
    requires after.idle == before.idle && after.tasks == before.tasks && i < |before.idle|
    requires |before.idle| == |before.inFlight| == |after.inFlight|
    requires before.inFlight[i] ==> after.inFlight[i]
    ensures Vacant(after, i) ==> Vacant(before, i)
  {
  }

  lemma RefilledOwners(l: Loop, j: nat, now: Time, i: nat)
    requires Sized(l) && j < |l.idle| && i < |l.idle|
    ensures
      var after := RefilledAt(l, j, now);
      && after.idle == l.idle && after.tasks == l.tasks && |after.inFlight| == |l.inFlight|
      && (l.inFlight[i] ==> after.inFlight[i])
  {
  }

  lemma VacantAfterRefill(s: State, j: nat, now: Time, i: nat)
    requires Invariant(s) && j < |s.loop.idle| && i < |s.loop.idle|
    ensures LossHasCause(s, Step.Refill(j, now), Next(s, Step.Refill(j, now)).loop, i)
  {
    RefilledOwners(s.loop, j, now, i);
    OwnersStay(s.loop, RefilledAt(s.loop, j, now), i);
  }

  lemma VacantAfterEnd(s: State, j: nat, ending: Ending, i: nat)
    requires Invariant(s) && j in s.loop.running && i < |s.loop.idle|
    ensures LossHasCause(s, End(j, ending), Next(s, End(j, ending)).loop, i)
  {
    OwnersStay(s.loop, Ended(s.loop, j, ending), i);
  }

  lemma VacantStep(s: State, step: Step, i: nat)
    requires Invariant(s) && Enabled(s, step) && i < |s.loop.idle|
    ensures LossHasCause(s, step, Next(s, step).loop, i)
  {
    match step {
      case Claim(j, t) => VacantAfterClaim(s, j, t, i);
      case Settle(_, _) => VacantAfterTask(s, step, i);
      case Recover(_, _, _) => VacantAfterTask(s, step, i);
      case Collect(now) => VacantAfterCollect(s, now, i);
      case Refill(j, now) => VacantAfterRefill(s, j, now, i);
      case End(j, ending) => VacantAfterEnd(s, j, ending, i);
      case _ =>
    }
  }

  ghost predicate Took(s: State, step: Step, i: nat) {
    Invariant(s) && Enabled(s, step) && LosesAgent(s, step, i)
  }

  lemma VacantAfter(s: State, step: Step, next: State, i: nat)
    requires Invariant(s) && Enabled(s, step) && next == Next(s, step) && i < |s.loop.idle|
    ensures |next.loop.idle| == |next.loop.inFlight| == |s.loop.idle|
    ensures Vacant(next.loop, i) ==> Vacant(s.loop, i) || Took(s, step, i)
  {
    VacantStep(s, step, i);
  }

  predicate Ownerless(s: State, i: nat) {
    i < |s.loop.idle| && i < |s.loop.inFlight| && Vacant(s.loop, i)
  }

  ghost function OwnerlessIn(run: seq<State>, i: nat): (free: seq<bool>)
    ensures |free| == |run|
  {
    seq(|run|, k requires 0 <= k < |run| => Ownerless(run[k], i))
  }

  ghost function TookIn(run: seq<State>, steps: seq<Step>, i: nat): (took: seq<bool>)
    requires |steps| <= |run|
    ensures |took| == |steps|
  {
    seq(|steps|, k requires 0 <= k < |steps| => Took(run[k], steps[k], i))
  }

  predicate AllFree(free: seq<bool>, m: nat, k: nat)
    requires k < |free|
  {
    forall n | m <= n <= k :: free[n]
  }

  /** Free all along, or taken at some step and free ever since. */
  predicate Explained(free: seq<bool>, took: seq<bool>, filled: bool, k: nat)
    requires k < |free| == |took| + 1
  {
    || (!filled && AllFree(free, 0, k))
    || exists j | 0 <= j < k :: took[j] && AllFree(free, j + 1, k)
  }

  lemma {:induction false} FreeIsExplained(free: seq<bool>, took: seq<bool>, filled: bool, k: nat)
    requires k < |free| == |took| + 1 && free[k]
    requires free[0] ==> !filled
    requires forall n {:trigger took[n]} | 0 <= n < |took| :: free[n + 1] ==> free[n] || took[n]
    ensures Explained(free, took, filled, k)
  {
    if k > 0 {
      if took[k - 1] {
        assert AllFree(free, k, k);
      } else {
        FreeIsExplained(free, took, filled, k - 1);
        if !(!filled && AllFree(free, 0, k - 1)) {
          var j :| 0 <= j < k - 1 && took[j] && AllFree(free, j + 1, k - 1);
          assert AllFree(free, j + 1, k);
        }
      }
    }
  }

  lemma SlotsKept(s: State, step: Step)
    requires Sized(s.loop) && s.doing.Keys == s.loop.tasks.Keys && Enabled(s, step)
    ensures |Next(s, step).loop.idle| == |s.loop.idle|
  {
  }

  lemma {:induction false} SlotsStay(run: seq<State>, steps: seq<Step>, slots: seq<bool>, k: nat)
    requires IsRun(run, steps, slots) && k <= |steps|
    ensures |run[k].loop.idle| == |slots|
  {
    if k > 0 {
      SlotsStay(run, steps, slots, k - 1);
      SlotsKept(run[k - 1], steps[k - 1]);
      assert run[k - 1 + 1] == Next(run[k - 1], steps[k - 1]);
    }
  }

  lemma OwnerlessAfter(run: seq<State>, steps: seq<Step>, slots: seq<bool>, k: nat, i: nat)
    requires IsRun(run, steps, slots) && k < |steps| && i < |slots|
    ensures Ownerless(run[k + 1], i) ==> Ownerless(run[k], i) || Took(run[k], steps[k], i)
  {
    RunKeeps(run, steps, slots, k);
    SlotsStay(run, steps, slots, k);
    VacantAfter(run[k], steps[k], run[k + 1], i);
  }

  lemma OwnerlessAt(run: seq<State>, steps: seq<Step>, slots: seq<bool>, k: nat, i: nat)
    requires IsRun(run, steps, slots) && k < |steps| && i < |slots|
    ensures OwnerlessIn(run, i)[k + 1] ==> OwnerlessIn(run, i)[k] || TookIn(run, steps, i)[k]
  {
    OwnerlessAfter(run, steps, slots, k, i);
    assert OwnerlessIn(run, i)[k + 1] == Ownerless(run[k + 1], i);
    assert OwnerlessIn(run, i)[k] == Ownerless(run[k], i);
  }

  lemma StartIsFilled(run: seq<State>, steps: seq<Step>, slots: seq<bool>, i: nat)
    requires IsRun(run, steps, slots) && i < |slots|
    ensures OwnerlessIn(run, i)[0] ==> !slots[i]
  {
    assert OwnerlessIn(run, i)[0] == Ownerless(run[0], i);
  }

  /** No agent is lost without a cause: in every run a slot nobody owns was never
      filled, or had its agent taken by one of those steps and has waited since. */
  lemma VacantHasCause(run: seq<State>, steps: seq<Step>, slots: seq<bool>, k: nat, i: nat)
    requires IsRun(run, steps, slots) && k <= |steps| && i < |slots|
    ensures Ownerless(run[k], i) ==> Explained(OwnerlessIn(run, i), TookIn(run, steps, i), slots[i], k)
  {
    var free, took := OwnerlessIn(run, i), TookIn(run, steps, i);
    StartIsFilled(run, steps, slots, i);
    forall n | 0 <= n < |took| ensures free[n + 1] ==> free[n] || took[n] {
      OwnerlessAt(run, steps, slots, n, i);
    }
    if free[k] {
      FreeIsExplained(free, took, slots[i], k);
    }
  }

  // ---- Whole passes -------------------------------------------------------

  /** The maintenance pass comes to every slot: afterwards a respawn is under way
      for exactly those it was before and those without an owner whose circuit is
      not open. */
  lemma {:induction false} PassVisitsAll(l: Loop, now: Time, i: nat, j: nat)
    requires Sized(l) && i <= |l.idle| && j < |l.idle|
    ensures
      var after := RefilledFrom(l, now, i);
      && Sized(after) && after.idle == l.idle && after.tasks == l.tasks && after.queue == l.queue
      && (after.inFlight[j] <==>
            l.inFlight[j] || (i <= j && !Alive(l, j)
                              && (l.breakers[j].openUntil.None? || now >= l.breakers[j].openUntil.value)))
      && after.running[j] == l.running[j] + (if after.inFlight[j] && !l.inFlight[j] then 1 else 0)
    decreases |l.idle| - i
  {
    if i < |l.idle| {
      RefilledSized(l, i, now);
      RefillIff(l.breakers[i], now);
      PassVisitsAll(RefilledAt(l, i, now), now, i + 1, j);
    }
  }

  /** Every result waiting is collected: a slot has its flag cleared if one was
      for it, and a new agent if that was a success. */
  lemma {:induction false} AllAreCollected(l: Loop, now: Time, i: nat)
    requires Sized(l) && i < |l.idle|
    ensures
      var after := CollectedAll(l, now);
      && Sized(after) && |after.idle| == |l.idle| && after.queue == []
      && after.tasks == l.tasks && after.running == l.running
      && (after.inFlight[i] <==> l.inFlight[i] && forall r | r in l.queue :: r.index != i)
      && (after.idle[i] <==> l.idle[i] || RespawnResult(i, true) in l.queue)
      && after.breakers[i].crashTimes == l.breakers[i].crashTimes
      && after.breakers[i].openUntil
         == (if RespawnResult(i, false) in l.queue then Some(now + 300 * SECOND) else l.breakers[i].openUntil)
    decreases |l.queue|
  {
    if l.queue != [] {
      var m := Collected(l, now);
      assert forall r :: r in l.queue <==> r == l.queue[0] || r in l.queue[1..];
      assert Sized(m);
      AllAreCollected(m, now, i);
    }
  }
}
