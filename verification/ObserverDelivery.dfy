/** Which events the publisher passes on in the interleavings of `ObserverSplice`:
    never one twice, exactly which are lost, and all of them in order when emits
    are serialized (crates/buzz-acp/src/lib.rs:419-484). */
module ObserverDelivery {
  import opened Options
  import opened ObserverBus
  import opened ObserverSplice

  // ---- Never twice --------------------------------------------------------

  ghost predicate NoRepeats(events: seq<Event>) {
    forall i, j | 0 <= i < j < |events| :: events[i] != events[j]
  }

  lemma {:induction false} AboveMembers(log: seq<Event>, from: nat, to: nat, high: nat, e: Event)
    requires from <= to <= |log|
    ensures e in Above(log, from, to, high) <==> e in log[from..to] && e.seq_ > high
  {
    if from < to {
      AboveMembers(log, from, to - 1, high, e);
      assert log[from..to] == log[from..to - 1] + [log[to - 1]];
    }
  }

  lemma {:induction false} AboveNoRepeats(log: seq<Event>, from: nat, to: nat, high: nat)
    requires from <= to <= |log| && NoRepeats(log)
    ensures NoRepeats(Above(log, from, to, high))
  {
    if from < to {
      AboveNoRepeats(log, from, to - 1, high);
      AboveMembers(log, from, to - 1, high, log[to - 1]);
    }
  }

  lemma LastOnesMembers(log: seq<Event>, e: Event)
    ensures e in LastOnes(log) ==> e in log
  {
  }

  lemma JoinNoRepeats(a: seq<Event>, b: seq<Event>)
    requires NoRepeats(a) && NoRepeats(b) && forall e | e in b :: e !in a
    ensures NoRepeats(a + b)
  {
    forall i, j | 0 <= i < j < |a + b| ensures (a + b)[i] != (a + b)[j] {
      if i < |a| <= j {
        assert b[j - |a|] !in a;
      }
    }
  }

  lemma DeliveredNoRepeats(s: State)
    requires NoRepeats(s.log) && NoRepeats(s.sent) && Spliced(s)
    ensures NoRepeats(s.delivered)
  {
    if s.high.Some? {
      var end := s.subAt + s.read;
      var snapshot, live := LastOnes(s.log[..s.snapAt]), Above(s.sent, s.subAt, end, s.high.value);
      AboveNoRepeats(s.sent, s.subAt, end, s.high.value);
      forall e | e in live ensures e !in snapshot {
        AboveMembers(s.sent, s.subAt, end, s.high.value, e);
      }
      JoinNoRepeats(snapshot, live);
    }
  }

  /** In every interleaving no event reaches the coalescer twice. */
  lemma NeverTwice(run: seq<State>, steps: seq<Step>, k: nat)
    requires IsRun(run, steps) && k <= |steps|
    ensures NoRepeats(run[k].delivered)
  {
    RunKeeps(run, steps, k);
    DeliveredNoRepeats(run[k]);
  }

  // ---- Which events are lost ----------------------------------------------

  /** The publisher has received every live event there is. */
  predicate CaughtUp(s: State) {
    s.high.Some? && s.unsent == {} && s.bus.live == Some([])
  }

  lemma LateIsLive(s: State, e: Event)
    requires SentOnce(s) && Ordered(s) && s.high.Some? && s.unsent == {}
    requires e in s.log && e !in s.log[..s.snapAt]
    ensures e in s.sent[s.subAt..]
  {
    var j :| 0 <= j < |s.log| && s.log[j] == e;
    var i :| 0 <= i < |s.sent| && s.sent[i] == e;
    assert i >= s.subAt;
    assert s.sent[s.subAt..][i - s.subAt] == e;
  }

  /** An event pushed after the snapshot comes by the live feed, and passes exactly when it is above the mark. */
  lemma LateDeliveredIff(s: State, e: Event)
    requires Spliced(s) && SentOnce(s) && Ordered(s) && CaughtUp(s)
    requires e in s.log && e !in s.log[..s.snapAt]
    ensures e in s.delivered <==> e.seq_ > s.high.value
  {
    LateIsLive(s, e);
    DeliveredMembers(s, e);
    LastOnesMembers(s.log[..s.snapAt], e);
  }

  lemma PassedMembers(snapshot: seq<Event>, sent: seq<Event>, from: nat, high: nat, e: Event)
    requires from <= |sent|
    ensures e in snapshot + Above(sent, from, |sent|, high) <==> e in snapshot || (e in sent[from..] && e.seq_ > high)
  {
    AboveMembers(sent, from, |sent|, high, e);
    assert sent[from..] == sent[from..|sent|];
  }

  lemma AllLiveReceived(s: State)
    requires Spliced(s) && CaughtUp(s)
    ensures s.subAt + s.read == |s.sent|
  {
  }

  lemma DeliveredMembers(s: State, e: Event)
    requires Spliced(s) && CaughtUp(s)
    ensures e in s.delivered <==> e in LastOnes(s.log[..s.snapAt]) || (e in s.sent[s.subAt..] && e.seq_ > s.high.value)
  {
    AllLiveReceived(s);
    PassedMembers(LastOnes(s.log[..s.snapAt]), s.sent, s.subAt, s.high.value, e);
  }

  /** What is drawn or pushed since `was`: it was being emitted then, or numbered later. */
  ghost predicate Since(was: State, now: State) {
    && |was.log| <= |now.log| && now.log[..|was.log|] == was.log && was.bus.next <= now.bus.next
    && (forall e | e in now.drawn :: e in was.drawn || e.seq_ >= was.bus.next)
    && (forall i | |was.log| <= i < |now.log| :: now.log[i] in was.drawn || now.log[i].seq_ >= was.bus.next)
  }

  lemma SinceStep(was: State, s: State, step: Step)
    requires Since(was, s) && Enabled(s, step)
    ensures Since(was, Next(s, step))
  {
    var t := Next(s, step);
    assert step.Push? ==> t.log[..|was.log|] == s.log[..|was.log|];
  }

  lemma {:induction false} SinceSnapshot(run: seq<State>, steps: seq<Step>, m: nat, k: nat)
    requires IsRun(run, steps) && m < k <= |steps| && steps[m] == TakeSnapshot
    ensures Since(run[m], run[k])
    ensures run[k].high == Some(MaxSeq(run[m].bus.buffer)) && run[k].snapAt == |run[m].log|
  {
    if k == m + 1 {
      assert run[m + 1] == Next(run[m], steps[m]);
    } else {
      SinceSnapshot(run, steps, m, k - 1);
      var j := k - 1;
      SinceStep(run[m], run[j], steps[j]);
      assert run[j + 1] == Next(run[j], steps[j]);
    }
  }

  lemma MarkInLog(log: seq<Event>)
    requires log != []
    ensures exists i | 0 <= i < |log| :: log[i].seq_ == MaxSeq(LastOnes(log))
  {
    var last := LastOnes(log);
    var i :| 0 <= i < |last| && last[i].seq_ == MaxSeq(last);
    assert last[i] == log[|log| - |last| + i];
  }

  lemma MarkIsPushed(s: State)
    requires Numbered(s) && s.bus.buffer == LastOnes(s.log)
    ensures MaxSeq(s.bus.buffer) < s.bus.next
    ensures forall e | e in s.drawn :: e.seq_ != MaxSeq(s.bus.buffer)
  {
    if s.log != [] {
      MarkInLog(s.log);
    }
  }

  lemma SinceWhen(was: State, now: State, e: Event)
    requires Since(was, now) && e in now.log && e !in was.log
    ensures e in was.drawn || e.seq_ >= was.bus.next
  {
    var n := |was.log|;
    assert now.log == was.log + now.log[n..];
    var i :| 0 <= i < |now.log| && now.log[i] == e;
  }

  /** The fate of every event in every interleaving, once the publisher has
      caught up: it was passed on exactly when the replay buffer held it at the
      snapshot, or it was sent after the subscription with a number above the
      mark. So an event pushed before the snapshot and evicted is lost too. */
  lemma PassedOnIff(run: seq<State>, steps: seq<Step>, k: nat, e: Event)
    requires IsRun(run, steps) && k <= |steps| && CaughtUp(run[k])
    ensures run[k].snapAt <= |run[k].log| && run[k].subAt <= |run[k].sent|
    ensures
      var s := run[k];
      e in s.delivered
      <==> (e in LastOnes(s.log[..s.snapAt])
            || (e in s.sent[s.subAt..] && e.seq_ > MaxSeq(LastOnes(s.log[..s.snapAt]))))
  {
    RunKeeps(run, steps, k);
    DeliveredMembers(run[k], e);
  }

  /** With concurrent emitters: once the publisher has caught up, an event pushed
      after the snapshot is lost exactly when it was already numbered, below the
      snapshot's mark, but not yet pushed when the snapshot was taken. */
  lemma LostIff(run: seq<State>, steps: seq<Step>, m: nat, k: nat, e: Event)
    requires IsRun(run, steps) && m < k <= |steps| && steps[m] == TakeSnapshot
    requires CaughtUp(run[k]) && e in run[k].log && e !in run[m].log
    ensures e !in run[k].delivered <==> e in run[m].drawn && e.seq_ < MaxSeq(run[m].bus.buffer)
  {
    RunKeeps(run, steps, m);
    RunKeeps(run, steps, k);
    SinceSnapshot(run, steps, m, k);
    LateDeliveredIff(run[k], e);
    MarkIsPushed(run[m]);
    SinceWhen(run[m], run[k], e);
  }

  /** So nothing pushed after the snapshot is lost exactly when no emit was under way below the mark. */
  lemma NothingLostIff(run: seq<State>, steps: seq<Step>, m: nat, k: nat)
    requires IsRun(run, steps) && m < k <= |steps| && steps[m] == TakeSnapshot
    requires CaughtUp(run[k]) && run[k].drawn == {}
    ensures (forall e | e in run[k].log && e !in run[m].log :: e in run[k].delivered)
            <==> (forall e | e in run[m].drawn :: e.seq_ > MaxSeq(run[m].bus.buffer))
  {
    RunKeeps(run, steps, m);
    forall e | e in run[m].drawn ensures e in run[k].log && e !in run[m].log && e.seq_ != MaxSeq(run[m].bus.buffer) {
      DrawnIsPushed(run, steps, m, k, e);
      MarkIsPushed(run[m]);
    }
    forall e | e in run[k].log && e !in run[m].log
      ensures e !in run[k].delivered <==> e in run[m].drawn && e.seq_ < MaxSeq(run[m].bus.buffer)
    {
      LostIff(run, steps, m, k, e);
    }
  }

  lemma {:induction false} DrawnIsPushed(run: seq<State>, steps: seq<Step>, m: nat, k: nat, e: Event)
    requires IsRun(run, steps) && m <= k <= |steps| && e in run[m].drawn
    ensures e in run[k].drawn || e in run[k].log
  {
    if m < k {
      DrawnIsPushed(run, steps, m, k - 1, e);
      var j := k - 1;
      assert run[j + 1] == Next(run[j], steps[j]);
    }
  }

  // ---- Serialized emits ---------------------------------------------------

  /** No emit begins before the one before it has finished. */
  ghost predicate Serialized(run: seq<State>, steps: seq<Step>) {
    |run| == |steps| + 1 && forall k {:trigger steps[k]} | 0 <= k < |steps| && steps[k].Draw? :: run[k].drawn == {} && run[k].unsent == {}
  }

  /** Events are numbered, pushed and sent in one order. */
  ghost predicate InOrder(s: State) {
    && |s.log| <= s.bus.next - 1
    && (forall i | 0 <= i < |s.log| :: s.log[i].seq_ == i + 1)
    && |s.sent| <= |s.log| && s.sent == s.log[..|s.sent|]
    && (s.drawn == {} || s.unsent == {})
    && (s.drawn == {} ==> s.bus.next == |s.log| + 1)
    && (forall e | e in s.drawn :: s.drawn == {e} && e.seq_ == |s.log| + 1 && s.bus.next == |s.log| + 2)
    && (s.unsent == {} ==> |s.sent| == |s.log|)
    && (forall e | e in s.unsent :: s.unsent == {e} && |s.log| == |s.sent| + 1 && s.log[|s.sent|] == e)
  }

  lemma InOrderStep(s: State, step: Step)
    requires InOrder(s) && Enabled(s, step) && (step.Draw? ==> s.drawn == {} && s.unsent == {})
    ensures InOrder(Next(s, step))
  {
    var t := Next(s, step);
    match step {
      case Push(e) =>
        assert s.drawn == {e} && t.drawn == {};
        assert t.log[..|s.sent|] == s.log[..|s.sent|];
      case Send(e) =>
        assert s.unsent == {e} && t.unsent == {};
        assert s.log[..|s.sent| + 1] == s.log[..|s.sent|] + [e];
      case _ =>
    }
  }

  lemma {:induction false} RunInOrder(run: seq<State>, steps: seq<Step>, k: nat)
    requires IsRun(run, steps) && Serialized(run, steps) && k <= |steps|
    ensures InOrder(run[k])
  {
    if k > 0 {
      var j := k - 1;
      RunInOrder(run, steps, j);
      InOrderStep(run[j], steps[j]);
      assert run[j + 1] == Next(run[j], steps[j]);
    }
  }

  /** In a numbered log, the events above mark `m` are those after position `m`. */
  lemma {:induction false} AboveInOrder(log: seq<Event>, from: nat, to: nat, m: nat)
    requires from <= to <= |log| && from <= m
    requires forall i {:trigger log[i].seq_} | 0 <= i < |log| :: log[i].seq_ == i + 1
    ensures Above(log, from, to, m) == if to <= m then [] else log[m..to]
  {
    if from < to {
      AboveInOrder(log, from, to - 1, m);
      AboveNext(log, from, to, m);
    }
  }

  lemma AboveNext(log: seq<Event>, from: nat, to: nat, m: nat)
    requires from < to <= |log| && log[to - 1].seq_ == to
    requires Above(log, from, to - 1, m) == if to - 1 <= m then [] else log[m..to - 1]
    ensures Above(log, from, to, m) == if to <= m then [] else log[m..to]
  {
    if to > m + 1 {
      assert log[m..to - 1] + [log[to - 1]] == log[m..to];
    } else if to == m + 1 {
      assert [] + [log[m]] == log[m..to];
    }
  }

  lemma MarkInOrder(log: seq<Event>)
    requires forall i | 0 <= i < |log| :: log[i].seq_ == i + 1
    ensures MaxSeq(LastOnes(log)) == |log|
  {
    if log != [] {
      var last := LastOnes(log);
      assert last[|last| - 1] == log[|log| - 1];
    }
  }

  /** Where the stretch of delivered events ends. */
  function End(s: State): nat {
    if s.subAt + s.read <= s.snapAt then s.snapAt else s.subAt + s.read
  }

  lemma PrefixPlace(log: seq<Event>, n: nat, i: nat)
    requires forall j | 0 <= j < |log| :: log[j].seq_ == j + 1
    requires n <= |log| && i < |log|
    ensures log[i] in log[..n] <==> i < n
  {
    if i < n {
      assert log[..n][i] == log[i];
    }
  }

  lemma SubscribedBefore(s: State)
    requires Ordered(s) && InOrder(s) && s.high.Some?
    ensures s.subAt <= s.snapAt
  {
    if s.snapAt < |s.log| {
      PrefixPlace(s.log, s.snapAt, s.snapAt);
      assert s.snapAt < |s.sent| ==> s.sent[s.snapAt] == s.log[s.snapAt];
    }
  }

  /** The first event still in the replay buffer after `n` pushes. */
  function FirstKept(n: nat): nat {
    if n <= BUFFER_CAP then 0 else n - BUFFER_CAP
  }

  /** A snapshot after `n` pushes, continued with the live events up to `to`
      above its mark, is one stretch of the log. */
  lemma SnapshotAndLive(log: seq<Event>, sent: seq<Event>, n: nat, from: nat, to: nat)
    requires forall i | 0 <= i < |log| :: log[i].seq_ == i + 1
    requires from <= n <= |log| && from <= to <= |sent| <= |log| && sent == log[..|sent|]
    ensures
      var snapshot := LastOnes(log[..n]);
      snapshot + Above(sent, from, to, MaxSeq(snapshot)) == log[FirstKept(n)..if to <= n then n else to]
  {
    MarkInOrder(log[..n]);
    AboveGrows(sent, log, from, to, n);
    AboveInOrder(log, from, to, n);
    LastOnesThen(log, n, to);
  }

  lemma LastOnesThen(log: seq<Event>, n: nat, to: nat)
    requires n <= |log| && to <= |log|
    ensures LastOnes(log[..n]) + (if to <= n then [] else log[n..to]) == log[FirstKept(n)..if to <= n then n else to]
  {
  }

  lemma DeliveredInOrder(s: State)
    requires Spliced(s) && InOrder(s) && s.high.Some? && s.subAt <= s.snapAt
    ensures FirstKept(s.snapAt) <= End(s) <= |s.log| && s.delivered == s.log[FirstKept(s.snapAt)..End(s)]
  {
    var snapshot := LastOnes(s.log[..s.snapAt]);
    assert s.delivered == snapshot + Above(s.sent, s.subAt, s.subAt + s.read, MaxSeq(snapshot));
    SnapshotAndLive(s.log, s.sent, s.snapAt, s.subAt, s.subAt + s.read);
  }

  /** With serialized emits the coalescer gets one uninterrupted stretch of all
      events, each once and in order: from the first still buffered at the
      snapshot through the last received. */
  lemma ExactlyOnceInOrder(run: seq<State>, steps: seq<Step>, k: nat)
    requires IsRun(run, steps) && Serialized(run, steps) && k <= |steps| && run[k].high.Some?
    ensures FirstKept(run[k].snapAt) <= End(run[k]) <= |run[k].log|
    ensures run[k].delivered == run[k].log[FirstKept(run[k].snapAt)..End(run[k])]
    ensures forall i | 0 <= i < |run[k].log| :: run[k].log[i].seq_ == i + 1
  {
    RunKeeps(run, steps, k);
    RunInOrder(run, steps, k);
    SubscribedBefore(run[k]);
    DeliveredInOrder(run[k]);
  }

  /** In a log without repeats, a later stretch holds everything from `from` on exactly when it starts by then. */
  lemma StretchHolds(log: seq<Event>, from: nat, first: nat)
    requires first <= |log| && from <= |log|
    requires forall i | 0 <= i < |log| :: log[i].seq_ == i + 1
    ensures (forall i | from <= i < |log| :: log[i] in log[first..]) <==> first <= from
  {
    if first <= from {
      forall i | from <= i < |log| ensures log[i] in log[first..] {
        assert log[first..][i - first] == log[i];
      }
    } else {
      assert log[from] !in log[first..];
    }
  }

  lemma MissedNothing(s: State)
    requires Spliced(s) && InOrder(s) && CaughtUp(s) && s.subAt <= s.snapAt
    ensures (forall i | s.subAt <= i < |s.log| :: s.log[i] in s.delivered) <==> s.snapAt - s.subAt <= BUFFER_CAP
  {
    AllReceived(s);
    DeliveredInOrder(s);
    StretchHolds(s.log, s.subAt, FirstKept(s.snapAt));
  }

  /** Nothing sent since the subscription is missing exactly when no more than
      a thousand events came between the subscription and the snapshot. */
  lemma NothingMissedIff(run: seq<State>, steps: seq<Step>, k: nat)
    requires IsRun(run, steps) && Serialized(run, steps) && k <= |steps| && CaughtUp(run[k])
    ensures (forall i | run[k].subAt <= i < |run[k].log| :: run[k].log[i] in run[k].delivered)
            <==> run[k].snapAt - run[k].subAt <= BUFFER_CAP
  {
    RunKeeps(run, steps, k);
    RunInOrder(run, steps, k);
    SubscribedBefore(run[k]);
    MissedNothing(run[k]);
  }

  lemma AllReceived(s: State)
    requires Spliced(s) && InOrder(s) && CaughtUp(s)
    ensures s.subAt + s.read == |s.log| && s.log[FirstKept(s.snapAt)..End(s)] == s.log[FirstKept(s.snapAt)..]
  {
  }
}
