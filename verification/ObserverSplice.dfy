/** Emitters and the relay publisher interleaved: which events the publisher
    passes on, and how often (crates/buzz-acp/src/observer.rs:87-136,
    crates/buzz-acp/src/lib.rs:419-484). An emit is three steps, since other
    emitters and the publisher can run between drawing the sequence number,
    pushing to the replay buffer and sending to the live feed. */
module ObserverSplice {
  import opened Options
  import opened ObserverBus

  datatype Step =
    | Draw(body: Event)
    | Push(e: Event)
    | Send(e: Event)
    | Subscribe
    | TakeSnapshot
    | Receive

  /** The bus, the emits under way, what the publisher has, and histories: every
      push and send in order, how many of them came before the subscription and
      the snapshot, and how many live events were received. */
  datatype State = State(
    bus: Bus,
    drawn: set<Event>,
    unsent: set<Event>,
    high: Option<nat>,
    delivered: seq<Event>,
    log: seq<Event>,
    sent: seq<Event>,
    subAt: nat,
    snapAt: nat,
    read: nat)

  const START := State(NEW_BUS, {}, {}, None, [], [], [], 0, 0, 0)

  predicate Enabled(s: State, step: Step) {
    match step
    case Draw(_) => true
    case Push(e) => e in s.drawn
    case Send(e) => e in s.unsent
    case Subscribe => s.bus.live.None?
    case TakeSnapshot => s.bus.live.Some? && s.high.None?
    case Receive => s.high.Some? && s.bus.live.Some? && s.bus.live.value != []
  }

  function Next(s: State, step: Step): State
    requires Enabled(s, step)
  {
    match step
    case Draw(body) =>
      s.(bus := s.bus.(next := s.bus.next + 1), drawn := s.drawn + {body.(seq_ := s.bus.next)})
    case Push(e) =>
      s.(bus := Pushed(s.bus, e), drawn := s.drawn - {e}, unsent := s.unsent + {e}, log := s.log + [e])
    case Send(e) =>
      s.(bus := Sent(s.bus, e), unsent := s.unsent - {e}, sent := s.sent + [e])
    case Subscribe =>
      s.(bus := s.bus.(live := Some([])), subAt := |s.sent|)
    case TakeSnapshot =>
      s.(high := Some(MaxSeq(s.bus.buffer)), delivered := s.bus.buffer, snapAt := |s.log|)
    case Receive =>
      var e := s.bus.live.value[0];
      s.(bus := s.bus.(live := Some(s.bus.live.value[1..])),
         delivered := if e.seq_ <= s.high.value then s.delivered else s.delivered + [e],
         read := s.read + 1)
  }

  // ---- What every step keeps ----------------------------------------------

  /** Sequence numbers are given out once. */
  ghost predicate Numbered(s: State) {
    && s.bus.next >= 1
    && (forall e | e in s.drawn :: 1 <= e.seq_ < s.bus.next)
    && (forall i | 0 <= i < |s.log| :: 1 <= s.log[i].seq_ < s.bus.next)
    && (forall d, e | d in s.drawn && e in s.drawn && d.seq_ == e.seq_ :: d == e)
    && (forall e, i | e in s.drawn && 0 <= i < |s.log| :: e.seq_ != s.log[i].seq_)
    && (forall i, j | 0 <= i < j < |s.log| :: s.log[i].seq_ != s.log[j].seq_)
  }

  /** What was pushed is sent once, or still to be sent. */
  ghost predicate SentOnce(s: State) {
    && (forall e | e in s.sent :: e in s.log && e !in s.unsent)
    && (forall i, j | 0 <= i < j < |s.sent| :: s.sent[i] != s.sent[j])
    && (forall e | e in s.unsent :: e in s.log)
    && (forall e | e in s.log :: e in s.unsent || e in s.sent)
  }

  /** The buffer is the last thousand pushes; the publisher has its snapshot
      and the live events it received, less those at or below the mark. */
  ghost predicate Spliced(s: State) {
    && s.bus.buffer == LastOnes(s.log)
    && s.subAt + s.read <= |s.sent| && s.snapAt <= |s.log|
    && (s.bus.live.None? ==> s.high.None? && s.read == 0)
    && (s.bus.live.Some? ==> s.bus.live.value == s.sent[s.subAt + s.read..])
    && (s.high.None? ==> s.delivered == [] && s.read == 0)
    && (s.high.Some? ==>
          && s.high.value == MaxSeq(LastOnes(s.log[..s.snapAt]))
          && s.delivered == LastOnes(s.log[..s.snapAt]) + Above(s.sent, s.subAt, s.subAt + s.read, s.high.value))
  }

  /** What was sent before the subscription was pushed before the snapshot. */
  ghost predicate Ordered(s: State) {
    && s.snapAt <= |s.log| && s.subAt <= |s.sent|
    && (s.bus.live.None? ==> s.high.None?)
    && (s.high.Some? ==> forall i | 0 <= i < s.subAt :: s.sent[i] in s.log[..s.snapAt])
  }

  lemma NumberedPush(s: State, e: Event)
    requires Numbered(s) && e in s.drawn
    ensures Numbered(Next(s, Push(e)))
  {
    var t := Next(s, Push(e));
    forall i, j | 0 <= i < j < |t.log| ensures t.log[i].seq_ != t.log[j].seq_ {
      if j == |s.log| {
        assert t.log[i] == s.log[i];
      }
    }
  }

  lemma NumberedStep(s: State, step: Step)
    requires Numbered(s) && Enabled(s, step)
    ensures Numbered(Next(s, step))
  {
    if step.Push? {
      NumberedPush(s, step.e);
    } else if step.Draw? {
      assert Next(s, step).log == s.log;
    }
  }

  lemma SentOnceStep(s: State, step: Step)
    requires Numbered(s) && SentOnce(s) && Enabled(s, step)
    ensures SentOnce(Next(s, step))
  {
    if step.Push? {
      var t := Next(s, step);
      assert forall i | 0 <= i < |s.log| :: t.log[i] == s.log[i];
      assert step.e !in s.log;
      assert t.log[|s.log|] == step.e;
    } else if step.Send? {
      var t := Next(s, step);
      assert forall i | 0 <= i < |s.sent| :: t.sent[i] == s.sent[i];
      assert t.sent[|s.sent|] == step.e;
    }
  }

  lemma {:induction false} AboveGrows(a: seq<Event>, b: seq<Event>, from: nat, to: nat, high: nat)
    requires from <= to <= |a| <= |b| && b[..|a|] == a
    ensures Above(a, from, to, high) == Above(b, from, to, high)
  {
    if from < to {
      AboveGrows(a, b, from, to - 1, high);
      assert a[to - 1] == b[..|a|][to - 1];
    }
  }

  lemma LastOnesPush(log: seq<Event>, e: Event)
    ensures
      var kept := LastOnes(log);
      LastOnes(log + [e]) == (if |kept| >= BUFFER_CAP then kept[1..] else kept) + [e]
  {
  }

  lemma SplicedPush(s: State, e: Event)
    requires Spliced(s) && e in s.drawn
    ensures Spliced(Next(s, Push(e)))
  {
    LastOnesPush(s.log, e);
    assert (s.log + [e])[..s.snapAt] == s.log[..s.snapAt];
  }

  lemma SplicedSend(s: State, e: Event)
    requires Spliced(s) && e in s.unsent
    ensures Spliced(Next(s, Send(e)))
  {
    var t := Next(s, Send(e));
    assert t.sent[s.subAt + s.read..] == s.sent[s.subAt + s.read..] + [e];
    if s.high.Some? {
      AboveGrows(s.sent, t.sent, s.subAt, s.subAt + s.read, s.high.value);
    }
  }

  lemma SplicedReceive(s: State)
    requires Spliced(s) && Enabled(s, Receive)
    ensures Spliced(Next(s, Receive))
  {
    var at := s.subAt + s.read;
    assert s.bus.live.value[0] == s.sent[at];
    assert s.bus.live.value[1..] == s.sent[at + 1..];
  }

  lemma SplicedStep(s: State, step: Step)
    requires Spliced(s) && Enabled(s, step)
    ensures Spliced(Next(s, step))
  {
    match step {
      case Draw(_) =>
      case Push(e) => SplicedPush(s, e);
      case Send(e) => SplicedSend(s, e);
      case Subscribe =>
      case TakeSnapshot => assert s.log[..|s.log|] == s.log;
      case Receive => SplicedReceive(s);
    }
  }

  lemma OrderedStep(s: State, step: Step)
    requires SentOnce(s) && Ordered(s) && Enabled(s, step)
    ensures Ordered(Next(s, step))
  {
    match step {
      case Push(e) => assert (s.log + [e])[..s.snapAt] == s.log[..s.snapAt];
      case TakeSnapshot => assert s.log[..|s.log|] == s.log;
      case _ =>
    }
  }

  // ---- Runs ---------------------------------------------------------------

  ghost predicate Invariant(s: State) {
    Numbered(s) && SentOnce(s) && Spliced(s) && Ordered(s)
  }

  /** Every step of the run is enabled where it happens. */
  ghost predicate IsRun(run: seq<State>, steps: seq<Step>) {
    && |run| == |steps| + 1 && run[0] == START
    && forall k {:trigger steps[k]} | 0 <= k < |steps| :: Enabled(run[k], steps[k]) && run[k + 1] == Next(run[k], steps[k])
  }

  lemma StepKeeps(s: State, step: Step)
    requires Invariant(s) && Enabled(s, step)
    ensures Invariant(Next(s, step))
  {
    NumberedStep(s, step);
    SentOnceStep(s, step);
    SplicedStep(s, step);
    OrderedStep(s, step);
  }

  lemma {:induction false} RunKeeps(run: seq<State>, steps: seq<Step>, k: nat)
    requires IsRun(run, steps) && k <= |steps|
    ensures Invariant(run[k])
  {
    if k > 0 {
      RunKeeps(run, steps, k - 1);
      var j := k - 1;
      StepKeeps(run[j], steps[j]);
      assert run[j + 1] == Next(run[j], steps[j]);
    }
  }

  /** In every interleaving the replay buffer is the last thousand pushes. */
  lemma BufferIsLastThousand(run: seq<State>, steps: seq<Step>, k: nat)
    requires IsRun(run, steps) && k <= |steps|
    ensures run[k].bus.buffer == LastOnes(run[k].log)
  {
    RunKeeps(run, steps, k);
  }

  /** An emit nobody interrupts is its three steps, each enabled in its turn. */
  lemma EmitIsThreeSteps(s: State, body: Event)
    ensures
      var e := body.(seq_ := s.bus.next);
      && Enabled(s, Draw(body)) && Enabled(Next(s, Draw(body)), Push(e))
      && Enabled(Next(Next(s, Draw(body)), Push(e)), Send(e))
      && Next(Next(Next(s, Draw(body)), Push(e)), Send(e)).bus == Emitted(s.bus, body)
  {
  }

  /** Its event gets the next number, ends the replay buffer of the last thousand
      and the live feed, and nothing else in them moves. */
  lemma EmitAppends(b: Bus, log: seq<Event>, body: Event)
    requires b.buffer == LastOnes(log)
    ensures
      var e, after := body.(seq_ := b.next), Emitted(b, body);
      && after.next == b.next + 1 && after.buffer == LastOnes(log + [e])
      && after.live == (if b.live.Some? then Some(b.live.value + [e]) else None)
  {
    LastOnesPush(log, body.(seq_ := b.next));
  }
}
