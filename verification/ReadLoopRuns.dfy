/** What every run of the read loop keeps: steers are resolved exactly once,
    deadlines move only for a delivered steer, and output cannot starve them
    (crates/buzz-acp/src/acp.rs:1305-1708). */
module ReadLoopRuns {
  import opened Options
  import opened Json
  import opened ReadLoop
  import opened Runs

  // ---- One iteration ------------------------------------------------------

  /** Nothing timed out at the top of the iteration, and `steer` is taken from the mailbox. */
  predicate Takes(l: LoopState, i: Input, steer: SteerId) {
    i.checkAt < NextDeadline(l) && i.event.Steer? && i.event.steer == steer
  }

  /** The loop answers for this steer: its write is in flight, or it is just taken. */
  predicate Holds(l: LoopState, steer: SteerId) {
    l.pending.Some? && l.pending.value.steer == steer
  }

  /** The steer in flight is resolved or kept, and a steer taken is too; nothing else is acknowledged. */
  lemma CustodyStep(p: Params, l: LoopState, i: Input, steer: SteerId)
    requires Possible(l, i)
    ensures
      var o := Iterated(p, l, i);
      (Holds(l, steer) || Takes(l, i, steer))
      <==> (Holds(o.next, steer) || (o.ack.Some? && o.ack.value.0 == steer))
    ensures
      var o := Iterated(p, l, i);
      !(Holds(o.next, steer) && o.ack.Some? && o.ack.value.0 == steer)
    ensures !(Holds(l, steer) && Takes(l, i, steer))
  {
    match i.event {
      case Line(Message(msg), readAt, laterAt, writeOk) =>
        DispatchFrame(p, Active(p, l, readAt), msg, laterAt, writeOk);
      case _ =>
    }
  }

  /** The iteration reads `msg`. */
  predicate Reads(l: LoopState, i: Input, msg: Value) {
    i.checkAt < NextDeadline(l) && i.event.Line? && i.event.line == Message(msg)
  }

  /** `msg` answers the steer in flight with a result that means delivery. */
  predicate Delivers(l: LoopState, msg: Value) {
    && l.pending.Some? && Answers(msg, l.pending.value.id) && Get(msg, "error").None?
    && match l.pending.value.transport
       case Goose => true
       case AcpExtension =>
         AsString(GetPath(msg, ["result", "outcome"])) in {Some(INJECTED), Some(STARTED_NEW_TURN)}
  }

  /** A steer is acknowledged as delivered exactly when a success response with
      its own id is read, which on the extension names a delivering outcome. */
  lemma SuccessIff(p: Params, l: LoopState, i: Input, steer: SteerId)
    ensures Iterated(p, l, i).ack == Some((steer, Success))
            <==> Holds(l, steer) && i.event.Line? && i.event.line.Message?
                 && Reads(l, i, i.event.line.msg) && Delivers(l, i.event.line.msg)
  {
    match i.event {
      case Line(Message(msg), readAt, laterAt, writeOk) =>
        DispatchFrame(p, Active(p, l, readAt), msg, laterAt, writeOk);
      case _ =>
    }
  }

  /** `msg` says the steer landed in the turn being awaited. */
  predicate Injects(l: LoopState, msg: Value) {
    && Delivers(l, msg)
    && (l.pending.value.transport.AcpExtension? ==>
          AsString(GetPath(msg, ["result", "outcome"])) == Some(INJECTED))
  }

  /** The hard deadline never decreases, and moves only to the full duration after such a response. */
  lemma HardStep(p: Params, l: LoopState, i: Input)
    ensures Iterated(p, l, i).next.hardDeadline >= l.hardDeadline
    ensures Iterated(p, l, i).next.hardDeadline != l.hardDeadline ==>
              && i.event.Line? && i.event.line.Message?
              && Reads(l, i, i.event.line.msg) && Injects(l, i.event.line.msg)
              && Iterated(p, l, i).next.hardDeadline == i.event.laterAt + p.maxDuration
  {
    match i.event {
      case Line(Message(msg), readAt, laterAt, writeOk) =>
        DispatchFrame(p, Active(p, l, readAt), msg, laterAt, writeOk);
      case _ =>
    }
  }

  /** Conversely, such a response always counts: the deadline is then the later
      of the old one and the full duration from now. */
  lemma RenewalStep(p: Params, l: LoopState, i: Input)
    requires i.event.Line? && i.event.line.Message?
    requires Reads(l, i, i.event.line.msg) && Injects(l, i.event.line.msg)
    ensures
      var renewed := i.event.laterAt + p.maxDuration;
      Iterated(p, l, i).next.hardDeadline == if renewed > l.hardDeadline then renewed else l.hardDeadline
  {
  }

  /** A steer taken is written exactly when some transport is open and the pipe
      takes it; otherwise it is acknowledged at once with the reason. */
  lemma WriteIff(p: Params, l: LoopState, i: Input, steer: SteerId)
    requires Takes(l, i, steer)
    ensures
      var o := Iterated(p, l, i);
      var open := l.activeRunId.Some? || l.steeringSupported;
      && (o.wrote.Some? <==> open && i.event.writeOk)
      && (o.wrote.Some? ==> o.wrote.value.steer == steer && o.next.pending == o.wrote)
      && (o.ack == Some((steer, Failed(ExpectedRunIdMissing))) <==> !open)
      && (o.ack == Some((steer, Failed(WriteFailed))) <==> open && !i.event.writeOk)
      && o.finish.None?
  {
  }

  /** `msg` is read while the steer waits for it. */
  predicate ReadsAnswer(l: LoopState, i: Input, steer: SteerId) {
    && Holds(l, steer) && i.event.Line? && i.event.line.Message?
    && Reads(l, i, i.event.line.msg) && Answers(i.event.line.msg, l.pending.value.id)
  }

  /** The code an error object carries, -1 if it has none that fits 64 bits. */
  predicate HasCode(error: Value, code: int) {
    || (Get(error, "code") == Some(Int(code)) && -0x8000_0000_0000_0000 <= code < 0x8000_0000_0000_0000)
    || (code == -1
        && forall n | -0x8000_0000_0000_0000 <= n < 0x8000_0000_0000_0000 :: Get(error, "code") != Some(Int(n)))
  }

  /** A steer is rejected with an error code exactly when its own response is an error with that code. */
  lemma ErrorIff(p: Params, l: LoopState, i: Input, steer: SteerId, code: int)
    ensures Iterated(p, l, i).ack == Some((steer, Failed(SteerAgentError(code))))
            <==> ReadsAnswer(l, i, steer) && Get(i.event.line.msg, "error").Some?
                 && HasCode(Get(i.event.line.msg, "error").value, code)
  {
    match i.event {
      case Line(Message(msg), readAt, laterAt, writeOk) =>
        DispatchFrame(p, Active(p, l, readAt), msg, laterAt, writeOk);
        if Get(msg, "error").Some? {
          CodeIff(msg, code);
        }
      case _ =>
    }
  }

  lemma CodeIff(msg: Value, code: int)
    requires Get(msg, "error").Some?
    ensures ErrorCode(Get(msg, "error").value) == code <==> HasCode(Get(msg, "error").value, code)
  {
    match Get(Get(msg, "error").value, "code") {
      case Some(Int(n)) =>
        assert Get(Get(msg, "error").value, "code") == Some(Int(n));
      case _ =>
    }
  }

  /** And for its outcome exactly when that response is a success that does not mean delivery. */
  lemma OutcomeRejectedIff(p: Params, l: LoopState, i: Input, steer: SteerId)
    ensures Iterated(p, l, i).ack == Some((steer, Failed(OutcomeRejected)))
            <==> ReadsAnswer(l, i, steer) && Get(i.event.line.msg, "error").None? && !Delivers(l, i.event.line.msg)
  {
    match i.event {
      case Line(Message(msg), readAt, laterAt, writeOk) =>
        DispatchFrame(p, Active(p, l, readAt), msg, laterAt, writeOk);
      case _ =>
    }
  }

  /** A message the loop cannot get past: a permission request it cannot answer
      or whose answer cannot be written, or any other request of the agent, bar
      the two update methods, whose refusal cannot be written. */
  predicate Fatal(msg: Value, writeOk: bool) {
    match AsString(Get(msg, "method"))
    case None => false
    case Some(name) =>
      if name == "session/request_permission" then !Answerable(msg) || !writeOk
      else
        && name != "session/update" && name != "_goose/unstable/session/update"
        && Get(msg, "id").Some? && !writeOk
  }

  /** The iteration reads such a message. */
  predicate ReadsFatal(l: LoopState, i: Input) {
    && i.event.Line? && i.event.line.Message?
    && Reads(l, i, i.event.line.msg) && Fatal(i.event.line.msg, i.event.writeOk)
  }

  /** A return leaves a steer in flight exactly when one is and such a message is read. */
  lemma LeakIff(p: Params, l: LoopState, i: Input)
    requires Possible(l, i)
    ensures
      var o := Iterated(p, l, i);
      (o.finish.Some? && o.next.pending.Some?) <==> (l.pending.Some? && ReadsFatal(l, i))
    ensures l.pending.Some? && ReadsFatal(l, i) ==> Iterated(p, l, i).next.pending == l.pending
  {
    match i.event {
      case Line(Message(msg), readAt, laterAt, writeOk) =>
        DispatchFrame(p, Active(p, l, readAt), msg, laterAt, writeOk);
      case _ =>
    }
  }

  /** A timeout is returned when the nearer deadline has come, and is named after it. */
  lemma TimeoutStep(p: Params, l: LoopState, i: Input)
    requires Possible(l, i)
    ensures
      var o := Iterated(p, l, i);
      var now := if i.checkAt >= NextDeadline(l) then i.checkAt else if i.event.Deadline? then i.event.at else i.checkAt;
      && (o.finish.Some? && TimedOut(o.finish.value)
          <==> i.checkAt >= NextDeadline(l) || i.event.Deadline?)
      && (o.finish == Some(IdleTimeout)
          <==> l.idleDeadline < l.hardDeadline && (i.checkAt >= NextDeadline(l) || i.event.Deadline?))
      && (o.finish == Some(IdleTimeout) ==> now >= l.idleDeadline)
      && (o.finish.Some? && o.finish.value.HardTimeout? ==>
            now >= l.hardDeadline && o.finish.value.silence == Silence(l, now))
  {
    match i.event {
      case Line(Message(msg), readAt, laterAt, writeOk) =>
        DispatchFrame(p, Active(p, l, readAt), msg, laterAt, writeOk);
      case _ =>
    }
  }

  /** The loop returns a result exactly when it reads the success response to
      the prompt, and that result, null if the response has none. */
  lemma ResponseIff(p: Params, l: LoopState, i: Input, result: Value)
    ensures Iterated(p, l, i).finish == Some(Response(result))
            <==> i.event.Line? && i.event.line.Message? && Reads(l, i, i.event.line.msg)
                 && IsPromptAnswer(p, l, i.event.line.msg) && Get(i.event.line.msg, "error").None?
                 && result == if Get(i.event.line.msg, "result").Some? then Get(i.event.line.msg, "result").value else Null
    ensures Iterated(p, l, i).finish == Some(AgentError)
            <==> i.event.Line? && i.event.line.Message? && Reads(l, i, i.event.line.msg)
                 && IsPromptAnswer(p, l, i.event.line.msg) && Get(i.event.line.msg, "error").Some?
  {
    match i.event {
      case Line(Message(msg), readAt, laterAt, writeOk) =>
        DispatchFrame(p, Active(p, l, readAt), msg, laterAt, writeOk);
      case _ =>
    }
  }

  predicate IsPromptAnswer(p: Params, l: LoopState, msg: Value) {
    Answers(msg, p.expectedId) && !(l.pending.Some? && l.pending.value.id == p.expectedId)
  }

  /** What the reader's ends and unreadable lines do. */
  lemma ReaderIff(p: Params, l: LoopState, i: Input)
    requires i.checkAt < NextDeadline(l)
    ensures
      var finish := Iterated(p, l, i).finish;
      && (finish == Some(AgentExited) <==> i.event.Eof?)
      && (finish == Some(LineTooLong) <==> i.event.TooLong?)
      && (finish == Some(ReadFailed) <==> i.event.Broken?)
    ensures i.event.Line? && !i.event.line.Message? ==>
              Iterated(p, l, i).next == l && Iterated(p, l, i).ack.None? && Iterated(p, l, i).finish.None?
  {
    match i.event {
      case Line(Message(msg), readAt, laterAt, writeOk) =>
        DispatchFrame(p, Active(p, l, readAt), msg, laterAt, writeOk);
      case _ =>
    }
  }

  /** A steer is resolved as neutral exactly when the loop returns while it is in
      flight, other than after a fatal message. */
  lemma NeutralIff(p: Params, l: LoopState, i: Input, steer: SteerId)
    requires Possible(l, i)
    ensures Iterated(p, l, i).ack == Some((steer, PromptCompletedNeutral))
            <==> Holds(l, steer) && Iterated(p, l, i).finish.Some? && !ReadsFatal(l, i)
  {
    match i.event {
      case Line(Message(msg), readAt, laterAt, writeOk) =>
        DispatchFrame(p, Active(p, l, readAt), msg, laterAt, writeOk);
      case _ =>
    }
  }

  /** A fatal message is returned as what was wrong with it. */
  lemma FatalFinish(p: Params, l: LoopState, i: Input)
    requires ReadsFatal(l, i)
    ensures
      var msg := i.event.line.msg;
      Iterated(p, l, i).finish == Some(
        if AsString(Get(msg, "method")) == Some("session/request_permission") && !Answerable(msg)
        then BadPermissionRequest else ReplyFailed)
  {
  }

  /** Number `k` is the first option of the kind. */
  ghost predicate FirstIs(options: seq<Value>, kind: string, k: nat) {
    k < |options| && OfKind(options[k], kind) && forall j | 0 <= j < k :: !OfKind(options[j], kind)
  }

  lemma {:induction false} FirstOfKindIs(options: seq<Value>, kind: string)
    ensures FirstOfKind(options, kind).None? <==> forall j | 0 <= j < |options| :: !OfKind(options[j], kind)
    ensures forall k: nat | FirstIs(options, kind, k) :: FirstOfKind(options, kind) == Some(options[k])
  {
    if options != [] {
      FirstOfKindIs(options[1..], kind);
      forall k: nat | FirstIs(options, kind, k) ensures FirstOfKind(options, kind) == Some(options[k]) {
        if k > 0 {
          assert !OfKind(options[0], kind);
          assert forall j | 0 <= j < k - 1 :: options[1..][j] == options[j + 1];
          assert FirstIs(options[1..], kind, k - 1);
        }
      }
    }
  }

  /** A permission request can be answered exactly when it has an id and a list of
      options whose first allow-once option has an id, or that has no allow-once
      option but some reject-once one. */
  lemma AnswerableIff(msg: Value, options: seq<Value>)
    requires GetPath(msg, ["params", "options"]) == Some(Array(options))
    ensures Answerable(msg) <==>
      && Get(msg, "id").Some?
      && ((exists k: nat :: FirstIs(options, "allow_once", k) && AsString(Get(options[k], "optionId")).Some?)
          || ((forall j | 0 <= j < |options| :: !OfKind(options[j], "allow_once"))
              && exists j | 0 <= j < |options| :: OfKind(options[j], "reject_once")))
  {
    FirstOfKindIs(options, "allow_once");
    FirstOfKindIs(options, "reject_once");
    if FirstOfKind(options, "allow_once").Some? {
      var k := SomeFirst(options, "allow_once");
    }
  }

  lemma {:induction false} SomeFirst(options: seq<Value>, kind: string) returns (k: nat)
    requires FirstOfKind(options, kind).Some?
    ensures FirstIs(options, kind, k)
  {
    if OfKind(options[0], kind) {
      return 0;
    }
    var j := SomeFirst(options[1..], kind);
    k := j + 1;
    assert forall m | 0 < m < k :: options[m] == options[1..][m - 1];
  }

  lemma AnswerableHasOptions(msg: Value)
    requires Answerable(msg)
    ensures exists options :: GetPath(msg, ["params", "options"]) == Some(Array(options))
  {
  }

  // ---- Requests and responses ---------------------------------------------

  /** A message with a method is never taken for a response, whatever id it has:
      it resolves no steer and is not the prompt's result. */
  lemma RequestIsNoAnswer(p: Params, l: LoopState, i: Input)
    requires i.event.Line? && i.event.line.Message? && Reads(l, i, i.event.line.msg)
    requires Get(i.event.line.msg, "method").Some?
    ensures
      var o := Iterated(p, l, i);
      && o.ack.None? && o.next.pending == l.pending && o.next.hardDeadline == l.hardDeadline
      && (o.finish.Some? ==> o.finish.value.BadPermissionRequest? || o.finish.value.ReplyFailed?)
  {
    DispatchFrame(p, Active(p, l, i.event.readAt), i.event.line.msg, i.event.laterAt, i.event.writeOk);
  }

  /** A message without a method that has the id of the steer in flight always
      resolves that steer and ends nothing; one that has another id does not. */
  lemma ResponseResolves(p: Params, l: LoopState, i: Input)
    requires i.event.Line? && i.event.line.Message? && Reads(l, i, i.event.line.msg) && l.pending.Some?
    requires Get(i.event.line.msg, "method").None?
    ensures
      var o := Iterated(p, l, i);
      var mine := Get(i.event.line.msg, "id") == Some(Int(l.pending.value.id));
      && (mine ==> o.ack.Some? && o.ack.value.0 == l.pending.value.steer && o.next.pending.None? && o.finish.None?)
      && (!mine && o.finish.None? ==> o.ack.None? && o.next.pending == l.pending)
      && (Get(i.event.line.msg, "id") == Some(Int(p.expectedId)) && !mine ==> o.finish.Some?)
  {
    DispatchFrame(p, Active(p, l, i.event.readAt), i.event.line.msg, i.event.laterAt, i.event.writeOk);
  }

  /** The acknowledgements of a run are those of its iterations, in order, each once. */
  lemma {:induction false} AcksParts(a: seq<Outcome>, b: seq<Outcome>)
    ensures Acks(a + b) == Acks(a) + Acks(b)
  {
    if b == [] {
      assert a + b == a;
    } else {
      assert (a + b)[..|a + b| - 1] == a + b[..|b| - 1];
      AcksParts(a, b[..|b| - 1]);
    }
  }

  lemma AcksOne(out: Outcome)
    ensures Acks([out]) == if out.ack.Some? then [out.ack.value] else []
  {
    assert [out][..0] == [];
  }

  lemma AcksAround(a: seq<Outcome>, out: Outcome, b: seq<Outcome>)
    ensures Acks(a + [out] + b) == Acks(a) + (if out.ack.Some? then [out.ack.value] else []) + Acks(b)
  {
    AcksParts(a + [out], b);
    AcksParts(a, [out]);
    AcksOne(out);
  }

  // ---- The run id ---------------------------------------------------------

  /** `msg` is a session update that sets the run id, or clears it. */
  predicate Announces(msg: Value, runId: Option<string>) {
    && AsString(Get(msg, "method")) == Some("session/update")
    && GetPath(msg, ["params", "update", "sessionUpdate"]) == Some(String("session_info_update"))
    && GetPath(msg, ["params", "update", "_meta", "goose", "activeRunId"])
       == Some(if runId.Some? then String(runId.value) else Null)
  }

  predicate ReadsAnnouncement(l: LoopState, i: Input, runId: Option<string>) {
    && i.event.Line? && i.event.line.Message?
    && Reads(l, i, i.event.line.msg) && Announces(i.event.line.msg, runId)
  }

  lemma AnnouncedId(runId: Option<string>, msg: Value)
    requires AsString(Get(msg, "method")) == Some("session/update")
    ensures forall r | Announces(msg, r) :: RunIdAfter(runId, msg) == r
    ensures (forall r :: !Announces(msg, r)) ==> RunIdAfter(runId, msg) == runId
  {
    match GetPath(msg, ["params", "update", "_meta", "goose", "activeRunId"]) {
      case Some(String(r)) => assert Announces(msg, Some(r)) || RunIdAfter(runId, msg) == runId;
      case Some(Null) => assert Announces(msg, None) || RunIdAfter(runId, msg) == runId;
      case _ =>
    }
  }

  /** The run id becomes what an announcement says, and nothing else changes it. */
  lemma RunIdStep(p: Params, l: LoopState, i: Input, runId: Option<string>)
    ensures ReadsAnnouncement(l, i, runId) ==> Iterated(p, l, i).next.activeRunId == runId
    ensures (forall r :: !ReadsAnnouncement(l, i, r)) ==> Iterated(p, l, i).next.activeRunId == l.activeRunId
  {
    match i.event {
      case Line(Message(msg), readAt, laterAt, writeOk) =>
        if AsString(Get(msg, "method")) == Some("session/update") {
          AnnouncedId(l.activeRunId, msg);
          assert Reads(l, i, msg) ==> forall r :: ReadsAnnouncement(l, i, r) <==> Announces(msg, r);
        }
      case _ =>
    }
  }

  /** A tool call that starts counts as activity at the later reading of the
      clock, every other message at the time it was read. */
  lemma ToolCallStep(p: Params, l: LoopState, i: Input)
    requires i.event.Line? && i.event.line.Message? && Reads(l, i, i.event.line.msg)
    ensures
      var msg := i.event.line.msg;
      var starts := AsString(Get(msg, "method")) == Some("session/update")
                    && GetPath(msg, ["params", "update", "sessionUpdate"]) == Some(String("tool_call"));
      Iterated(p, l, i).next.lastActivity == if starts then i.event.laterAt else i.event.readAt
  {
  }

  /** A message read is activity; nothing else is. */
  lemma ActivityStep(p: Params, l: LoopState, i: Input)
    requires Possible(l, i) && l.idleDeadline == l.lastActivity + p.idleTimeout
    ensures
      var o := Iterated(p, l, i);
      && o.next.idleDeadline == o.next.lastActivity + p.idleTimeout
      && (i.event.Line? && i.event.line.Message? && i.checkAt < NextDeadline(l) ==>
            i.event.readAt <= o.next.lastActivity <= i.event.laterAt)
      && (!(i.event.Line? && i.event.line.Message?) || i.checkAt >= NextDeadline(l) ==>
            o.next.lastActivity == l.lastActivity)
  {
    match i.event {
      case Line(Message(msg), readAt, laterAt, writeOk) =>
        DispatchFrame(p, Active(p, l, readAt), msg, laterAt, writeOk);
      case _ =>
    }
  }

  /** A steer write takes the next request id, by goose's method exactly when a
      run id is known, else by the extension, and only if that was advertised. */
  lemma WriteStep(p: Params, l: LoopState, i: Input)
    requires Possible(l, i)
    ensures
      var o := Iterated(p, l, i);
      && (o.wrote.Some? ==>
            && o.wrote.value.id == l.nextId < o.next.nextId
            && (o.wrote.value.transport.Goose? <==> l.activeRunId.Some?)
            && (o.wrote.value.transport.AcpExtension? ==> l.steeringSupported))
      && o.next.nextId >= l.nextId
      && (o.next.pending.Some? ==> o.next.pending == l.pending || o.next.pending == o.wrote)
  {
    match i.event {
      case Line(Message(msg), readAt, laterAt, writeOk) =>
        DispatchFrame(p, Active(p, l, readAt), msg, laterAt, writeOk);
      case _ =>
    }
  }

  // ---- Every run ----------------------------------------------------------

  /** The clock when the iteration ends. */
  function EndsAt(i: Input): Time {
    match i.event
    case Line(_, _, laterAt, _) => laterAt
    case Deadline(at) => at
    case _ => i.checkAt
  }

  /** A run whose events could be picked when they were, on a clock that never runs backwards. */
  ghost predicate IsTimedRun(p: Params, run: seq<LoopState>, inputs: seq<Input>, outs: seq<Outcome>) {
    && IsRun(p, run, inputs, outs)
    && (forall k {:trigger Possible(run[k], inputs[k])} | 0 <= k < |inputs| :: Possible(run[k], inputs[k]))
    && (forall k {:trigger EndsAt(inputs[k])} | 0 <= k < |inputs| - 1 :: EndsAt(inputs[k]) <= inputs[k + 1].checkAt)
    && (inputs != [] ==> run[0].lastActivity <= inputs[0].checkAt)
    && run[0].pending.None?
    && run[0].idleDeadline == run[0].lastActivity + p.idleTimeout
  }

  /** Every run of the client's loop is such a run, from the deadlines it is entered
      with, when its events can be picked and the clock does not run backwards. */
  lemma EnteredRunIsTimed(
      p: Params, run: seq<LoopState>, inputs: seq<Input>, outs: seq<Outcome>, l: LoopState, hard: Time, now: Time)
    requires IsRun(p, run, inputs, outs) && run[0] == Entered(l, p, hard, now)
    requires forall k {:trigger Possible(run[k], inputs[k])} | 0 <= k < |inputs| :: Possible(run[k], inputs[k])
    requires forall k {:trigger EndsAt(inputs[k])} | 0 <= k < |inputs| - 1 :: EndsAt(inputs[k]) <= inputs[k + 1].checkAt
    requires inputs != [] ==> now <= inputs[0].checkAt
    ensures IsTimedRun(p, run, inputs, outs)
    ensures run[0].hardDeadline == hard && run[0].lastActivity == now && run[0].nextId == l.nextId
  {
  }

  // ---- Steers are resolved exactly once -----------------------------------

  /** How often the steer was taken from the mailbox in the first `k` iterations. */
  function Taken(run: seq<LoopState>, inputs: seq<Input>, steer: SteerId, k: nat): nat
    requires k <= |inputs| <= |run|
  {
    if k == 0 then 0
    else Taken(run, inputs, steer, k - 1) + (if Takes(run[k - 1], inputs[k - 1], steer) then 1 else 0)
  }

  /** How often it was acknowledged. */
  function Acknowledged(outs: seq<Outcome>, steer: SteerId, k: nat): nat
    requires k <= |outs|
  {
    if k == 0 then 0
    else
      Acknowledged(outs, steer, k - 1)
      + (if outs[k - 1].ack.Some? && outs[k - 1].ack.value.0 == steer then 1 else 0)
  }

  /** Every steer taken was acknowledged once for each time it was taken, except one still in flight. */
  predicate Settled(run: seq<LoopState>, inputs: seq<Input>, outs: seq<Outcome>, steer: SteerId, k: nat)
    requires k <= |inputs| == |outs| < |run|
  {
    Taken(run, inputs, steer, k) == Acknowledged(outs, steer, k) + (if Holds(run[k], steer) then 1 else 0)
  }

  lemma CustodyAt(p: Params, run: seq<LoopState>, inputs: seq<Input>, outs: seq<Outcome>, steer: SteerId, k: nat)
    requires IsTimedRun(p, run, inputs, outs) && k < |inputs| && Settled(run, inputs, outs, steer, k)
    ensures Settled(run, inputs, outs, steer, k + 1)
  {
    AtIteration(p, run, inputs, outs, k);
    CustodyStep(p, run[k], inputs[k], steer);
  }

  lemma EachSteerResolvedOnce(
      p: Params, run: seq<LoopState>, inputs: seq<Input>, outs: seq<Outcome>, steer: SteerId, k: nat)
    requires IsTimedRun(p, run, inputs, outs) && k <= |inputs|
    ensures Settled(run, inputs, outs, steer, k)
  {
    var holds := (j: nat) => j <= |inputs| == |outs| < |run| ==> Settled(run, inputs, outs, steer, j);
    forall j | 0 <= j < k && holds(j) ensures holds(j + 1) {
      CustodyAt(p, run, inputs, outs, steer, j);
    }
    Carry(holds, 0, k);
  }

  /** The loop returns with a steer it took unacknowledged exactly when that
      steer's write is in flight and the last line read is a fatal message. */
  lemma UnresolvedIff(p: Params, run: seq<LoopState>, inputs: seq<Input>, outs: seq<Outcome>, steer: SteerId)
    requires IsTimedRun(p, run, inputs, outs) && inputs != []
    ensures
      var n := |inputs|;
      (outs[n - 1].finish.Some? && Taken(run, inputs, steer, n) > Acknowledged(outs, steer, n))
      <==> (Holds(run[n - 1], steer) && ReadsFatal(run[n - 1], inputs[n - 1]))
  {
    var n := |inputs|;
    EachSteerResolvedOnce(p, run, inputs, outs, steer, n);
    AtIteration(p, run, inputs, outs, n - 1);
    PossibleAt(p, run, inputs, outs, n - 1);
    LeakIff(p, run[n - 1], inputs[n - 1]);
  }

  lemma PossibleAt(p: Params, run: seq<LoopState>, inputs: seq<Input>, outs: seq<Outcome>, k: nat)
    requires IsTimedRun(p, run, inputs, outs) && k < |inputs|
    ensures Possible(run[k], inputs[k])
  {
  }

  const PERMISSION_WITHOUT_ID := Object(map["method" := String("session/request_permission")])

  /** Such a run exists: a steer is written, and then the agent sends a
      permission request without an id. */
  lemma UnresolvedSteer(steer: SteerId)
    returns (p: Params, run: seq<LoopState>, inputs: seq<Input>, outs: seq<Outcome>)
    ensures IsTimedRun(p, run, inputs, outs) && |inputs| == 2
    ensures outs[1].finish.Some? && Taken(run, inputs, steer, 2) == 1 && Acknowledged(outs, steer, 2) == 0
  {
    p := Params(0, 10, 100);
    var l0 := LoopState(1, Some(100), Some("run"), false, 10, 100, 0, None);
    inputs := [Input(1, Steer(steer, true)), Input(2, Line(Message(PERMISSION_WITHOUT_ID), 3, 3, true))];
    var o0 := Iterated(p, l0, inputs[0]);
    var o1 := Iterated(p, o0.next, inputs[1]);
    run, outs := [l0, o0.next, o1.next], [o0, o1];
    assert outs[0] == Body(p)(run[0], inputs[0]) && outs[1] == Body(p)(run[1], inputs[1]);
    assert o0 == Steering(l0, steer, true);
    assert Fatal(PERMISSION_WITHOUT_ID, true);
    assert Taken(run, inputs, steer, 1) == 1 && Acknowledged(outs, steer, 1) == 0;
    assert !Takes(run[1], inputs[1], steer);
  }

  // ---- Delivery needs the steer's own response ----------------------------

  lemma PendingAt(p: Params, run: seq<LoopState>, inputs: seq<Input>, outs: seq<Outcome>, k: nat)
    requires IsTimedRun(p, run, inputs, outs) && k < |inputs|
    ensures run[k + 1].pending.Some? ==> run[k + 1].pending == run[k].pending || run[k + 1].pending == outs[k].wrote
    ensures run[k].nextId <= run[k + 1].nextId
    ensures outs[k].wrote.Some? ==> outs[k].wrote.value.id == run[k].nextId < run[k + 1].nextId
  {
    AtIteration(p, run, inputs, outs, k);
    WriteStep(p, run[k], inputs[k]);
  }

  /** A steer in flight was written by an earlier iteration. */
  lemma PendingWasWritten(p: Params, run: seq<LoopState>, inputs: seq<Input>, outs: seq<Outcome>, k: nat)
    returns (w: nat)
    requires IsTimedRun(p, run, inputs, outs) && k <= |inputs| && run[k].pending.Some?
    ensures w < k && outs[w].wrote == run[k].pending
  {
    var held := (j: nat) => if j < |run| then run[j].pending else None;
    var wrote := (j: nat) => if j < |outs| then outs[j].wrote else None;
    forall j | 0 <= j < k && held(j + 1).Some? ensures held(j + 1) == held(j) || held(j + 1) == wrote(j) {
      PendingAt(p, run, inputs, outs, j);
    }
    w := Origin(held, wrote, k);
  }

  lemma IdsGrow(p: Params, run: seq<LoopState>, inputs: seq<Input>, outs: seq<Outcome>, j: nat, k: nat)
    requires IsTimedRun(p, run, inputs, outs) && j <= k <= |inputs|
    ensures run[j].nextId <= run[k].nextId
  {
    var value := (i: nat) => if i < |run| then run[i].nextId else 0;
    forall i | j <= i < k ensures value(i) <= value(i + 1) {
      PendingAt(p, run, inputs, outs, i);
    }
    Grow(value, j, k);
  }

  /** No two steers are written with the same request id. */
  lemma IdsAreUnique(p: Params, run: seq<LoopState>, inputs: seq<Input>, outs: seq<Outcome>, j: nat, k: nat)
    requires IsTimedRun(p, run, inputs, outs) && j < k < |inputs|
    requires outs[j].wrote.Some? && outs[k].wrote.Some?
    ensures outs[j].wrote.value.id < outs[k].wrote.value.id
  {
    PendingAt(p, run, inputs, outs, j);
    PendingAt(p, run, inputs, outs, k);
    IdsGrow(p, run, inputs, outs, j + 1, k);
  }

  /** A steer's id is never the id of the prompt, so no response can be taken for the other's. */
  lemma SteerIdIsNotPromptId(p: Params, run: seq<LoopState>, inputs: seq<Input>, outs: seq<Outcome>, k: nat)
    requires IsTimedRun(p, run, inputs, outs) && k <= |inputs| && run[k].pending.Some?
    requires p.expectedId < run[0].nextId
    ensures run[k].pending.value.id != p.expectedId
  {
    var w := PendingWasWritten(p, run, inputs, outs, k);
    PendingAt(p, run, inputs, outs, w);
    IdsGrow(p, run, inputs, outs, 0, w);
  }

  /** A steer reported delivered was written with some id, and the message just
      read is the success response with that id; on the extension it names one
      of the two delivering outcomes. */
  lemma SuccessHasItsResponse(
      p: Params, run: seq<LoopState>, inputs: seq<Input>, outs: seq<Outcome>, steer: SteerId, k: nat)
    returns (w: nat, msg: Value)
    requires IsTimedRun(p, run, inputs, outs) && k < |inputs| && outs[k].ack == Some((steer, Success))
    ensures w < k && outs[w].wrote.Some? && outs[w].wrote.value.steer == steer
    ensures Reads(run[k], inputs[k], msg) && Answers(msg, outs[w].wrote.value.id) && Get(msg, "error").None?
    ensures outs[w].wrote.value.transport.AcpExtension? ==>
              AsString(GetPath(msg, ["result", "outcome"])) in {Some(INJECTED), Some(STARTED_NEW_TURN)}
  {
    AtIteration(p, run, inputs, outs, k);
    SuccessIff(p, run[k], inputs[k], steer);
    w := PendingWasWritten(p, run, inputs, outs, k);
    msg := inputs[k].event.line.msg;
  }

  // ---- The hard deadline --------------------------------------------------

  /** Iteration `k` reads that the steer landed in the turn being awaited. */
  predicate InjectedAt(run: seq<LoopState>, inputs: seq<Input>, k: nat)
    requires k < |inputs| <= |run|
  {
    && inputs[k].event.Line? && inputs[k].event.line.Message?
    && Reads(run[k], inputs[k], inputs[k].event.line.msg) && Injects(run[k], inputs[k].event.line.msg)
  }

  lemma HardIsCurrentAt(p: Params, run: seq<LoopState>, inputs: seq<Input>, outs: seq<Outcome>, k: nat)
    requires IsRun(p, run, inputs, outs) && k < |inputs| && run[k].currentHard == Some(run[k].hardDeadline)
    ensures run[k + 1].currentHard == Some(run[k + 1].hardDeadline)
  {
    AtIteration(p, run, inputs, outs, k);
    HardIsCurrentStep(p, run[k], inputs[k]);
  }

  /** During a prompt the stored deadline is the loop's own, renewals included. */
  lemma HardIsCurrent(p: Params, run: seq<LoopState>, inputs: seq<Input>, outs: seq<Outcome>, k: nat)
    requires IsRun(p, run, inputs, outs) && k <= |inputs| && run[0].currentHard == Some(run[0].hardDeadline)
    ensures run[k].currentHard == Some(run[k].hardDeadline)
  {
    var holds := (j: nat) => j < |run| ==> run[j].currentHard == Some(run[j].hardDeadline);
    forall j | 0 <= j < k && holds(j) ensures holds(j + 1) {
      HardIsCurrentAt(p, run, inputs, outs, j);
    }
    Carry(holds, 0, k);
  }

  lemma HardGrowsAt(p: Params, run: seq<LoopState>, inputs: seq<Input>, outs: seq<Outcome>, k: nat)
    requires IsRun(p, run, inputs, outs) && k < |inputs|
    ensures run[k].hardDeadline <= run[k + 1].hardDeadline
  {
    AtIteration(p, run, inputs, outs, k);
    HardStep(p, run[k], inputs[k]);
  }

  lemma HardMovesAt(p: Params, run: seq<LoopState>, inputs: seq<Input>, outs: seq<Outcome>, k: nat)
    requires IsRun(p, run, inputs, outs) && k < |inputs| && run[k].hardDeadline != run[k + 1].hardDeadline
    ensures InjectedAt(run, inputs, k) && run[k + 1].hardDeadline == inputs[k].event.laterAt + p.maxDuration
  {
    AtIteration(p, run, inputs, outs, k);
    HardStep(p, run[k], inputs[k]);
  }

  lemma HardNeverDecreases(p: Params, run: seq<LoopState>, inputs: seq<Input>, outs: seq<Outcome>, j: nat, k: nat)
    requires IsTimedRun(p, run, inputs, outs) && j <= k <= |inputs|
    ensures run[j].hardDeadline <= run[k].hardDeadline
  {
    var value := (i: nat) => if i < |run| then run[i].hardDeadline else 0;
    forall i | j <= i < k ensures value(i) <= value(i + 1) {
      HardGrowsAt(p, run, inputs, outs, i);
    }
    Grow(value, j, k);
  }

  /** Where the hard deadline in force at `k` comes from: the start, or the last
      iteration that read a steer landing in this turn and renewed it. */
  lemma HardHasASource(p: Params, run: seq<LoopState>, inputs: seq<Input>, outs: seq<Outcome>, k: nat)
    returns (renewal: Option<nat>)
    requires IsRun(p, run, inputs, outs) && k <= |inputs|
    ensures renewal.None? ==> run[k].hardDeadline == run[0].hardDeadline
    ensures renewal.Some? ==>
              && renewal.value < k && InjectedAt(run, inputs, renewal.value)
              && run[k].hardDeadline == inputs[renewal.value].event.laterAt + p.maxDuration
  {
    var value := (i: nat) => if i < |run| then run[i].hardDeadline else 0;
    renewal := LastChange(value, k);
    if renewal.Some? {
      HardMovesAt(p, run, inputs, outs, renewal.value);
    }
  }

  lemma RenewalAt(p: Params, run: seq<LoopState>, inputs: seq<Input>, outs: seq<Outcome>, k: nat)
    requires IsRun(p, run, inputs, outs) && k < |inputs| && InjectedAt(run, inputs, k)
    ensures run[k + 1].hardDeadline >= inputs[k].event.laterAt + p.maxDuration
  {
    AtIteration(p, run, inputs, outs, k);
    RenewalStep(p, run[k], inputs[k]);
  }

  /** The hard deadline in force is the maximum of the initial one and the full
      duration after each iteration that read a steer landing in this turn. */
  lemma HardIsMaximum(p: Params, run: seq<LoopState>, inputs: seq<Input>, outs: seq<Outcome>, k: nat)
    requires IsTimedRun(p, run, inputs, outs) && k <= |inputs|
    ensures run[k].hardDeadline >= run[0].hardDeadline
    ensures forall j | 0 <= j < k && InjectedAt(run, inputs, j) ::
              run[k].hardDeadline >= inputs[j].event.laterAt + p.maxDuration
    ensures
      || run[k].hardDeadline == run[0].hardDeadline
      || exists j | 0 <= j < k :: InjectedAt(run, inputs, j)
                                  && run[k].hardDeadline == inputs[j].event.laterAt + p.maxDuration
  {
    HardNeverDecreases(p, run, inputs, outs, 0, k);
    forall j | 0 <= j < k && InjectedAt(run, inputs, j)
      ensures run[k].hardDeadline >= inputs[j].event.laterAt + p.maxDuration
    {
      RenewalAt(p, run, inputs, outs, j);
      HardNeverDecreases(p, run, inputs, outs, j + 1, k);
    }
    var renewal := HardHasASource(p, run, inputs, outs, k);
    if renewal.Some? {
      var j := renewal.value;
      assert InjectedAt(run, inputs, j);
    }
  }

  /** Output cannot starve the deadlines: an iteration that does not time out
      began before the idle deadline and before the hard deadline in force. */
  lemma NothingReadPastDeadline(p: Params, run: seq<LoopState>, inputs: seq<Input>, outs: seq<Outcome>, k: nat)
    requires IsTimedRun(p, run, inputs, outs) && k < |inputs|
    requires outs[k].finish.None? || !TimedOut(outs[k].finish.value)
    ensures inputs[k].checkAt < run[k].idleDeadline && inputs[k].checkAt < run[k].hardDeadline
  {
    AtIteration(p, run, inputs, outs, k);
    TimeoutStep(p, run[k], inputs[k]);
  }

  /** So a run is over at its first iteration from the hard deadline on, and the
      full duration after the last steer that landed in its turn, whatever is output. */
  lemma HardCapHolds(p: Params, run: seq<LoopState>, inputs: seq<Input>, outs: seq<Outcome>, k: nat)
    requires IsTimedRun(p, run, inputs, outs) && k < |inputs| && inputs[k].checkAt >= run[0].hardDeadline
    requires forall j | 0 <= j < k && InjectedAt(run, inputs, j) ::
               inputs[k].checkAt >= inputs[j].event.laterAt + p.maxDuration
    ensures outs[k].finish.Some? && TimedOut(outs[k].finish.value) && k == |inputs| - 1
  {
    var renewal := HardHasASource(p, run, inputs, outs, k);
    AtIteration(p, run, inputs, outs, k);
    TimeoutStep(p, run[k], inputs[k]);
  }

  // ---- The idle deadline --------------------------------------------------

  lemma ActivityAt(p: Params, run: seq<LoopState>, inputs: seq<Input>, outs: seq<Outcome>, k: nat)
    requires IsTimedRun(p, run, inputs, outs) && k < |inputs|
    requires run[k].lastActivity <= inputs[k].checkAt && run[k].idleDeadline == run[k].lastActivity + p.idleTimeout
    ensures run[k].lastActivity <= run[k + 1].lastActivity <= EndsAt(inputs[k])
    ensures run[k + 1].idleDeadline == run[k + 1].lastActivity + p.idleTimeout
    ensures k + 1 < |inputs| ==> run[k + 1].lastActivity <= inputs[k + 1].checkAt
    ensures k + 1 < |inputs| && inputs[k].event.Line? && inputs[k].event.line.Message? ==>
              inputs[k].event.readAt <= run[k + 1].lastActivity
  {
    AtIteration(p, run, inputs, outs, k);
    ActivityStep(p, run[k], inputs[k]);
    TimeoutStep(p, run[k], inputs[k]);
  }

  lemma IdleFollowsActivity(p: Params, run: seq<LoopState>, inputs: seq<Input>, outs: seq<Outcome>, k: nat)
    requires IsTimedRun(p, run, inputs, outs) && k < |inputs|
    ensures run[k].lastActivity <= inputs[k].checkAt && run[k].idleDeadline == run[k].lastActivity + p.idleTimeout
  {
    var holds := (j: nat) => j < |inputs| < |run| ==>
      run[j].lastActivity <= inputs[j].checkAt && run[j].idleDeadline == run[j].lastActivity + p.idleTimeout;
    forall j | 0 <= j < k && holds(j) ensures holds(j + 1) {
      ActivityAt(p, run, inputs, outs, j);
    }
    Carry(holds, 0, k);
  }

  lemma ActivityGrows(p: Params, run: seq<LoopState>, inputs: seq<Input>, outs: seq<Outcome>, j: nat, k: nat)
    requires IsTimedRun(p, run, inputs, outs) && j <= k < |inputs|
    ensures run[j].lastActivity <= run[k].lastActivity
  {
    var value := (i: nat) => if i < |run| then run[i].lastActivity else 0;
    forall i | j <= i < k ensures value(i) <= value(i + 1) {
      IdleFollowsActivity(p, run, inputs, outs, i);
      ActivityAt(p, run, inputs, outs, i);
    }
    Grow(value, j, k);
  }

  /** An idle timeout means silence: from the loop's start, and from every
      message read, at least the idle timeout has passed. */
  lemma IdleTimeoutMeansSilence(p: Params, run: seq<LoopState>, inputs: seq<Input>, outs: seq<Outcome>, j: nat, k: nat)
    requires IsTimedRun(p, run, inputs, outs) && j <= k < |inputs| && outs[k].finish == Some(IdleTimeout)
    ensures run[0].lastActivity + p.idleTimeout <= EndsAt(inputs[k])
    ensures j < k && inputs[j].event.Line? && inputs[j].event.line.Message? ==>
              inputs[j].event.readAt + p.idleTimeout <= EndsAt(inputs[k])
  {
    IdleFollowsActivity(p, run, inputs, outs, k);
    ActivityGrows(p, run, inputs, outs, 0, k);
    if j < k {
      ActivityGrows(p, run, inputs, outs, j + 1, k);
      IdleFollowsActivity(p, run, inputs, outs, j);
      ActivityAt(p, run, inputs, outs, j);
    }
    AtIteration(p, run, inputs, outs, k);
    TimeoutStep(p, run[k], inputs[k]);
  }

  // ---- The budget of a cancel ---------------------------------------------

  /** A cancel's drain has the turn's own deadline, renewals included, but never
      less than thirty seconds: it is the later of the two. */
  lemma DrainDeadlineIsLater(stored: Option<Time>, now: Time)
    ensures DrainDeadline(stored, now) >= now + 30_000_000_000
    ensures stored.Some? ==> DrainDeadline(stored, now) >= stored.value
    ensures DrainDeadline(stored, now) == now + 30_000_000_000 || stored == Some(DrainDeadline(stored, now))
  {
  }
}
