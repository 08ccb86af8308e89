/** The agent client's read loop: deadlines, the steer in flight, and the
    response it waits for (crates/buzz-acp/src/acp.rs:1295-1830 and 1882-1957).
    Messages are JSON-RPC 2.0; a response is told from a request by having an id
    and no method (section 5 of the JSON-RPC 2.0 specification). Reading a line,
    the clock and whether a write succeeds are inputs. */
module ReadLoop {
  import opened Options
  import opened Json
  import opened Runs

  /** Nanoseconds. */
  type Time = int

  /** Names the request's acknowledgement channel. */
  type SteerId = string

  datatype Transport = Goose | AcpExtension

  datatype SteerError = SteerAgentError(code: int) | WriteFailed | ExpectedRunIdMissing | OutcomeRejected

  datatype Ack = Success | Failed(error: SteerError) | PromptCompletedNeutral

  datatype Pending = Pending(id: nat, transport: Transport, steer: SteerId)

  /** How the loop returns: `Response` is success, the rest are the errors. */
  datatype Finish =
    | Response(result: Value)
    | IdleTimeout
    | HardTimeout(silence: nat)
    | AgentExited
    | LineTooLong
    | ReadFailed
    | AgentError
    | BadPermissionRequest
    | ReplyFailed

  datatype Params = Params(expectedId: nat, idleTimeout: nat, maxDuration: nat)

  const INJECTED := "injected"
  const STARTED_NEW_TURN := "startedNewTurn"

  // ---- Inputs -------------------------------------------------------------

  datatype Incoming = Blank | NotJson | Message(msg: Value)

  /** What `select!` picks. A line carries the times the code reads the clock
      while handling it, and whether a reply to it could be written. */
  datatype Event =
    | Line(line: Incoming, readAt: Time, laterAt: Time, writeOk: bool)
    | Eof
    | TooLong
    | Broken
    | Steer(steer: SteerId, writeOk: bool)
    | Deadline(at: Time)

  /** One iteration: the clock at its top, and the event picked. */
  datatype Input = Input(checkAt: Time, event: Event)

  // ---- One iteration, as a value ------------------------------------------

  datatype LoopState = LoopState(
    nextId: nat,
    currentHard: Option<Time>,
    activeRunId: Option<string>,
    steeringSupported: bool,
    idleDeadline: Time,
    hardDeadline: Time,
    lastActivity: Time,
    pending: Option<Pending>)

  datatype Outcome = Outcome(
    next: LoopState,
    ack: Option<(SteerId, Ack)>,
    wrote: Option<Pending>,
    finish: Option<Finish>)

  predicate IdleFiresFirst(l: LoopState) {
    l.idleDeadline < l.hardDeadline
  }

  function NextDeadline(l: LoopState): Time {
    if IdleFiresFirst(l) then l.idleDeadline else l.hardDeadline
  }

  function Continuing(l: LoopState): Outcome {
    Outcome(l, None, None, None)
  }

  /** A return that first resolves the steer in flight. */
  function Returning(l: LoopState, finish: Finish): Outcome {
    Outcome(l.(pending := None),
            if l.pending.Some? then Some((l.pending.value.steer, PromptCompletedNeutral)) else None,
            None, Some(finish))
  }

  /** A return by `?`, which drops the steer in flight unresolved. */
  function Failing(l: LoopState, finish: Finish): Outcome {
    Outcome(l, None, None, Some(finish))
  }

  function Silence(l: LoopState, now: Time): nat {
    if now > l.lastActivity then now - l.lastActivity else 0
  }

  function TimingOut(l: LoopState, now: Time): Outcome {
    Returning(l, if IdleFiresFirst(l) then IdleTimeout else HardTimeout(Silence(l, now)))
  }

  /** The transport to steer by: a run id wins over the advertised extension. */
  function Selected(l: LoopState): Option<Transport> {
    if l.activeRunId.Some? then Some(Goose)
    else if l.steeringSupported then Some(AcpExtension)
    else None
  }

  function Steering(l: LoopState, steer: SteerId, writeOk: bool): Outcome {
    match Selected(l)
    case None => Outcome(l, Some((steer, Failed(ExpectedRunIdMissing))), None, None)
    case Some(transport) =>
      var used := l.(nextId := l.nextId + 1);
      var pending := Pending(l.nextId, transport, steer);
      if writeOk then Outcome(used.(pending := Some(pending)), None, Some(pending), None)
      else Outcome(used, Some((steer, Failed(WriteFailed))), None, None)
  }

  /** Has an id and no method. */
  predicate IsResponse(msg: Value) {
    Get(msg, "id").Some? && Get(msg, "method").None?
  }

  predicate Answers(msg: Value, id: nat) {
    IsResponse(msg) && Get(msg, "id") == Some(Int(id))
  }

  /** The outcome a success response reports, if it is one that means delivery. */
  function Delivery(transport: Transport, msg: Value): Option<string> {
    match transport
    case Goose => Some(INJECTED)
    case AcpExtension =>
      var outcome := AsString(GetPath(msg, ["result", "outcome"]));
      if outcome == Some(INJECTED) || outcome == Some(STARTED_NEW_TURN) then outcome else None
  }

  function ErrorCode(error: Value): int {
    match Get(error, "code")
    case Some(Int(code)) => if -0x8000_0000_0000_0000 <= code < 0x8000_0000_0000_0000 then code else -1
    case _ => -1
  }

  function SteerAckFor(transport: Transport, msg: Value): Ack {
    match Get(msg, "error")
    case Some(error) => Failed(SteerAgentError(ErrorCode(error)))
    case None => if Delivery(transport, msg).Some? then Success else Failed(OutcomeRejected)
  }

  /** The response says the steer landed in the turn being awaited. */
  predicate Renews(transport: Transport, msg: Value) {
    Get(msg, "error").None? && Delivery(transport, msg) == Some(INJECTED)
  }

  function Renewed(l: LoopState, deadline: Time): LoopState {
    if deadline > l.hardDeadline then l.(hardDeadline := deadline, currentHard := Some(deadline)) else l
  }

  function SteerResponse(p: Params, l: LoopState, msg: Value, laterAt: Time): Outcome
    requires l.pending.Some?
  {
    var pending := l.pending.value;
    var kept := if Renews(pending.transport, msg) then Renewed(l, laterAt + p.maxDuration) else l;
    Outcome(kept.(pending := None), Some((pending.steer, SteerAckFor(pending.transport, msg))), None, None)
  }

  function PromptResponse(l: LoopState, msg: Value): Outcome {
    if Get(msg, "error").Some? then Returning(l, AgentError)
    else Returning(l, Response(if Get(msg, "result").Some? then Get(msg, "result").value else Null))
  }

  /** The run id after a `session/update`: set by a string, cleared by null. */
  function RunIdAfter(runId: Option<string>, msg: Value): Option<string> {
    if AsString(GetPath(msg, ["params", "update", "sessionUpdate"])) != Some("session_info_update") then runId
    else
      match GetPath(msg, ["params", "update", "_meta", "goose", "activeRunId"])
      case Some(String(id)) => Some(id)
      case Some(Null) => None
      case _ => runId
  }

  predicate ToolCallStarts(msg: Value) {
    AsString(GetPath(msg, ["params", "update", "sessionUpdate"])) == Some("tool_call")
  }

  predicate OfKind(option: Value, kind: string) {
    AsString(Get(option, "kind")) == Some(kind)
  }

  /** The first option of a kind. */
  function FirstOfKind(options: seq<Value>, kind: string): Option<Value> {
    if options == [] then None
    else if OfKind(options[0], kind) then Some(options[0])
    else FirstOfKind(options[1..], kind)
  }

  /** A permission request the client can answer. */
  predicate Answerable(msg: Value) {
    && Get(msg, "id").Some?
    && match GetPath(msg, ["params", "options"])
       case Some(Array(options)) =>
         (match FirstOfKind(options, "allow_once")
          case Some(option) => AsString(Get(option, "optionId")).Some?
          case None => FirstOfKind(options, "reject_once").Some?)
       case _ => false
  }

  /** Notifications and the agent's own requests. */
  function Dispatched(p: Params, l: LoopState, msg: Value, laterAt: Time, writeOk: bool): Outcome {
    match AsString(Get(msg, "method"))
    case None => Continuing(l)
    case Some(name) =>
      if name == "session/update" then
        var informed := l.(activeRunId := RunIdAfter(l.activeRunId, msg));
        Continuing(if ToolCallStarts(msg)
                   then informed.(idleDeadline := laterAt + p.idleTimeout, lastActivity := laterAt)
                   else informed)
      else if name == "_goose/unstable/session/update" then Continuing(l)
      else if name == "session/request_permission" then
        if !Answerable(msg) then Failing(l, BadPermissionRequest)
        else if !writeOk then Failing(l, ReplyFailed)
        else Continuing(l)
      else if Get(msg, "id").Some? && !writeOk then Failing(l, ReplyFailed)
      else Continuing(l)
  }

  function Active(p: Params, l: LoopState, readAt: Time): LoopState {
    l.(idleDeadline := readAt + p.idleTimeout, lastActivity := readAt)
  }

  function Handled(p: Params, l: LoopState, msg: Value, laterAt: Time, writeOk: bool): Outcome {
    if l.pending.Some? && Answers(msg, l.pending.value.id) then SteerResponse(p, l, msg, laterAt)
    else if Answers(msg, p.expectedId) then PromptResponse(l, msg)
    else Dispatched(p, l, msg, laterAt, writeOk)
  }

  function Picked(p: Params, l: LoopState, e: Event): Outcome {
    match e
    case Line(Message(msg), readAt, laterAt, writeOk) => Handled(p, Active(p, l, readAt), msg, laterAt, writeOk)
    case Line(_, _, _, _) => Continuing(l)
    case Eof => Returning(l, AgentExited)
    case TooLong => Returning(l, LineTooLong)
    case Broken => Returning(l, ReadFailed)
    case Steer(steer, writeOk) => Steering(l, steer, writeOk)
    case Deadline(at) => TimingOut(l, at)
  }

  /** One iteration of the loop; the deadline is checked before anything is read. */
  function Iterated(p: Params, l: LoopState, i: Input): Outcome {
    if i.checkAt >= NextDeadline(l) then TimingOut(l, i.checkAt) else Picked(p, l, i.event)
  }

  /** The steer arm is closed while a steer is in flight, and the sleep ends at
      the nearer deadline. The clock does not run backwards within an iteration. */
  predicate Possible(l: LoopState, i: Input) {
    match i.event
    case Steer(_, _) => l.pending.None?
    case Deadline(at) => at >= i.checkAt && at >= NextDeadline(l)
    case Line(_, readAt, laterAt, _) => i.checkAt <= readAt <= laterAt
    case _ => true
  }

  // ---- Runs of the loop ---------------------------------------------------

  /** The loop's variables when it is entered. */
  function Entered(l: LoopState, p: Params, hard: Time, now: Time): LoopState {
    l.(idleDeadline := now + p.idleTimeout, hardDeadline := hard, lastActivity := now, pending := None)
  }

  function Body(p: Params): (LoopState, Input) -> Outcome {
    (l, i) => Iterated(p, l, i)
  }

  /** `run[k]` is the state before iteration `k`; only the last iteration may return. */
  ghost predicate IsRun(p: Params, run: seq<LoopState>, inputs: seq<Input>, outs: seq<Outcome>) {
    Links(Body(p), run, inputs, outs) && Chained(run, outs)
  }

  ghost predicate Chained(run: seq<LoopState>, outs: seq<Outcome>) {
    && |run| == |outs| + 1
    && (forall k {:trigger outs[k]} | 0 <= k < |outs| :: run[k + 1] == outs[k].next)
    && (forall k {:trigger outs[k]} | 0 <= k < |outs| - 1 :: outs[k].finish.None?)
  }

  lemma ChainedSnoc(run: seq<LoopState>, outs: seq<Outcome>, out: Outcome)
    requires Chained(run, outs) && forall k | 0 <= k < |outs| :: outs[k].finish.None?
    ensures Chained(run + [out.next], outs + [out])
  {
  }

  lemma AtIteration(p: Params, run: seq<LoopState>, inputs: seq<Input>, outs: seq<Outcome>, k: nat)
    requires IsRun(p, run, inputs, outs) && k < |inputs|
    ensures outs[k] == Iterated(p, run[k], inputs[k]) && run[k + 1] == outs[k].next
  {
    assert outs[k] == Body(p)(run[k], inputs[k]);
  }

  lemma OneMoreIteration(p: Params, run: seq<LoopState>, inputs: seq<Input>, outs: seq<Outcome>, out: Outcome)
    requires |outs| < |inputs| && IsRun(p, run, inputs[..|outs|], outs)
    requires forall k | 0 <= k < |outs| :: outs[k].finish.None?
    requires out == Body(p)(run[|outs|], inputs[|outs|])
    ensures IsRun(p, run + [out.next], inputs[..|outs| + 1], outs + [out])
  {
    ChainedSnoc(run, outs, out);
    LinksSnoc(Body(p), run, inputs[..|outs|], outs, out.next, inputs[|outs|]);
    assert inputs[..|outs| + 1] == inputs[..|outs|] + [inputs[|outs|]];
  }

  function Acks(outs: seq<Outcome>): seq<(SteerId, Ack)> {
    if outs == [] then []
    else
      var n := |outs| - 1;
      Acks(outs[..n]) + (if outs[n].ack.Some? then [outs[n].ack.value] else [])
  }

  // ---- The client ---------------------------------------------------------

  /** The client's fields the loop works on, and the loop's own variables. */
  class AcpClient {
    var nextId: nat
    var lastPromptId: Option<nat>
    var currentHardDeadline: Option<Time>
    var activeRunId: Option<string>
    var steeringSupported: bool
    var idleDeadline: Time
    var hardDeadline: Time
    var lastActivityAt: Time
    var pendingSteer: Option<Pending>

    function State(): LoopState
      reads this
    {
      LoopState(nextId, currentHardDeadline, activeRunId, steeringSupported,
                idleDeadline, hardDeadline, lastActivityAt, pendingSteer)
    }

    constructor (steeringSupported: bool)
      ensures lastPromptId == None && currentHardDeadline == None && nextId == 0
      ensures this.steeringSupported == steeringSupported && pendingSteer == None && activeRunId == None
    {
      nextId, lastPromptId, currentHardDeadline, activeRunId := 0, None, None, None;
      this.steeringSupported := steeringSupported;
      idleDeadline, hardDeadline, lastActivityAt, pendingSteer := 0, 0, 0, None;
    }

    /** `pending_steer.take()` followed by the neutral acknowledgement. */
    method ReleasePending() returns (ack: Option<(SteerId, Ack)>)
      modifies `pendingSteer
      ensures pendingSteer == None
      ensures ack == if old(pendingSteer).Some? then Some((old(pendingSteer).value.steer, PromptCompletedNeutral)) else None
    {
      ack := if pendingSteer.Some? then Some((pendingSteer.value.steer, PromptCompletedNeutral)) else None;
      pendingSteer := None;
    }

    method TimeOut(now: Time) returns (ack: Option<(SteerId, Ack)>, finish: Option<Finish>)
      modifies `pendingSteer
      ensures Outcome(State(), ack, None, finish) == TimingOut(old(State()), now)
    {
      ack := ReleasePending();
      if idleDeadline < hardDeadline {
        finish := Some(IdleTimeout);
      } else {
        finish := Some(HardTimeout(if now > lastActivityAt then now - lastActivityAt else 0));
      }
    }

    /** The steer arm. */
    method WriteSteer(steer: SteerId, writeOk: bool) returns (ack: Option<(SteerId, Ack)>, wrote: Option<Pending>)
      modifies `nextId, `pendingSteer
      ensures Outcome(State(), ack, wrote, None) == Steering(old(State()), steer, writeOk)
    {
      ack, wrote := None, None;
      if activeRunId.None? && !steeringSupported {
        return Some((steer, Failed(ExpectedRunIdMissing))), None;
      }
      var pending := Pending(nextId, if activeRunId.Some? then Goose else AcpExtension, steer);
      nextId := nextId + 1;
      if writeOk {
        pendingSteer := Some(pending);
        wrote := Some(pending);
      } else {
        ack := Some((steer, Failed(WriteFailed)));
      }
    }

    /** Routes the response to the steer in flight. */
    method RouteSteerResponse(p: Params, msg: Value, laterAt: Time) returns (ack: Option<(SteerId, Ack)>)
      requires pendingSteer.Some?
      modifies `pendingSteer, `hardDeadline, `currentHardDeadline
      ensures Outcome(State(), ack, None, None) == SteerResponse(p, old(State()), msg, laterAt)
    {
      var pending := pendingSteer.value;
      pendingSteer := None;
      var error := Get(msg, "error");
      if error.Some? {
        return Some((pending.steer, Failed(SteerAgentError(ErrorCode(error.value)))));
      }
      var outcome := Delivery(pending.transport, msg);
      if outcome.None? {
        return Some((pending.steer, Failed(OutcomeRejected)));
      }
      if outcome != Some(STARTED_NEW_TURN) {
        var renewed := laterAt + p.maxDuration;
        if renewed > hardDeadline {
          hardDeadline := renewed;
          currentHardDeadline := Some(renewed);
        }
      }
      ack := Some((pending.steer, Success));
    }

    /** `handle_session_update`: whether a tool call starts. */
    method HandleSessionUpdate(msg: Value) returns (toolCall: bool)
      modifies `activeRunId
      ensures activeRunId == RunIdAfter(old(activeRunId), msg)
      ensures toolCall <==> ToolCallStarts(msg)
    {
      var kind := AsString(GetPath(msg, ["params", "update", "sessionUpdate"]));
      if kind == Some("tool_call") {
        return true;
      }
      if kind == Some("session_info_update") {
        match GetPath(msg, ["params", "update", "_meta", "goose", "activeRunId"]) {
          case Some(String(id)) => activeRunId := Some(id);
          case Some(Null) => activeRunId := None;
          case _ =>
        }
      }
      toolCall := false;
    }

    method Dispatch(p: Params, msg: Value, laterAt: Time, writeOk: bool) returns (finish: Option<Finish>)
      modifies `activeRunId, `idleDeadline, `lastActivityAt
      ensures Outcome(State(), None, None, finish) == Dispatched(p, old(State()), msg, laterAt, writeOk)
    {
      finish := None;
      match AsString(Get(msg, "method")) {
        case None =>
        case Some(name) =>
          if name == "session/update" {
            var toolCall := HandleSessionUpdate(msg);
            if toolCall {
              idleDeadline, lastActivityAt := laterAt + p.idleTimeout, laterAt;
            }
          } else if name == "_goose/unstable/session/update" {
          } else if name == "session/request_permission" {
            if !Answerable(msg) {
              return Some(BadPermissionRequest);
            }
            if !writeOk {
              return Some(ReplyFailed);
            }
          } else if Get(msg, "id").Some? && !writeOk {
            return Some(ReplyFailed);
          }
      }
    }

    /** The response the loop waits for. */
    method FinishPrompt(msg: Value) returns (ack: Option<(SteerId, Ack)>, finish: Option<Finish>)
      modifies `pendingSteer
      ensures Outcome(State(), ack, None, finish) == PromptResponse(old(State()), msg)
    {
      ack := ReleasePending();
      var result := Get(msg, "result");
      finish :=
        if Get(msg, "error").Some? then Some(AgentError)
        else Some(Response(if result.Some? then result.value else Null));
    }

    /** A parsed line. */
    method HandleMessage(p: Params, msg: Value, readAt: Time, laterAt: Time, writeOk: bool)
      returns (ack: Option<(SteerId, Ack)>, finish: Option<Finish>)
      modifies this
      ensures lastPromptId == old(lastPromptId)
      ensures Outcome(State(), ack, None, finish) == Handled(p, Active(p, old(State()), readAt), msg, laterAt, writeOk)
    {
      ack, finish := None, None;
      idleDeadline, lastActivityAt := readAt + p.idleTimeout, readAt;
      if pendingSteer.Some? && Answers(msg, pendingSteer.value.id) {
        ack := RouteSteerResponse(p, msg, laterAt);
        return;
      }
      if Answers(msg, p.expectedId) {
        ack, finish := FinishPrompt(msg);
        return;
      }
      finish := Dispatch(p, msg, laterAt, writeOk);
    }

    /** One pass of the loop in `read_until_response_with_idle_timeout`. */
    method Iterate(p: Params, i: Input)
      returns (ack: Option<(SteerId, Ack)>, wrote: Option<Pending>, finish: Option<Finish>)
      modifies this
      ensures Outcome(State(), ack, wrote, finish) == Iterated(p, old(State()), i)
      ensures lastPromptId == old(lastPromptId)
      ensures old(currentHardDeadline) == Some(old(hardDeadline)) ==> currentHardDeadline == Some(hardDeadline)
    {
      if currentHardDeadline == Some(hardDeadline) {
        HardIsCurrentStep(p, State(), i);
      }
      ack, wrote, finish := None, None, None;
      var idleFiresFirst := idleDeadline < hardDeadline;
      var nextDeadline := if idleFiresFirst then idleDeadline else hardDeadline;
      if i.checkAt >= nextDeadline {
        ack, finish := TimeOut(i.checkAt);
        return;
      }
      match i.event {
        case Line(Message(msg), readAt, laterAt, writeOk) =>
          ack, finish := HandleMessage(p, msg, readAt, laterAt, writeOk);
        case Line(_, _, _, _) =>
        case Eof =>
          ack := ReleasePending();
          finish := Some(AgentExited);
        case TooLong =>
          ack := ReleasePending();
          finish := Some(LineTooLong);
        case Broken =>
          ack := ReleasePending();
          finish := Some(ReadFailed);
        case Steer(steer, writeOk) =>
          ack, wrote := WriteSteer(steer, writeOk);
        case Deadline(at) =>
          ack, finish := TimeOut(at);
      }
    }

    /** `read_until_response_with_idle_timeout` over the given inputs; without a
        finish the loop is still running when they are used up. */
    method ReadUntilResponse(p: Params, hard: Time, now: Time, inputs: seq<Input>)
      returns (acks: seq<(SteerId, Ack)>, finish: Option<Finish>, ghost run: seq<LoopState>, ghost outs: seq<Outcome>)
      modifies this
      ensures |outs| <= |inputs| && IsRun(p, run, inputs[..|outs|], outs)
      ensures run[0] == Entered(old(State()), p, hard, now) && run[|outs|] == State()
      ensures acks == Acks(outs)
      ensures finish.None? ==> |outs| == |inputs| && forall k | 0 <= k < |outs| :: outs[k].finish.None?
      ensures finish.Some? ==> outs != [] && outs[|outs| - 1].finish == finish
      ensures lastPromptId == old(lastPromptId)
      ensures old(currentHardDeadline) == Some(hard) ==> currentHardDeadline == Some(hardDeadline)
    {
      idleDeadline, hardDeadline, lastActivityAt, pendingSteer := now + p.idleTimeout, hard, now, None;
      acks := [];
      run, outs := [State()], [];
      for k := 0 to |inputs|
        invariant |outs| == k && IsRun(p, run, inputs[..k], outs)
        invariant run[0] == Entered(old(State()), p, hard, now) && run[k] == State()
        invariant acks == Acks(outs)
        invariant forall j | 0 <= j < k :: outs[j].finish.None?
        invariant lastPromptId == old(lastPromptId)
        invariant old(currentHardDeadline) == Some(hard) ==> currentHardDeadline == Some(hardDeadline)
      {
        var ack, wrote, done := Iterate(p, inputs[k]);
        ghost var out := Outcome(State(), ack, wrote, done);
        OneMoreIteration(p, run, inputs, outs, out);
        assert (outs + [out])[..k] == outs;
        outs, run := outs + [out], run + [State()];
        if ack.Some? {
          acks := acks + [ack.value];
        }
        if done.Some? {
          return acks, done, run, outs;
        }
      }
      finish := None;
    }

    /** `session_prompt_blocks_with_idle_timeout`, sent at `now` and read from `enteredAt` on. */
    method PromptBlocks(
        idleTimeout: nat, maxDuration: nat, now: Time, writeOk: bool, enteredAt: Time, inputs: seq<Input>)
      returns (outcome: PromptOutcome, ghost run: seq<LoopState>, ghost outs: seq<Outcome>)
      modifies this
      ensures outcome.NotSent? <==> !writeOk
      ensures writeOk ==>
                && |outs| <= |inputs|
                && IsRun(Params(old(nextId), idleTimeout, maxDuration), run, inputs[..|outs|], outs)
                && run[0] == Entered(
                     old(State()).(nextId := old(nextId) + 1, currentHard := Some(now + maxDuration)),
                     Params(old(nextId), idleTimeout, maxDuration), now + maxDuration, enteredAt)
                && (outcome.Reading? ==> |outs| == |inputs|)
                && (outcome.Ended? ==> outs != [] && outs[|outs| - 1].finish == Some(outcome.finish))
      ensures outcome.Reading? || (outcome.Ended? && TimedOut(outcome.finish)) ==>
                lastPromptId == Some(old(nextId)) && currentHardDeadline == Some(run[|outs|].hardDeadline)
      ensures outcome.NotSent? || (outcome.Ended? && !TimedOut(outcome.finish)) ==>
                lastPromptId == None && currentHardDeadline == None
    {
      var hard := now + maxDuration;
      currentHardDeadline := Some(hard);
      lastPromptId := Some(nextId);
      var p := Params(nextId, idleTimeout, maxDuration);
      nextId := nextId + 1;
      if !writeOk {
        lastPromptId, currentHardDeadline := None, None;
        return NotSent, [], [];
      }
      outcome, run, outs := AwaitPrompt(p, hard, enteredAt, inputs);
    }

    /** The part of it after the request is written. */
    method AwaitPrompt(p: Params, hard: Time, enteredAt: Time, inputs: seq<Input>)
      returns (outcome: PromptOutcome, ghost run: seq<LoopState>, ghost outs: seq<Outcome>)
      requires currentHardDeadline == Some(hard)
      modifies this
      ensures |outs| <= |inputs| && IsRun(p, run, inputs[..|outs|], outs)
      ensures run[0] == Entered(old(State()), p, hard, enteredAt)
      ensures !outcome.NotSent?
      ensures outcome.Reading? ==> |outs| == |inputs|
      ensures outcome.Ended? ==> outs != [] && outs[|outs| - 1].finish == Some(outcome.finish)
      ensures outcome.Ended? && !TimedOut(outcome.finish) ==> lastPromptId == None && currentHardDeadline == None
      ensures !(outcome.Ended? && !TimedOut(outcome.finish)) ==>
                lastPromptId == old(lastPromptId) && currentHardDeadline == Some(run[|outs|].hardDeadline)
    {
      var acks, finish;
      acks, finish, run, outs := ReadUntilResponse(p, hard, enteredAt, inputs);
      if finish.None? {
        return Reading, run, outs;
      }
      outcome := Ended(finish.value);
      if !TimedOut(finish.value) {
        lastPromptId, currentHardDeadline := None, None;
      }
    }

    /** `cancel_with_cleanup_until`: the drain loop after `session/cancel`. */
    method CancelUntil(hard: Time, writesOk: bool, enteredAt: Time, inputs: seq<Input>)
      returns (outcome: CancelOutcome, ghost run: seq<LoopState>, ghost outs: seq<Outcome>)
      modifies this
      ensures lastPromptId == None
      ensures outcome.NoPrompt? <==> old(lastPromptId).None?
      ensures outcome.CancelNotSent? <==> old(lastPromptId).Some? && !writesOk
      ensures old(lastPromptId).Some? && writesOk ==>
                && IsDrain(old(State()), old(lastPromptId).value, hard, enteredAt, inputs, run, outs)
                && outcome == DrainOutcome(LastFinish(outs))
    {
      run, outs := [], [];
      if lastPromptId.None? {
        return NoPrompt, run, outs;
      }
      var p := Params(lastPromptId.value, CLEANUP_TIME, Until(enteredAt, hard));
      lastPromptId := None;
      if !writesOk {
        return CancelNotSent, run, outs;
      }
      var acks, finish;
      acks, finish, run, outs := ReadUntilResponse(p, hard, enteredAt, inputs);
      outcome := if finish.Some? then Drained(finish.value) else Draining;
    }

    /** `cancel_with_cleanup`: the drain inherits the turn's deadline, with a floor of 30 seconds. */
    method CancelWithCleanup(now: Time, writesOk: bool, enteredAt: Time, inputs: seq<Input>)
      returns (outcome: CancelOutcome, ghost run: seq<LoopState>, ghost outs: seq<Outcome>)
      modifies this
      ensures lastPromptId == None
      ensures outcome.NoPrompt? <==> old(lastPromptId).None?
      ensures outcome.CancelNotSent? <==> old(lastPromptId).Some? && !writesOk
      ensures old(lastPromptId).Some? && writesOk ==>
                && IsDrain(old(State()).(currentHard := None), old(lastPromptId).value,
                           DrainDeadline(old(currentHardDeadline), now), enteredAt, inputs, run, outs)
                && outcome == DrainOutcome(LastFinish(outs))
    {
      var stored := currentHardDeadline;
      currentHardDeadline := None;
      var floor := now + CLEANUP_TIME;
      var hard := match stored case Some(d) => if d > floor then d else floor case None => floor;
      outcome, run, outs := CancelUntil(hard, writesOk, enteredAt, inputs);
    }

    /** `cancel_with_cleanup_grace`: a drain ends by hard timeout exactly when a drain timeout is reported. */
    method CancelWithCleanupGrace(grace: nat, now: Time, writesOk: bool, enteredAt: Time, inputs: seq<Input>)
      returns (outcome: CancelOutcome, ghost run: seq<LoopState>, ghost outs: seq<Outcome>)
      modifies this
      ensures lastPromptId == None
      ensures outcome.NoPrompt? <==> old(lastPromptId).None?
      ensures outcome.CancelNotSent? <==> old(lastPromptId).Some? && !writesOk
      ensures old(lastPromptId).Some? && writesOk ==>
                && IsDrain(old(State()).(currentHard := None), old(lastPromptId).value,
                           now + grace, enteredAt, inputs, run, outs)
                && (outcome.DrainTimeout? <==> LastFinish(outs).Some? && LastFinish(outs).value.HardTimeout?)
                && (!outcome.DrainTimeout? ==> outcome == DrainOutcome(LastFinish(outs)))
    {
      currentHardDeadline := None;
      outcome, run, outs := CancelUntil(now + grace, writesOk, enteredAt, inputs);
      match outcome {
        case Drained(HardTimeout(_)) => outcome := DrainTimeout;
        case _ =>
      }
    }
  }

  datatype PromptOutcome = NotSent | Reading | Ended(finish: Finish)

  datatype CancelOutcome = NoPrompt | CancelNotSent | Draining | Drained(finish: Finish) | DrainTimeout

  predicate TimedOut(f: Finish) {
    f.IdleTimeout? || f.HardTimeout?
  }

  /** Thirty seconds, the cleanup's idle timeout and its least budget. */
  const CLEANUP_TIME: nat := 30_000_000_000

  function Until(now: Time, deadline: Time): nat {
    if deadline > now then deadline - now else 0
  }

  function DrainDeadline(stored: Option<Time>, now: Time): Time {
    if stored.Some? && stored.value > now + CLEANUP_TIME then stored.value else now + CLEANUP_TIME
  }

  /** A run of the loop that waits for the cancelled prompt until `hard`. */
  ghost predicate IsDrain(
      l: LoopState, promptId: nat, hard: Time, enteredAt: Time, inputs: seq<Input>,
      run: seq<LoopState>, outs: seq<Outcome>)
  {
    var p := Params(promptId, CLEANUP_TIME, Until(enteredAt, hard));
    && |outs| <= |inputs| && IsRun(p, run, inputs[..|outs|], outs)
    && run[0] == Entered(l, p, hard, enteredAt)
  }

  /** How a run has returned, if it has. */
  function LastFinish(outs: seq<Outcome>): Option<Finish> {
    if outs == [] then None else outs[|outs| - 1].finish
  }

  function DrainOutcome(finish: Option<Finish>): CancelOutcome {
    if finish.Some? then Drained(finish.value) else Draining
  }

  // ---- The stored deadline ------------------------------------------------

  /** What dispatching a notification or a request leaves alone. */
  lemma DispatchFrame(p: Params, l: LoopState, msg: Value, laterAt: Time, writeOk: bool)
    ensures
      var o := Dispatched(p, l, msg, laterAt, writeOk);
      && o.ack.None? && o.wrote.None? && o.next.pending == l.pending && o.next.nextId == l.nextId
      && o.next.hardDeadline == l.hardDeadline && o.next.currentHard == l.currentHard
      && (o.finish.Some? ==> o.finish.value.BadPermissionRequest? || o.finish.value.ReplyFailed?)
      && o.next.lastActivity in {l.lastActivity, laterAt}
      && (l.idleDeadline == l.lastActivity + p.idleTimeout ==>
            o.next.idleDeadline == o.next.lastActivity + p.idleTimeout)
  {
  }

  lemma HardIsCurrentStep(p: Params, l: LoopState, i: Input)
    requires l.currentHard == Some(l.hardDeadline)
    ensures Iterated(p, l, i).next.currentHard == Some(Iterated(p, l, i).next.hardDeadline)
  {
    match i.event {
      case Line(Message(msg), readAt, laterAt, writeOk) =>
        DispatchFrame(p, Active(p, l, readAt), msg, laterAt, writeOk);
      case _ =>
    }
  }
}
