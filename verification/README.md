# Verified model of the buzz-acp harness

A Dafny 4.11 project that models the stateful core of this repository and
proves what it keeps. `dafny verify dfyconfig.toml` checks all of it.

## What is modelled

- **Steering a running turn** (`ReadLoop`, `ReadLoopRuns`, `EventQueues`,
  `SteerSystem`): the agent client's read loop with its deadlines, the request
  mailbox, the withheld event, acknowledgement channels, watchers and the main
  loop's acknowledgement arm, interleaved. Main results: an accepted steer has
  exactly one fate, a message is dropped only after a delivering response with
  its own id, nothing stays withheld, and output cannot outrun the deadlines.
- **The observer pipeline** (`ObserverBus`, `ObserverSplice`, `ObserverDelivery`,
  `SkippedEvents`, `ChunkStreams`, `Coalescer`, `Utf8`, `Elision`, `Payloads`,
  `JsonStrings`, `Trimmer`, `FrameText`, `Pacer`): the replay buffer and its splice with the live feed, the
  chunk coalescer, the frame trimmer and the publish pacer.
- **Supervision** (`Circuit`, `Supervisor`, `PoolLifecycle`, `Membership`): the
  crash circuit breaker, slot ownership and respawns, lazy wake-up with backoff,
  and deduplicated membership notifications.
- **Subscription rules** (`Filters`, `Subscriptions`, `Uuids`): local first-match
  with fail-closed errors, the merged relay filters, and how the two agree.
- **JSON merging** (`Json`, `JsonMerge`, `CodexConfig`), the **Redis codec** of
  the scaling benchmark (`Resp`, `RespReplies`, `Decimal`) and the **PCM framer** of the
  audio worklet (`PcmFramer`).

`Options`, `Sequences`, `Runs`, `Powers` and `ObserverEvents` hold shared pieces.

Code that changes state is written as classes with loops and proved against
value-level functions; the laws are lemmas about those functions. A run is a
sequence of states linked by steps, or the state before each event of a list;
theorems about runs hold for every run of any length.

## Assumptions

- Clocks, randomness, write results, JSON text parsing and expression
  evaluation are inputs. Clocks do not run backwards, except in `ReadLoop`'s
  class methods, which assume nothing.
- JSON appears in two views: by lookup (`Json`, objects as maps) and in
  serialization order (`Payloads`, for byte lengths). `serde_json` sorts object
  keys here, so both describe the same values.
- Byte lengths of strings in the trimmer are below 2^64, and arguments in the
  Redis codec are no longer than a Python `bytes` object can be.
- The supervisor starts with any slots filled, since agents may fail to start.
- A prompt task either sends its result or panics, never both. An event is
  offered for steering at most once, when it arrives.
- Jitter is a real number in [0, 1); sequence numbers do not wrap.

## Where the code and its comments differ

- acp.rs:1305-1308 and 1316-1317 say every return path drains the steer in
  flight. The returns by `?` at lines 1685 and 1699 do not
  (`ReadLoopRuns.LeakIff`, `UnresolvedIff`; `UnresolvedSteer` is a run); the main
  loop's arm for a dropped channel repairs it (`SteerSystem.LeakIsRepaired`),
  although its comment says that should not happen.
- lib.rs:644-649 says an elided leaf is never elided again and that the leaf
  count bounds the passes. A leaf can be elided once more exactly when its marker
  is long enough (`Elision.ElidedAgainIff`), for ASCII text from 6,100 bytes on
  (`AsciiElidedAgainIff`); the bound is two per leaf (`Trimmer.RunLength`,
  reached by `Trimmer.PassesOutnumberLeaves`).
- lib.rs:649-650 says the stub trivially fits. It need not
  (`Trimmer.StubFitsIff`): the envelope holds the session id the agent answered
  `session/new` with (acp.rs:663-667, pool.rs:1658-1663), of any length
  (`OversizedSessionNeverFits`).
- lib.rs:420-423 says subscribing before the snapshot loses nothing. That holds
  for serialized emits within the buffer's capacity
  (`ObserverDelivery.NothingMissedIff`). With concurrent emits, what is passed on
  is exactly what `PassedOnIff` says; of the events pushed after the snapshot it
  loses those `LostIff` names (`SkippedEvents.SkippedEvent` is a run).
- The respawn backoff's 30-second cap (lib.rs:1013-1016) is never reached
  (`Circuit.BackoffRange`).
- A channel listed in another spelling of its UUID is subscribed at the relay
  but never matches locally (`Subscriptions.ScopesAgreeIff`).

## Model

| member | source | states |
|---|---|---|
| `ReadLoop.AcpClient.Iterate` | crates/buzz-acp/src/acp.rs:1329-1707 | One pass of the read loop moves client, deadlines, steer in flight, acknowledgement and return exactly as the iteration function says; a stored hard deadline that equals the loop's own stays equal |
| `ReadLoop.AcpClient.ReadUntilResponse` | crates/buzz-acp/src/acp.rs:1295-1708 | The loop is a chain of such iterations from its entry state until the first that returns, with every acknowledgement sent on the way, in order |
| `ReadLoop.AcpClient.WriteSteer` | crates/buzz-acp/src/acp.rs:1381-1466 | A steer takes the next request id, by goose's method if a run id is known, else by the advertised extension, else nothing is written; a failed write is acknowledged at once |
| `ReadLoop.AcpClient.RouteSteerResponse` | crates/buzz-acp/src/acp.rs:1553-1651 | The response to the steer in flight is acknowledged by its own kind; the hard deadline is renewed only for a steer that landed in this turn and only forward |
| `ReadLoop.AcpClient.HandleMessage` | crates/buzz-acp/src/acp.rs:1542-1704 | A message is activity, then is routed to the steer, the prompt or dispatch, in that order |
| `ReadLoop.AcpClient.Dispatch` | crates/buzz-acp/src/acp.rs:1670-1704 | Notifications and agent requests change only run id and idle clock; the two failing replies return at once, leaving the steer in flight untouched |
| `ReadLoop.AcpClient.HandleSessionUpdate` | crates/buzz-acp/src/acp.rs:1724-1826 | The run id is set by a string, cleared by null and otherwise kept; a tool call is reported |
| `ReadLoop.AcpClient.ReleasePending` | crates/buzz-acp/src/acp.rs:1347-1353 | Before an ordinary return the steer in flight is taken and acknowledged as neutral |
| `ReadLoop.AcpClient.TimeOut` | crates/buzz-acp/src/acp.rs:1346-1362 | A timeout is idle exactly when the idle deadline is nearer, and a hard one reports the silence |
| `ReadLoop.AcpClient.FinishPrompt` | crates/buzz-acp/src/acp.rs:1653-1666 | The awaited response ends the loop with its result (null if absent) or the agent's error |
| `ReadLoop.AcpClient.PromptBlocks` | crates/buzz-acp/src/acp.rs:764-825 | The read loop runs from now plus the duration with the id just allocated; after a timeout the prompt id and the renewed hard deadline stay stored, after any other end both are cleared |
| `ReadLoop.AcpClient.AwaitPrompt` | crates/buzz-acp/src/acp.rs:798-823 | The same for the part after the request is written |
| `ReadLoop.AcpClient.CancelUntil` | crates/buzz-acp/src/acp.rs:994-1042 | Without a prompt in flight nothing is sent; otherwise, unless a write fails, the drain is a run of the loop for that prompt's id until the given deadline, and its end is reported |
| `ReadLoop.AcpClient.CancelWithCleanup` | crates/buzz-acp/src/acp.rs:934-963 | The same, with the later of the stored hard deadline and 30 seconds from now |
| `ReadLoop.AcpClient.CancelWithCleanupGrace` | crates/buzz-acp/src/acp.rs:978-992 | The same, until the grace is over; a drain timeout is reported if and only if the drain ended by hard timeout, and any other end as it is |
| `ReadLoop.DispatchFrame` | crates/buzz-acp/src/acp.rs:1670-1704 | Dispatch acknowledges nothing, keeps steer, ids and hard deadline, and returns only by the two failing replies |
| `ReadLoopRuns.HardIsCurrent` | crates/buzz-acp/src/acp.rs:772-823 | At every point of every run entered by a prompt the stored hard deadline is the loop's own, renewals included |
| `ReadLoopRuns.CustodyStep` | crates/buzz-acp/src/acp.rs:1329-1707 | In one iteration the loop answers for a steer before (in flight or just taken) exactly if it still does after or has just acknowledged it, never both |
| `ReadLoopRuns.SuccessIff` | crates/buzz-acp/src/acp.rs:1551-1624 | A steer is acknowledged as delivered if and only if a success response with its own id is read while it is in flight, which on the extension names a delivering outcome |
| `ReadLoopRuns.HardStep` | crates/buzz-acp/src/acp.rs:1606-1623 | The hard deadline never decreases, and moves only to now plus the full duration when a steer landed in the awaited turn (not for a started new turn) |
| `ReadLoopRuns.RenewalStep` | crates/buzz-acp/src/acp.rs:1606-1623 | And such a response always counts: the deadline is then the later of the old one and the full duration from now |
| `ReadLoopRuns.HardIsMaximum` | crates/buzz-acp/src/acp.rs:1606-1623 | Over every run the hard deadline is exactly the maximum of the initial one and the full duration after every iteration that read a steer landing in this turn |
| `ReadLoopRuns.WriteIff` | crates/buzz-acp/src/acp.rs:1392-1466 | A steer taken is written if and only if a run id is known or the extension advertised, and the pipe takes it; otherwise it is acknowledged at once with the reason |
| `ReadLoopRuns.ErrorIff` | crates/buzz-acp/src/acp.rs:1557-1577 | A steer is rejected with an error code if and only if its own response is an error with that code, -1 if it has none that fits |
| `ReadLoopRuns.OutcomeRejectedIff` | crates/buzz-acp/src/acp.rs:1579-1650 | A steer is rejected for its outcome if and only if its own response is a success that does not mean delivery |
| `ReadLoopRuns.NeutralIff` | crates/buzz-acp/src/acp.rs:1347-1377 | A steer is resolved as neutral if and only if the loop returns while it is in flight, other than after a message it cannot get past |
| `ReadLoopRuns.RequestIsNoAnswer` | crates/buzz-acp/src/acp.rs:1551-1556 | A message with a method resolves no steer and is not the prompt's result, whatever its id |
| `ReadLoopRuns.ResponseResolves` | crates/buzz-acp/src/acp.rs:1551-1666 | A message without a method that has the steer's id always resolves the steer and ends nothing; one with the prompt's id ends the loop; any other resolves nothing |
| `ReadLoopRuns.ResponseIff` | crates/buzz-acp/src/acp.rs:1653-1666 | The loop returns a result if and only if it reads the success response to the prompt, and then that result; an agent error if and only if it reads the error response |
| `ReadLoopRuns.ReaderIff` | crates/buzz-acp/src/acp.rs:1468-1540 | The end of the stream, an overlong line and a read error are each returned as what they are and only then; a line that is no message changes nothing |
| `ReadLoopRuns.FatalFinish` | crates/buzz-acp/src/acp.rs:1684-1699 | What the loop returns for a message it cannot get past |
| `ReadLoopRuns.AnswerableIff` | crates/buzz-acp/src/acp.rs:1882-1935 | A permission request is answered exactly when its first allow-once option has an id, or there is none but some reject-once option |
| `ReadLoopRuns.RunIdStep` | crates/buzz-acp/src/acp.rs:1724-1826 | The run id becomes what an announcement says, and nothing else that is read changes it |
| `ReadLoopRuns.ToolCallStep` | crates/buzz-acp/src/acp.rs:1670-1682 | A tool call that starts is activity at the later reading of the clock, every other message at the time it was read |
| `ReadLoopRuns.AcksAround` | crates/buzz-acp/src/acp.rs:1305-1708 | The acknowledgements of a run are those of its iterations, in order, each once |
| `ReadLoopRuns.DrainDeadlineIsLater` | crates/buzz-acp/src/acp.rs:934-963 | The drain of a cancel ends at the turn's own deadline or thirty seconds from now, whichever is later |
| `ReadLoopRuns.LeakIff` | crates/buzz-acp/src/acp.rs:1684-1699 | An iteration returns with the steer in flight unresolved if and only if one was in flight and the line read is a permission request that cannot be answered, or another request of the agent whose reply cannot be written; the comment that every return path drains it is wrong for these |
| `ReadLoopRuns.EnteredRunIsTimed` | crates/buzz-acp/src/acp.rs:1309-1328 | Every run of the client's loop meets the premises of the theorems below: it starts with no steer in flight, the idle timeout from its entry and the given hard deadline |
| `ReadLoopRuns.TimeoutStep` | crates/buzz-acp/src/acp.rs:1330-1362 | An iteration times out if and only if the nearer deadline has come by its start or by the sleep, and the kind and silence reported are those of that deadline |
| `ReadLoopRuns.ActivityStep` | crates/buzz-acp/src/acp.rs:1542-1544 | Exactly the messages read move the idle deadline, to the idle timeout after the last activity |
| `ReadLoopRuns.WriteStep` | crates/buzz-acp/src/acp.rs:1392-1450 | A written steer has a new request id, uses goose's method if and only if a run id is known, and the extension only if it was advertised |
| `ReadLoopRuns.EachSteerResolvedOnce` | crates/buzz-acp/src/acp.rs:1305-1708 | In every run, a steer has been acknowledged exactly as often as it was taken from the mailbox, less the one still in flight |
| `ReadLoopRuns.UnresolvedIff` | crates/buzz-acp/src/acp.rs:1305-1708 | The loop returns with a steer it took unacknowledged if and only if that steer is in flight and the last line read is such a message |
| `ReadLoopRuns.UnresolvedSteer` | crates/buzz-acp/src/acp.rs:1684-1686 | A two-iteration run that does so: a steer written, then a permission request without an id |
| `ReadLoopRuns.PendingWasWritten` | crates/buzz-acp/src/acp.rs:1433-1450 | A steer in flight was written by an earlier iteration with that id and transport |
| `ReadLoopRuns.IdsAreUnique` | crates/buzz-acp/src/acp.rs:1434-1435 | No two steers of a run are written with the same request id |
| `ReadLoopRuns.SteerIdIsNotPromptId` | crates/buzz-acp/src/acp.rs:1546-1554 | A steer in flight never has the id of the awaited prompt, so neither response is taken for the other |
| `ReadLoopRuns.SuccessHasItsResponse` | crates/buzz-acp/src/acp.rs:1553-1624 | Behind every delivered acknowledgement are the iteration that wrote that steer and a success response with that very id |
| `ReadLoopRuns.HardNeverDecreases` | crates/buzz-acp/src/acp.rs:1612-1623 | Over every run the hard deadline never decreases |
| `ReadLoopRuns.HardHasASource` | crates/buzz-acp/src/acp.rs:1612-1623 | The hard deadline in force is the initial one or the full duration after an iteration that read a steer landing in this turn |
| `ReadLoopRuns.NothingReadPastDeadline` | crates/buzz-acp/src/acp.rs:1339-1362 | An iteration that does anything but time out began before both deadlines, however much output is waiting |
| `ReadLoopRuns.HardCapHolds` | crates/buzz-acp/src/acp.rs:1339-1362 | A run is over at its first iteration from the initial hard deadline on that is also the full duration after every steer that landed in its turn |
| `ReadLoopRuns.IdleTimeoutMeansSilence` | crates/buzz-acp/src/acp.rs:1325-1357 | An idle timeout implies that the loop's start and every message read lie at least the idle timeout back |
| `SteerSystem.Mailbox.TrySend` | crates/buzz-acp/src/pool.rs:681-697 | A request is accepted if and only if the receiver is alive and the single slot is free |
| `SteerSystem.TryNativeSteer` | crates/buzz-acp/src/lib.rs:2923-3004 | The event is withheld exactly when the request is accepted; nothing changes otherwise |
| `SteerSystem.Decide` | crates/buzz-acp/src/lib.rs:2592-2616 | Each acknowledgement drops or releases, never both; it drops only a success; the cancel-and-merge fallback fires exactly for failures other than an application error |
| `SteerSystem.HandleSteerAck` | crates/buzz-acp/src/lib.rs:2592-2642 | The queue is changed by exactly that decision, on that channel only |
| `SteerSystem.ExactlyOneFate` | crates/buzz-acp/src/lib.rs:2592-2642 | In every interleaving an accepted steer is in exactly one place: awaited, on its way as one event, dropped, or released |
| `SteerSystem.WithheldUntilSettled` | crates/buzz-acp/src/lib.rs:2960-2994 | A withheld event is in the side table until, and only until, its steer is dropped or released or the queue clears the table (expiry, leaving the channel) |
| `SteerSystem.DroppedOnlyIfDelivered` | crates/buzz-acp/src/lib.rs:2592-2634 | A message is dropped only after a confirming response, and is never released then |
| `SteerSystem.DeliveredIff` | crates/buzz-acp/src/acp.rs:1551-1650 | A step confirms a steer if and only if it reads a delivering success response with that steer's own id |
| `SteerSystem.ReleasedIsQueued` | crates/buzz-acp/src/lib.rs:2632-2634 | A released event that was still withheld is back at the head of its queue |
| `SteerSystem.DroppedIsGone` | crates/buzz-acp/src/lib.rs:2629-2631 | A dropped event is in neither store, even if expiry had recovered it |
| `SteerSystem.ExpiryRecovers` | crates/buzz-acp/src/queue.rs:771-794 | On expiry every withheld event is at the head of the queue, in order, and none stays withheld |
| `SteerSystem.ExpiryKeepsAll` | crates/buzz-acp/src/queue.rs:771-794 | The queue is then exactly the withheld events followed by those already queued; only the newest beyond 500 are lost, and none under the cap |
| `SteerSystem.ExpiryOfNothing` | crates/buzz-acp/src/queue.rs:771-774 | With nothing withheld expiry changes nothing |
| `SteerSystem.StoredIff` | crates/buzz-acp/src/queue.rs:678-794 | A step that does not flush, leave the channel, handle that steer's confirmed delivery or overfill the queue neither loses an event nor makes one up |
| `SteerSystem.PushedEventStays` | crates/buzz-acp/src/queue.rs:678-794 | So in every run a pushed event is queued or withheld, through any steers, turns and expiries, until one of those takes it away |
| `SteerSystem.CapHolds` | crates/buzz-acp/src/queue.rs:708-794 | In every run at most 500 events are queued on the channel |
| `SteerSystem.AcceptedIff` | crates/buzz-acp/src/pool.rs:681-697 | A steer is accepted if and only if a receiver is there and the mailbox is free, and only then is its event withheld |
| `SteerSystem.AckFillsChannel` | crates/buzz-acp/src/acp.rs:1640-1650 | What the read loop acknowledges fills that steer's channel unaltered |
| `SteerSystem.AckIsActedOn` | crates/buzz-acp/src/lib.rs:2592-2642 | End to end, in every run: an acknowledgement of the read loop stays on its way unaltered or has been acted on, and it has been once the steer got its turn: dropped for success, released for anything else |
| `SteerSystem.AbandonDrops` | crates/buzz-acp/src/lib.rs:2985-2992 | When a turn is abandoned every steer in flight has its channel dropped |
| `SteerSystem.EndDropsMailbox` | crates/buzz-acp/src/lib.rs:2985-2992 | When the read loop ends, the steer still in the mailbox has its channel dropped |
| `SteerSystem.LeakDropsChannel` | crates/buzz-acp/src/acp.rs:1684-1699 | A message that ends the loop by `?` ends the turn with the channel of the steer in flight dropped |
| `SteerSystem.LeakIsRepaired` | crates/buzz-acp/src/lib.rs:2587-2615 | In every run, new turns included, a leaked steer's message is never dropped: its channel is dropped, its event carries no acknowledgement, or it has been released; and it is released once it gets its turn |
| `SteerSystem.SettlingStep` | crates/buzz-acp/src/lib.rs:2985-2992 | With the turn over, every enabled watcher or acknowledgement step lowers what is outstanding by exactly one, and no other step but the start of a turn changes it |
| `SteerSystem.SomethingSettles` | crates/buzz-acp/src/lib.rs:2985-2992 | With the turn over, one of them is enabled while anything is outstanding |
| `SteerSystem.EverythingSettles` | crates/buzz-acp/src/lib.rs:2592-2642 | In every schedule after a turn and before the next, with all other steps mixed in, there are at most as many watcher and acknowledgement steps as were outstanding, and once there were that many every accepted steer is dropped or released and nothing is withheld |
| `SteerSystem.EverySteerSettles` | crates/buzz-acp/src/lib.rs:2592-2642 | In every run, new turns included, an accepted steer whose channel is watched and whose acknowledgement, with those before it, is handled is dropped or released and its event is no longer withheld |
| `SteerSystem.TurnIsEnabled` | crates/buzz-acp/src/lib.rs:2985-2992 | Until a steer that is not in flight is settled, its watcher or an acknowledgement step is enabled |
| `SteerSystem.ResolvedStays` | crates/buzz-acp/src/lib.rs:2985-2992 | In every run, new turns included, a channel whose sender is done keeps what it holds until its watcher takes it |
| `SteerSystem.WatchedIsSettled` | crates/buzz-acp/src/lib.rs:2985-2992 | In every run a watched steer is settled, and not withheld, once its acknowledgement and those before it have been handled |
| `SteerSystem.EventIsHandled` | crates/buzz-acp/src/lib.rs:2592-2642 | In every run, later turns included, the steer whose acknowledgement is number e in line is settled once e + 1 more have been handled |
| `SteerSystem.StepKeeps` | crates/buzz-acp/src/lib.rs:2592-2642 | Every step of the whole system keeps the four invariants |
| `EventQueues.EventQueue.MarkNativeSteerPending` | crates/buzz-acp/src/queue.rs:678-696 | The first event with the id moves to the end of the side table; other channels are untouched; the answer says whether it was there |
| `EventQueues.EventQueue.ReleaseNativeSteer` | crates/buzz-acp/src/queue.rs:708-735 | A withheld event goes to the front of its queue, the newest give way at 500; other channels are untouched |
| `EventQueues.EventQueue.RemoveEvent` | crates/buzz-acp/src/queue.rs:743-756 | The event leaves both stores and no other event does |
| `EventQueues.EventQueue.RecoverWithheld` | crates/buzz-acp/src/queue.rs:771-794 | All withheld events go to the front in their order, the newest give way at 500; other channels are untouched |
| `EventQueues.EventQueue.DrainChannel` | crates/buzz-acp/src/queue.rs:625-642 | Both stores of the channel are emptied; other channels are untouched |
| `EventQueues.PushedKeepsNewest` | crates/buzz-acp/src/queue.rs:240-251 | A pushed event goes last and the queue keeps the newest 500 |
| `EventQueues.ReleaseAfterMark` | crates/buzz-acp/src/queue.rs:678-735 | Withholding and releasing puts the event first with its original time and keeps all others in order |
| `EventQueues.ReleasedIsFirst` | crates/buzz-acp/src/queue.rs:708-735 | A released event heads its queue whatever arrived meanwhile, even at the cap |
| `EventQueues.MarkedExactly` | crates/buzz-acp/src/queue.rs:678-696 | The first event with the id goes to the end of the side table, and nothing happens without one |
| `EventQueues.ReleasedExactly` | crates/buzz-acp/src/queue.rs:708-735 | The released event goes first with its time, the queue follows in order up to the cap, and only it leaves the side table |
| `EventQueues.RemovedEach` | crates/buzz-acp/src/queue.rs:743-756 | Deletion goes through both stores event by event, in order, and leaves out those with the id and no others |
| `EventQueues.RemoveAfterMark` | crates/buzz-acp/src/queue.rs:678-756 | Withholding and removing deletes exactly that event |
| `Trimmer.OutgoingFrame.FitToBudget` | crates/buzz-acp/src/lib.rs:659-687 | The event becomes the trimmed event or, if no leaf can shrink and it still overflows, the event with the stub |
| `FrameText.WireForm` | crates/buzz-acp/src/observer.rs:56-79 | A frame goes out as one object with every field of the event in declaration order under its camel-case name, `startedAt` only when present |
| `Trimmer.LargestLeafIsChosen` | crates/buzz-acp/src/lib.rs:698-734 | A leaf is chosen if and only if some leaf can shrink; the chosen one can, and no longer one can |
| `Trimmer.FirstOfTheLongest` | crates/buzz-acp/src/lib.rs:711-734 | Of several longest leaves the first in document order is chosen |
| `Trimmer.NoNeedlessPass` | crates/buzz-acp/src/lib.rs:671-679 | Before every pass the frame still exceeds the cap, and the pass elides a longest leaf |
| `Trimmer.NoPassLeft` | crates/buzz-acp/src/lib.rs:671-683 | If the frame exceeds the cap after the passes, no leaf is left that can shrink |
| `Trimmer.StubSays` | crates/buzz-acp/src/lib.rs:664-686 | The stub names the event's kind and the serialized length of what it stands for |
| `Trimmer.ElisionShrinksEscaped` | crates/buzz-acp/src/lib.rs:736-761 | A leaf whose raw form shrinks has a strictly shorter JSON form |
| `Trimmer.ElideAtShrinks` | crates/buzz-acp/src/lib.rs:671-679 | Each pass strictly shrinks the serialized payload, which is the termination measure |
| `Trimmer.RunElidesAtMostTwice` | crates/buzz-acp/src/lib.rs:644-649 | In any run no leaf is elided more than twice; the comment's bound of once does not hold |
| `Trimmer.RunLength` | crates/buzz-acp/src/lib.rs:644-649 | There are at most two passes per string leaf |
| `Trimmer.PassesOutnumberLeaves` | crates/buzz-acp/src/lib.rs:644-649 | A frame with one leaf and two passes |
| `Trimmer.FloorIsConfluent` | crates/buzz-acp/src/lib.rs:671-679 | Whichever leaf is elided next, the fully trimmed payload is the same |
| `Trimmer.TrimmedFitsIff` | crates/buzz-acp/src/lib.rs:671-683 | The loop ends under the cap if and only if the fully trimmed frame is under it |
| `Trimmer.FittedMeaning` | crates/buzz-acp/src/lib.rs:659-687 | A frame under the cap is unchanged; otherwise it is a trimmed frame with unchanged shape that fits, or the stub; nothing but the payload changes |
| `Trimmer.FittedLeaves` | crates/buzz-acp/src/lib.rs:748-761 | Every leaf of a trimmed payload is the original or keeps 2,997 to 3,000 bytes of head and of tail |
| `Trimmer.StubFitsIff` | crates/buzz-acp/src/lib.rs:650-686 | The stub, called trivially fitting, fits exactly when envelope, kind and count leave room |
| `Trimmer.FittedFitsIff` | crates/buzz-acp/src/lib.rs:659-687 | The result exceeds the cap exactly when neither the fully trimmed frame nor the stub fits |
| `Trimmer.OversizedFieldNeverFits` | crates/buzz-acp/src/lib.rs:681-686 | A frame with one envelope field over the cap stays over it, stub or not |
| `Trimmer.OversizedSessionNeverFits` | crates/buzz-acp/src/acp.rs:663-667 | In particular one whose session id, which the agent chose, is over the cap |
| `Elision.FloorCharBoundary` | crates/buzz-acp/src/lib.rs:776-781 | The nearest character boundary at or below the limit, at most three bytes away |
| `Elision.CeilCharBoundary` | crates/buzz-acp/src/lib.rs:783-788 | The nearest character boundary at or above the limit |
| `Elision.ElisionBoundaries` | crates/buzz-acp/src/lib.rs:770-774 | The cuts fall on character boundaries and are the byte lengths of the longest prefix and suffix of at most 3,000 bytes |
| `Elision.ShrinksIffMarkerShorter` | crates/buzz-acp/src/lib.rs:739-746 | A leaf shrinks if and only if its marker is shorter than what it replaces |
| `Elision.RetainedBytes` | crates/buzz-acp/src/lib.rs:748-761 | A leaf that shrinks keeps 2,997 to 3,000 bytes at each end |
| `Elision.ElidedMeaning` | crates/buzz-acp/src/lib.rs:748-768 | An elided leaf is its own head and tail, and between them the exact number of bytes left out, in decimal without leading zeros |
| `Elision.RemovedAgainExactly` | crates/buzz-acp/src/lib.rs:644-648 | A second elision removes exactly the first marker, less an ellipsis at each end that retained just 2,997 bytes |
| `Elision.NeverThrice` | crates/buzz-acp/src/lib.rs:644-648 | No leaf of addressable length can be elided a third time |
| `Elision.ElidedAgainIff` | crates/buzz-acp/src/lib.rs:644-648 | An elided leaf can be elided again exactly when the count of bytes removed has three digits, or three more for each end that retained just 2,997 bytes |
| `Elision.AsciiElidedAgainIff` | crates/buzz-acp/src/lib.rs:644-648 | An ASCII leaf is elided a second time exactly from 6,100 bytes on |
| `Elision.LeafElidedTwice` | crates/buzz-acp/src/lib.rs:644-648 | 6,100 times the letter a is such a leaf |
| `Payloads.SizeIsSerializedLen` | crates/buzz-acp/src/lib.rs:689-691 | The compositional size is the length of the serialized JSON |
| `Payloads.EscapedLenConcat` | crates/buzz-acp/src/lib.rs:639-642 | Escaping distributes over concatenation |
| `Payloads.EscapingNeverShortens` | crates/buzz-acp/src/lib.rs:639-642 | Escaping never shortens |
| `JsonStrings.UnescapedOfEscaped` | crates/buzz-acp/src/lib.rs:689-691 | What is written for a string reads back, by the rules of RFC 8259, as exactly that string |
| `JsonStrings.NoControls` | crates/buzz-acp/src/lib.rs:689-691 | And contains no control character |
| `Payloads.SetLeafSize` | crates/buzz-acp/src/lib.rs:671-679 | Rewriting one leaf changes the serialized length by that leaf's change |
| `Payloads.MapLeavesKeepsSkeleton` | crates/buzz-acp/src/lib.rs:674-679 | Rewriting leaves keeps the object and array shape |
| `Payloads.MapLeavesAt` | crates/buzz-acp/src/lib.rs:674-679 | Each leaf ends up rewritten as often as it was chosen |
| `Coalescer.ObserverChunkCoalescer.Ingest` | crates/buzz-acp/src/lib.rs:547-570 | The pending entries and the released events are those of the specification |
| `Coalescer.ObserverChunkCoalescer.Flush` | crates/buzz-acp/src/lib.rs:572-581 | All pending entries are released with their merged text, and none is left |
| `Coalescer.ChunkOfWithText` | crates/buzz-acp/src/lib.rs:583-626 | Writing a chunk's text back gives a chunk of the same key with that text |
| `Coalescer.ChunkIff` | crates/buzz-acp/src/lib.rs:583-604 | An event is a chunk if and only if its update type is one of the three and its text a string; the chunk carries that text |
| `Coalescer.KeysAgreeIff` | crates/buzz-acp/src/lib.rs:596-614 | Two chunks have the same key if and only if update type, message id, channel, session, turn and agent index are the same |
| `Coalescer.ChunkIsMerged` | crates/buzz-acp/src/lib.rs:553-565 | A chunk that goes with a pending one, the joined text under 60,000 bytes, releases nothing: that text grows by its text, takes its stamp, and nothing else changes |
| `Coalescer.ChunkIsHeld` | crates/buzz-acp/src/lib.rs:567-569 | A chunk that goes with none is held back behind the pending ones |
| `Coalescer.BarrierReleasesAll` | crates/buzz-acp/src/lib.rs:548-552 | Any other event releases all pending ones in order, each with its merged text, and then itself |
| `Coalescer.FullTextReleasesAll` | crates/buzz-acp/src/lib.rs:555-560 | A text that would reach the limit releases all pending ones, with the new chunk held back alone |
| `Coalescer.OnlyTextIsWritten` | crates/buzz-acp/src/lib.rs:616-632 | Writing the merged text back changes nothing in the payload off the path to the text |
| `Coalescer.NothingLostOrCrossed` | crates/buzz-acp/src/lib.rs:546-626 | For any ingests and timer flushes, released plus pending has the same other events in order and the same text per key between them as the input; keys stay distinct |
| `Coalescer.FlushTimesDoNotMatter` | crates/buzz-acp/src/lib.rs:546-626 | Where timer flushes fall changes none of it |
| `Coalescer.PendingIsBounded` | crates/buzz-acp/src/lib.rs:554-569 | Every pending text is under 60,000 bytes or a single chunk |
| `ChunkStreams.IngestKeepsStream` | crates/buzz-acp/src/lib.rs:547-570 | One ingest keeps what the stream says, for any keys and events |
| `Pacer.ObserverPublishPacer.Wait` | crates/buzz-acp/src/lib.rs:381-408 | At most one sleep; never before the earliest time both limits allow, and exactly then on an exact clock |
| `Pacer.ObserverPublishPacer.Prune` | crates/buzz-acp/src/lib.rs:383-390 | Publishes a minute old are forgotten and no others |
| `Pacer.PublishMany` | crates/buzz-acp/src/lib.rs:364-409 | Any number of publishes: at most 90 in any half-open minute, at least 167 ms apart, the first no sooner than 167 ms |
| `Pacer.AtMostLimitPerMinute` | crates/buzz-acp/src/lib.rs:387-397 | Keeping every 91st publish a minute away bounds every window by 90 |
| `Pacer.LimitPerMinuteIsWindowed` | crates/buzz-acp/src/lib.rs:387-397 | And it is necessary |
| `Pacer.EarliestIff` | crates/buzz-acp/src/lib.rs:392-405 | A further publish keeps both limits if and only if it is no earlier than the earliest time |
| `Pacer.SlotIsEarliest` | crates/buzz-acp/src/lib.rs:392-397 | The slot computed from the bounded deque is that earliest time |
| `ObserverBus.ObserverHandle.PushBack` | crates/buzz-acp/src/observer.rs:123-129 | At the cap the oldest event makes room for the new one |
| `ObserverBus.ObserverHandle.Emit` | crates/buzz-acp/src/observer.rs:104-136 | An uninterrupted emit numbers, buffers and sends one event |
| `ObserverSplice.EmitIsThreeSteps` | crates/buzz-acp/src/observer.rs:104-136 | An uninterrupted emit is the draw, push and send steps of the interleaved model, in that order |
| `ObserverSplice.EmitAppends` | crates/buzz-acp/src/observer.rs:104-136 | Its event gets the next number and ends the last thousand and the live feed, and nothing else in them moves |
| `ObserverBus.ObserverHandle.DrawSeq` | crates/buzz-acp/src/observer.rs:112 | Sequence numbers are handed out one after the other |
| `ObserverBus.ObserverHandle.Subscribe` | crates/buzz-acp/src/observer.rs:88-90 | A subscriber starts with nothing to read and changes nothing else |
| `ObserverBus.ObserverHandle.Snapshot` | crates/buzz-acp/src/observer.rs:93-101 | A snapshot is the replay buffer |
| `ObserverBus.Splice` | crates/buzz-acp/src/lib.rs:448-484 | The snapshot, then exactly the live events above its highest number, in order |
| `ObserverSplice.BufferIsLastThousand` | crates/buzz-acp/src/observer.rs:123-129 | In every interleaving the replay buffer is the last min(n, 1000) pushes |
| `ObserverDelivery.NeverTwice` | crates/buzz-acp/src/lib.rs:420-477 | In every interleaving no event is passed on twice |
| `ObserverDelivery.PassedOnIff` | crates/buzz-acp/src/lib.rs:420-477 | In every interleaving, once caught up, an event was passed on exactly when the buffer held it at the snapshot or it was sent after the subscription with a number above the mark |
| `ObserverDelivery.LostIff` | crates/buzz-acp/src/lib.rs:420-477 | An event pushed after the snapshot is lost exactly when it was numbered below the snapshot's mark but not yet pushed when the snapshot was taken |
| `ObserverDelivery.NothingLostIff` | crates/buzz-acp/src/lib.rs:420-477 | So none is lost exactly when no emit was under way below the mark at the snapshot |
| `SkippedEvents.SkippedEvent` | crates/buzz-acp/src/observer.rs:111-128 | A run of two concurrent emits in which the first event is never passed on |
| `ObserverDelivery.ExactlyOnceInOrder` | crates/buzz-acp/src/lib.rs:420-477 | With serialized emits the events passed on are one uninterrupted stretch of all events, each once and in order |
| `ObserverDelivery.NothingMissedIff` | crates/buzz-acp/src/lib.rs:420-425 | Nothing sent since the subscription is missing exactly when at most 1,000 events came between subscription and snapshot |
| `Circuit.SlotCircuit.RecordCrash` | crates/buzz-acp/src/lib.rs:1053-1096 | The breaker and the verdict after a crash |
| `Circuit.SlotCircuit.CanRefill` | crates/buzz-acp/src/lib.rs:1113-1131 | A refill is allowed unless the circuit is open; the first after the cooldown is a probe |
| `Circuit.SlotCircuit.MarkSpawnFailed` | crates/buzz-acp/src/lib.rs:1101-1103 | A failed spawn opens the circuit for the cooldown |
| `Circuit.VerdictIff` | crates/buzz-acp/src/lib.rs:1056-1096 | A crash is refused if and only if the circuit is open and its time not up, or it is closed and two crashes lie within the last minute; it is a probe if and only if an open circuit's time is up; otherwise a respawn is granted |
| `Circuit.CrashIsRecorded` | crates/buzz-acp/src/lib.rs:1056-1096 | A closed circuit then remembers exactly the crashes of the last minute and the new one, and a probed one is one crash short of opening |
| `Circuit.RefillIff` | crates/buzz-acp/src/lib.rs:1113-1131 | A refill is refused if and only if the circuit is open and its time not up |
| `Circuit.QuietSlotIsGranted` | crates/buzz-acp/src/lib.rs:1048-1131 | In every run a crash or refill five minutes or more after everything else that happened to the slot is granted |
| `Circuit.ThreeCrashesOpen` | crates/buzz-acp/src/lib.rs:1048-1131 | Any three crashes of a slot within less than 60 s include a circuit-open verdict |
| `Circuit.OpenCircuitBlocks` | crates/buzz-acp/src/lib.rs:1056-1072 | While the circuit is open every crash and refill is refused |
| `Circuit.CrashAfterProbeReopens` | crates/buzz-acp/src/lib.rs:1059-1068 | A crash within 60 s of a half-open probe finds or opens the circuit for the cooldown |
| `Circuit.BackoffRange` | crates/buzz-acp/src/lib.rs:1086-1095 | Every backoff lies in 0.8 to 2.4 seconds, so the 30 s cap is never reached |
| `Supervisor.ResultChannel.TrySend` | crates/buzz-acp/src/lib.rs:1193-1204 | A result is queued if and only if the bounded channel has room |
| `Supervisor.RespawnGuard.Send` | crates/buzz-acp/src/lib.rs:1188-1206 | The guard is disarmed only by an accepted result |
| `Supervisor.RespawnGuard.Drop` | crates/buzz-acp/src/lib.rs:1209-1223 | An armed guard reports a failure |
| `Supervisor.RunRespawnTask` | crates/buzz-acp/src/lib.rs:1176-1223 | A respawn task leaves exactly one result if there is room, whether it completes, panics or is aborted |
| `Supervisor.MainLoop.SpawnRespawnTask` | crates/buzz-acp/src/lib.rs:3773-3822 | The crash is recorded, and a respawn is started and flagged unless the circuit is open |
| `Supervisor.MainLoop.HandlePromptResult` | crates/buzz-acp/src/lib.rs:3169-3173 | The agent's entries leave `task_map`, and the agent is returned or its crash recorded |
| `Supervisor.MainLoop.RecoverPanickedAgent` | crates/buzz-acp/src/lib.rs:3537-3620 | A known panicked task is removed and its agent's crash recorded; an unknown one changes nothing |
| `Supervisor.MainLoop.RefillSlots` | crates/buzz-acp/src/lib.rs:1818-1837 | Slot by slot, a respawn starts where nobody owns the slot and the circuit allows it |
| `Supervisor.MainLoop.CollectRespawns` | crates/buzz-acp/src/lib.rs:1853-1878 | Every waiting result clears its flag and fills its slot or opens its circuit |
| `Supervisor.StepKeeps` | crates/buzz-acp/src/lib.rs:1811-1878 | Every step of the supervisor keeps ownership, flags and the balance of respawns |
| `Supervisor.AtMostOneOwner` | crates/buzz-acp/src/lib.rs:1819-1825 | In every state reachable from a pool with any slots filled, a slot is owned by at most one of pool, prompt task and respawn |
| `Supervisor.EveryRespawnHasOneResult` | crates/buzz-acp/src/lib.rs:1854-1878 | Respawns started are those collected, waiting and running; at most one per slot is outstanding |
| `Supervisor.ChannelNeverFull` | crates/buzz-acp/src/lib.rs:1678-1680 | Whenever a respawn task ends its result is queued: the channel of one place per slot never fills |
| `Supervisor.NeverOverwrites` | crates/buzz-acp/src/pool.rs:612-625 | An agent is only ever returned to an empty slot |
| `Supervisor.AgentIsGivenBack` | crates/buzz-acp/src/lib.rs:3466-3516 | When a healthy agent's prompt ends its slot is idle again, and every other slot, breaker, flag and respawn is as before |
| `Supervisor.CrashIsHandled` | crates/buzz-acp/src/lib.rs:3524-3620 | The agent of a crashed or panicked task is gone from its slot, and a respawn is under way there if and only if the breaker does not refuse the crash; nothing else changes |
| `Supervisor.ResultIsCollected` | crates/buzz-acp/src/lib.rs:1853-1878 | A collected success makes the slot idle with its flag clear; a failure opens its circuit for five minutes; no other slot changes |
| `Supervisor.VacantHasCause` | crates/buzz-acp/src/lib.rs:1811-1878 | In every run a slot without an owner was never filled, or lost its agent to a refused crash, a refused panic or a failed respawn and has had none since |
| `Supervisor.PassVisitsAll` | crates/buzz-acp/src/lib.rs:1818-1837 | After the maintenance pass a respawn is under way exactly where one was before and where a slot without an owner has a circuit that is not open |
| `Supervisor.AllAreCollected` | crates/buzz-acp/src/lib.rs:1853-1878 | After collecting, no result waits: exactly the slots with a successful result have become idle, and exactly those with a result have lost their flag |
| `Supervisor.SettlesOneTask` | crates/buzz-acp/src/lib.rs:3169-3173 | A prompt result removes exactly one `task_map` entry |
| `Supervisor.VacantSlotIsRefilled` | crates/buzz-acp/src/lib.rs:1818-1837 | A slot without an owner whose circuit is not open is refilled at once with its crash history kept, as one empty from start-up is |
| `PoolLifecycle.LazyPool.StartIfDue` | crates/buzz-acp/src/pool_lifecycle.rs:37-58 | A wake starts exactly when work waits and the pool is listening or its retry is due |
| `PoolLifecycle.LazyPool.Complete` | crates/buzz-acp/src/pool_lifecycle.rs:99-120 | A result is accepted only for the outstanding attempt, and a rejected one changes nothing |
| `PoolLifecycle.LazyPool.Cancel` | crates/buzz-acp/src/pool_lifecycle.rs:91-93 | Cancelling a wake is completing it with an error |
| `PoolLifecycle.LazyPool.Take` | crates/buzz-acp/src/pool_lifecycle.rs:60-68 | A ready pool is handed over once; any other state is kept |
| `PoolLifecycle.RetryDelayIsCappedDoubling` | crates/buzz-acp/src/pool_lifecycle.rs:123-132 | The saturating, checked arithmetic is min(5 * 2^(n-1), 300) seconds for every attempt |
| `PoolLifecycle.RetryDelayTable` | crates/buzz-acp/src/pool_lifecycle.rs:123-132 | 5, 10, 20, 40, 80, 160, then 300 seconds |
| `PoolLifecycle.AtMostOneWake` | crates/buzz-acp/src/pool_lifecycle.rs:37-58 | In every run at most one wake is outstanding, exactly while waking |
| `PoolLifecycle.StaleResultIsIgnored` | crates/buzz-acp/src/pool_lifecycle.rs:99-109 | A result is refused if and only if no wake or another attempt is outstanding, and then nothing changes |
| `PoolLifecycle.StartedIff` | crates/buzz-acp/src/pool_lifecycle.rs:37-58 | A wake starts if and only if work waits and the pool is listening or its retry time has come; it is the first, or one more than the failed one |
| `PoolLifecycle.TakenIff` | crates/buzz-acp/src/pool_lifecycle.rs:60-68 | In every run a pool is taken if and only if the outstanding wake brought it and none was taken since, whatever polls and stale results come in between |
| `PoolLifecycle.RetryStartsIff` | crates/buzz-acp/src/pool_lifecycle.rs:37-120 | In every run the next attempt after a failure starts with the first poll that finds work once the delay is over, and with no other |
| `PoolLifecycle.RunIsOnSchedule` | crates/buzz-acp/src/pool_lifecycle.rs:37-132 | Attempts are numbered without gaps, each no sooner than the delays before it allow |
| `PoolLifecycle.AttemptStartsNoEarlier` | crates/buzz-acp/src/pool_lifecycle.rs:37-132 | Attempt k starts no earlier than the first k-1 delays after attempt 1 |
| `PoolLifecycle.TotalDelayClosedForm` | crates/buzz-acp/src/pool_lifecycle.rs:123-132 | After six attempts the delays total 315 seconds and 300 for each further one |
| `PoolLifecycle.AttemptsInTime` | crates/buzz-acp/src/pool_lifecycle.rs:37-132 | How many wakes a series can have started within any time of its first |
| `Membership.MembershipTracker.Notify` | crates/buzz-acp/src/lib.rs:1985-2095 | A notification is ignored if its id is remembered or its time is behind the channel's; otherwise it decides the membership |
| `Membership.RunGenerations` | crates/buzz-acp/src/lib.rs:1985-2010 | The two id sets are exactly the last two generations of new ids |
| `Membership.AtMost1999Ids` | crates/buzz-acp/src/lib.rs:1985-2010 | Never more than 1,999 ids are held |
| `Membership.SeenIff` | crates/buzz-acp/src/lib.rs:1985-2010 | An id is remembered exactly while it is among the new ids of those generations |
| `Membership.RepeatIsCaught` | crates/buzz-acp/src/lib.rs:1985-2010 | A repeat within the next 999 distinct new ids changes nothing |
| `Membership.NewestNotificationWins` | crates/buzz-acp/src/lib.rs:2011-2095 | For any order and any repeats of notifications with distinct times, the newest decides the final membership |
| `Membership.LastFirstArrivalWins` | crates/buzz-acp/src/lib.rs:2011-2095 | Within one second the last first arrival decides, while no repeat has been forgotten |
| `Filters.RuleTable.MatchEvent` | crates/buzz-acp/src/filter.rs:368-460 | The answer is the winning rule and its tag, or none exactly when no rule wins; each counter moves by exactly its rule's evaluation |
| `Filters.OneWinner` | crates/buzz-acp/src/filter.rs:345-346 | At most one rule wins |
| `Filters.MatchIsFirst` | crates/buzz-acp/src/filter.rs:376-456 | A match at i means every earlier rule failed a coarse test or evaluated to false |
| `Filters.WinsIff` | crates/buzz-acp/src/filter.rs:368-456 | A rule is the answer if and only if it passes the coarse tests, its expression, if any, is evaluated to true, and every earlier rule fails a coarse test or is evaluated to false |
| `Filters.UnconditionalRuleMatches` | crates/buzz-acp/src/filter.rs:449-456 | An event whose first coarsely passing rule has no expression always matches that rule |
| `Filters.NothingPasses` | crates/buzz-acp/src/filter.rs:368-399 | An event no rule passes coarsely matches nothing and counts nothing |
| `Filters.CountedIff` | crates/buzz-acp/src/filter.rs:402-447 | A counter is cleared by an answer and raised by a timeout exactly when its rule is reached and evaluated, and otherwise kept |
| `Filters.FailsClosed` | crates/buzz-acp/src/filter.rs:357-367 | A reached rule that is disabled, times out or fails ends the call without a match for any rule |
| `Filters.CounterFollowsTrace` | crates/buzz-acp/src/filter.rs:402-447 | Over a run the counter of a rule is what its own evaluations leave |
| `Filters.DisabledIff` | crates/buzz-acp/src/filter.rs:336-341 | A rule is disabled if and only if its expression timed out five times with no answer in between or since |
| `Filters.DisabledForever` | crates/buzz-acp/src/filter.rs:403-415 | A disabled rule keeps its counter at five for ever |
| `Filters.DisabledBlocks` | crates/buzz-acp/src/filter.rs:403-415 | From then on an event that reaches it and passes its coarse tests matches nothing |
| `Subscriptions.AddKinds` | crates/buzz-acp/src/config.rs:1307-1311 | Kinds are added once each, in order of first appearance |
| `Subscriptions.MergeRules` | crates/buzz-acp/src/config.rs:1295-1316 | The loop computes the declaratively specified merged filter of the applicable rules |
| `Subscriptions.TargetChannels` | crates/buzz-acp/src/config.rs:1250-1258 | The targets are the discovered channels an override entry parses to, or all |
| `Subscriptions.ResolveChannelFilters` | crates/buzz-acp/src/config.rs:1241-1332 | Exactly the discovered channels that are due a filter get it, in every mode |
| `Subscriptions.ResolveDynamicChannelFilter` | crates/buzz-acp/src/config.rs:1343-1421 | The filter a single channel is due, in every mode |
| `Subscriptions.StaticEqualsDynamic` | crates/buzz-acp/src/config.rs:1383-1385 | On every discovered channel the two resolvers give the same filter |
| `Subscriptions.MergedKindIff` | crates/buzz-acp/src/config.rs:1304-1312 | A merged filter asks for a kind if and only if some applicable rule takes it |
| `Subscriptions.MergedKindsAreProper` | crates/buzz-acp/src/config.rs:1304-1312 | A merged kind list is never empty and never repeats |
| `Subscriptions.MergedCovers` | crates/buzz-acp/src/config.rs:1293-1327 | The merged filter admits whatever an applicable rule admits |
| `Subscriptions.MergedIsLeast` | crates/buzz-acp/src/config.rs:1293-1327 | It is the least relay filter that does |
| `Subscriptions.DueIff` | crates/buzz-acp/src/config.rs:1241-1421 | A channel is subscribed if and only if some rule applies (config mode) or no override excludes it (other modes) |
| `Subscriptions.DueAdmits` | crates/buzz-acp/src/config.rs:1261-1289 | What is asked for in mentions and all mode: the overriding kinds, else kinds 9, 46010 and 40007 or every kind, and only mentions where that filter is on |
| `Subscriptions.CoarseIsRelayFilter` | crates/buzz-acp/src/filter.rs:376-399 | The coarse local tests are the scope test and the rule's own relay filter |
| `Subscriptions.ScopeMatchesApplies` | crates/buzz-acp/src/filter.rs:67-72 | The local scope test implies the relay-side one |
| `Subscriptions.NothingLostAtRelay` | crates/buzz-acp/src/filter.rs:376-399 | In config mode an event that matches locally is one the channel's relay filter admits |
| `Subscriptions.ScopesAgreeIff` | crates/buzz-acp/src/config.rs:1423-1432 | The two scope tests agree on all channels exactly for lists that contain the canonical spelling of every id they name |
| `Subscriptions.UnlistedSpellingIsDead` | crates/buzz-acp/src/config.rs:1423-1432 | A rule naming a channel only in another spelling is subscribed but never matches |
| `Subscriptions.UpperCaseWitness` | crates/buzz-acp/src/config.rs:1429 | Such a spelling exists |
| `Uuids.ParseOfFormat` | crates/buzz-acp/src/filter.rs:70 | Parsing a channel id inverts printing it |
| `Uuids.FormatIsInjective` | crates/buzz-acp/src/filter.rs:70 | Different channels print differently |
| `Uuids.ParseIff` | crates/buzz-acp/src/config.rs:1429 | A text names a channel if and only if it spells its 32 digits in either case, bare, hyphenated, in braces or as a URN |
| `JsonMerge.DeepMerge` | crates/buzz-acp/src/acp.rs:219-239 | Entry by entry, in any order, the merge is the specified one |
| `JsonMerge.LookupMerged` | crates/buzz-acp/src/acp.rs:216-239 | The merge described by lookup on every path: the overlay's answer past a collision, else both objects merged, else the base's answer |
| `JsonMerge.OverlayLeafWins` | crates/buzz-acp/src/acp.rs:233-236 | Overlay leaves win |
| `JsonMerge.OverlayObjectStays` | crates/buzz-acp/src/acp.rs:225-231 | Objects of the overlay stay objects |
| `JsonMerge.BaseLeafSurvives` | crates/buzz-acp/src/acp.rs:225-231 | Base leaves on paths the overlay leaves alone survive |
| `JsonMerge.MergeNothing` | crates/buzz-acp/src/acp.rs:219-239 | Merging with nothing is the identity, on either side |
| `JsonMerge.MergeAgain` | crates/buzz-acp/src/acp.rs:219-239 | Merging the same overlay again changes nothing |
| `JsonMerge.NotAssociative` | crates/buzz-acp/src/acp.rs:219-239 | Merging is not associative |
| `JsonMerge.LastWriterWins` | crates/buzz-acp/src/acp.rs:313-323 | Over several layers a leaf is read from the last layer that touches its path |
| `JsonMerge.ShapeOfKey` | crates/buzz-acp/src/acp.rs:338-352 | A key ends up a non-object exactly when its last layer gives it one |
| `JsonMerge.LeafOfKey` | crates/buzz-acp/src/acp.rs:338-352 | A key holds a value that is no object exactly when the last layer with the key does |
| `CodexConfig.BuildCodexConfigEnv` | crates/buzz-acp/src/acp.rs:268-356 | Result and error of the whole build, for any parser |
| `CodexConfig.BuiltIff` | crates/buzz-acp/src/acp.rs:263-352 | A value is built if and only if an entry was injected, every layer is an object, and the last layer with a sandbox entry has an object there |
| `CodexConfig.NothingBuiltIff` | crates/buzz-acp/src/acp.rs:273-290 | Neither value nor error exactly without the flag or an entry |
| `CodexConfig.EntriesAreAt` | crates/buzz-acp/src/acp.rs:278-283 | The entries are the values of exactly the `CODEX_CONFIG` variables, in the order they are set |
| `CodexConfig.LayerErrorIff` | crates/buzz-acp/src/acp.rs:292-330 | A layer is reported if and only if it is the first that is not a JSON object, by its own source and kind of failure |
| `CodexConfig.SandboxErrorIff` | crates/buzz-acp/src/acp.rs:338-352 | The sandbox entry is reported if and only if all layers are objects and the last one that has it has no object there, with that value |
| `CodexConfig.ForcedIsMerge` | crates/buzz-acp/src/acp.rs:338-345 | Forcing network access is one more merge on top |
| `CodexConfig.NetworkIsOn` | crates/buzz-acp/src/acp.rs:258-259 | Every value built has network access on |
| `CodexConfig.LeafKept` | crates/buzz-acp/src/acp.rs:248-252 | A leaf of any layer is kept when no later layer touches its path, except at or below the forced setting |
| `CodexConfig.ParentLeafKept` | crates/buzz-acp/src/acp.rs:253-257 | Every leaf of the parent environment is kept, except at or below the forced setting |
| `Resp.EncodeCommand` | perf/relay_bus_scaling.py:110-117 | The bytes written for a command |
| `Resp.ByteStream.ReadResp` | perf/relay_bus_scaling.py:129-153 | Reply or error, and what is left on the stream, for any input |
| `Resp.ByteStream.ReadReplies` | perf/relay_bus_scaling.py:152 | Array elements are read one after the other up to the first failure |
| `Resp.ByteStream.ReadCrlfLine` | perf/relay_bus_scaling.py:120-126 | A line must end in CRLF; the end of the stream is told apart |
| `Resp.ByteStream.ReadBulk` | perf/relay_bus_scaling.py:139-147 | A bulk string's length, terminator and text are checked; negative and huge lengths behave as `read` does |
| `Resp.PyIntOfPrint` | perf/relay_bus_scaling.py:140 | Reading a printed count gives the count |
| `Resp.RoundTrip` | perf/relay_bus_scaling.py:110-153 | Decoding an encoded command followed by anything returns exactly its arguments and leaves exactly what followed |
| `Resp.PrefixFree` | perf/relay_bus_scaling.py:110-117 | No two commands start the same stream |
| `Resp.PipelineRoundTrip` | perf/relay_bus_scaling.py:110-153 | Pipelined commands are read back one by one |
| `Resp.ReplyStable` | perf/relay_bus_scaling.py:129-153 | A reply read whole does not depend on the bytes after it |
| `Resp.TruncatedFails` | perf/relay_bus_scaling.py:110-153 | A command cut short anywhere is an error |
| `RespReplies.ReplyRoundTrip` | perf/relay_bus_scaling.py:120-153 | Whatever a server sends (simple, bulk, integer, nil, arrays nested to any depth), followed by anything, is read back as what it means, and exactly what followed is left |
| `RespReplies.RepliesAreUnambiguous` | perf/relay_bus_scaling.py:129-153 | No reply is the beginning of another with another meaning |
| `RespReplies.CommandExample` | perf/relay_bus_scaling.py:110-117 | The command GET k byte by byte |
| `RespReplies.ReplyExamples` | perf/relay_bus_scaling.py:129-153 | The one-line replies byte by byte |
| `RespReplies.ErrorIsRaised` | perf/relay_bus_scaling.py:135-136 | An error reply is raised with its text |
| `RespReplies.ErrorEndsArray` | perf/relay_bus_scaling.py:148-152 | An error inside an array is raised in place of the array, and what follows it stays on the stream |
| `RespReplies.LineIff` | perf/relay_bus_scaling.py:120-126 | A line is read if and only if the stream begins with it and a CRLF before any other line feed |
| `RespReplies.BulkIff` | perf/relay_bus_scaling.py:139-147 | A bulk text is read if and only if the stream begins with its announced number of bytes and a CRLF |
| `RespReplies.PyIntReads` | perf/relay_bus_scaling.py:138-149 | An integer is read from spaces, an optional sign and digits with single underscores, with the numeral's value |
| `RespReplies.PyIntReadsOnly` | perf/relay_bus_scaling.py:138-149 | And from nothing else |
| `Utf8.DecodeOfEncode` | perf/relay_bus_scaling.py:147 | UTF-8 decoding inverts encoding |
| `Utf8.DecodeIsExact` | perf/relay_bus_scaling.py:147 | A byte string decodes to a text if and only if it is that text's encoding; overlong, truncated and surrogate forms decode to nothing |
| `Utf8.StandardExamples` | perf/relay_bus_scaling.py:147 | The examples of section 7 of RFC 3629 |
| `Decimal.ValueOfPrint` | perf/relay_bus_scaling.py:112-114 | The value of a printed number is the number |
| `PcmFramer.SttTapProcessor.Process` | desktop/public/worklet.js:34-64 | Frames posted, live buffer and the RangeError case for any block |
| `PcmFramer.SttTapProcessor.OnMessage` | desktop/public/worklet.js:27-31 | A talk message sets transmission and nothing else |
| `PcmFramer.FramesAreTheAudio` | desktop/public/worklet.js:45-61 | Cutting a recording into frames and a tail loses and reorders nothing |
| `PcmFramer.RunIsCut` | desktop/public/worklet.js:34-64 | In every run the posted frames and the buffer are exactly the recordings between muted blocks, cut into frames |
| `PcmFramer.NeverOverruns` | desktop/public/worklet.js:50-61 | With blocks of at most 960 samples the offset stays below 960 and nothing is thrown |
| `PcmFramer.PostedFramesAreWhole` | desktop/public/worklet.js:50-53 | Every posted frame has exactly 960 samples, however long the blocks |
| `PcmFramer.NothingLostUnmuted` | desktop/public/worklet.js:45-61 | With no block processed while muted, frames and buffer concatenate to the input |

## Left out

- EventQueues.EventQueue.MarkNativeSteerPending: the rest of the queue (flushing, requeueing, retry limits, drop mode) is not part of this model beyond pushing and flushing steps.
- ReadLoop.AcpClient.Dispatch: does not model the bookkeeping of a pending permission request, the text of replies, usage recording, or observer events; a reply is written or is not.
- ReadLoop.AcpClient.RouteSteerResponse: does not model the message texts inside steer errors, which only reach the log.
- ReadLoop.AcpClient.PromptBlocks: does not parse the stop reason out of the result.
- SteerSystem.HandleSteerAck: whether to fall back is returned; sending the control signal to the turn, once at most, and extending the in-flight deadline on success are not modelled. When that deadline expires is not either: expiry can happen at any step.
- SteerSystem.ExactlyOneFate: covers one turn at a time on a channel. A new turn that starts after the in-flight deadline has expired while the old prompt task still runs, so that two receivers are open at once, is not modelled.
- Circuit.SlotCircuit.RecordCrash: jitter is real arithmetic, not rounded floating point.
- Supervisor.MainLoop.HandlePromptResult: which outcomes return the agent and which crash it, and what happens to the batch, is a parameter.
- ObserverDelivery.LostIff: broadcast lag is not modelled; the live feed is unbounded.
- Membership.MembershipTracker.Notify: subscribing, unsubscribing and draining that follow a notification are not modelled.
- Resp.ByteStream.ReadResp: Python's recursion and digit limits are not modelled, nor running out of memory for a huge announced length.
- CodexConfig.BuildCodexConfigEnv: the value is not printed back to text.
- JsonMerge.DeepMerge: in-place update of an owned tree is modelled on values; the tree has no aliases.
- PcmFramer.SttTapProcessor.Process: samples are real numbers, since they are only copied.
- Sockets, subprocesses, signals, environment variables, TOML and command-line parsing, logging, lock poisoning.
- Cryptography and expression evaluation: foreign code.
- User interfaces, release and benchmark scripts.
- Small predicates settled by reading a few branches: author gates, error classification, title and argument normalizers.
