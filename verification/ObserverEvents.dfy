/** The event carried by the in-process observer bus
    (crates/buzz-acp/src/observer.rs:56-79). The payload type is a parameter:
    the bus never looks inside it, the coalescer reads it by key and the
    trimmer reads it in serialization order. */
module ObserverEvents {
  import opened Options

  datatype ObserverEvent<+P> = ObserverEvent(
    seq_: nat,
    timestamp: string,
    kind: string,
    agentIndex: Option<nat>,
    channelId: Option<string>,
    sessionId: Option<string>,
    turnId: Option<string>,
    startedAt: Option<string>,
    payload: P)
}
