/** Coalescing streamed text chunks before they are published
    (crates/buzz-acp/src/lib.rs:486-647). */
module Coalescer {
  import opened Options
  import opened Json
  import ChunkStreams
  import opened ObserverEvents
  import opened Utf8

  type Event = ObserverEvent<Value>

  datatype Key = Key(
    updateType: string,
    messageId: Option<string>,
    channelId: Option<string>,
    sessionId: Option<string>,
    turnId: Option<string>,
    agentIndex: Option<nat>)

  datatype Chunk = Chunk(key: Key, text: string)

  datatype Pending = Pending(key: Key, event: Event, text: string)

  /** `OBSERVER_CHUNK_MAX_TEXT_BYTES`. */
  const MAX_TEXT_BYTES := 60_000

  // ---- Reading and writing a chunk ----------------------------------------

  /** The key and text of a streamed chunk; `None` for every other event. */
  function ChunkOf(e: Event): Option<Chunk> {
    match GetPath(e.payload, ["params", "update"])
    case None => None
    case Some(update) =>
      var kind := AsString(Get(update, "sessionUpdate"));
      var text := AsString(GetPath(update, ["content", "text"]));
      if kind.None? || kind.value !in {"agent_message_chunk", "user_message_chunk", "agent_thought_chunk"}
         || text.None?
      then None
      else
        var id := AsString(Get(update, "messageId"));
        Some(Chunk(Key(kind.value, id, e.channelId, e.sessionId, e.turnId, e.agentIndex), text.value))
  }

  function WithMember(v: Value, key: string, x: Value): Value
    requires v.Object?
  {
    Object(v.members[key := x])
  }

  /** Replaces `params.update.content.text`, when `content` is an object. */
  function WithText(payload: Value, text: string): Value {
    match GetPath(payload, ["params", "update", "content"])
    case None => payload
    case Some(content) =>
      PathsUnfold(payload);
      if !content.Object? then payload
      else
        var params := Get(payload, "params").value;
        var update := Get(params, "update").value;
        WithMember(payload, "params",
          WithMember(params, "update",
            WithMember(update, "content",
              WithMember(content, "text", String(text)))))
  }

  lemma GetPathCons(v: Value, key: string, path: seq<string>)
    ensures GetPath(v, [key] + path) == if Get(v, key).None? then None else GetPath(Get(v, key).value, path)
  {
    assert ([key] + path)[1..] == path;
  }

  lemma PathsUnfold(v: Value)
    ensures GetPath(v, ["params", "update"]) ==
              if Get(v, "params").None? then None else Get(Get(v, "params").value, "update")
    ensures GetPath(v, ["content", "text"]) ==
              if Get(v, "content").None? then None else Get(Get(v, "content").value, "text")
    ensures GetPath(v, ["params", "update", "content"]) ==
              if GetPath(v, ["params", "update"]).None? then None
              else Get(GetPath(v, ["params", "update"]).value, "content")
  {
    GetPathCons(v, "params", ["update"]);
    GetPathCons(v, "content", ["text"]);
    GetPathCons(v, "params", ["update", "content"]);
    assert forall w: Value, k: string :: GetPath(w, [k]) == Get(w, k) by {
      forall w: Value, k: string
        ensures GetPath(w, [k]) == Get(w, k)
      {
        GetPathCons(w, k, []);
        assert [k] + [] == [k];
      }
    }
    if Get(v, "params").Some? {
      GetPathCons(Get(v, "params").value, "update", ["content"]);
    }
  }

  /** The update of a rewritten payload is the old one with a rewritten content. */
  lemma UpdateOfWithText(v: Value, text: string)
    requires GetPath(v, ["params", "update"]).Some?
    requires
      var content := Get(GetPath(v, ["params", "update"]).value, "content");
      content.Some? && content.value.Object?
    ensures
      var update := GetPath(v, ["params", "update"]).value;
      var content := Get(update, "content").value;
      GetPath(WithText(v, text), ["params", "update"])
      == Some(WithMember(update, "content", WithMember(content, "text", String(text))))
  {
    PathsUnfold(v);
    PathsUnfold(WithText(v, text));
  }

  /** Writing a chunk's text back leaves its key alone. */
  lemma ChunkOfWithText(e: Event, text: string)
    requires ChunkOf(e).Some?
    ensures ChunkOf(e.(payload := WithText(e.payload, text))) == Some(Chunk(ChunkOf(e).value.key, text))
  {
    var update := GetPath(e.payload, ["params", "update"]).value;
    PathsUnfold(update);
    UpdateOfWithText(e.payload, text);
    PathsUnfold(GetPath(WithText(e.payload, text), ["params", "update"]).value);
  }

  // ---- What makes a chunk, and which chunks go together --------------------

  /** The three update types whose text is coalesced. */
  predicate IsChunkType(v: Option<Value>) {
    || v == Some(String("agent_message_chunk"))
    || v == Some(String("user_message_chunk"))
    || v == Some(String("agent_thought_chunk"))
  }

  /** A look-up inside `params.update` is a look-up in the payload. */
  lemma InUpdate(payload: Value, path: seq<string>)
    ensures GetPath(payload, ["params", "update"] + path) ==
              if GetPath(payload, ["params", "update"]).None? then None
              else GetPath(GetPath(payload, ["params", "update"]).value, path)
  {
    PathsUnfold(payload);
    assert ["params", "update"] + path == ["params"] + (["update"] + path);
    GetPathCons(payload, "params", ["update"] + path);
    if Get(payload, "params").Some? {
      GetPathCons(Get(payload, "params").value, "update", path);
    }
  }

  lemma ChunkPaths(payload: Value)
    ensures
      var update := GetPath(payload, ["params", "update"]);
      && GetPath(payload, ["params", "update", "sessionUpdate"])
         == (if update.None? then None else Get(update.value, "sessionUpdate"))
      && GetPath(payload, ["params", "update", "messageId"])
         == (if update.None? then None else Get(update.value, "messageId"))
      && GetPath(payload, ["params", "update", "content", "text"])
         == (if update.None? then None else GetPath(update.value, ["content", "text"]))
  {
    InUpdate(payload, ["sessionUpdate"]);
    InUpdate(payload, ["messageId"]);
    InUpdate(payload, ["content", "text"]);
    assert ["params", "update"] + ["sessionUpdate"] == ["params", "update", "sessionUpdate"];
    assert ["params", "update"] + ["messageId"] == ["params", "update", "messageId"];
    assert ["params", "update"] + ["content", "text"] == ["params", "update", "content", "text"];
    var update := GetPath(payload, ["params", "update"]);
    if update.Some? {
      GetPathCons(update.value, "sessionUpdate", []);
      GetPathCons(update.value, "messageId", []);
      assert ["sessionUpdate"] + [] == ["sessionUpdate"] && ["messageId"] + [] == ["messageId"];
    }
  }

  /** An event is a chunk exactly when its payload has one of the three update
      types and a string for a text; the chunk carries that text. */
  lemma ChunkIff(e: Event)
    ensures
      var text := GetPath(e.payload, ["params", "update", "content", "text"]);
      && (ChunkOf(e).Some? <==>
            IsChunkType(GetPath(e.payload, ["params", "update", "sessionUpdate"])) && text.Some? && text.value.String?)
      && (ChunkOf(e).Some? ==> text == Some(String(ChunkOf(e).value.text)))
  {
    ChunkPaths(e.payload);
  }

  /** Same kind of text of the same message, turn and agent; told from the events alone. */
  predicate GoesWith(a: Event, b: Event) {
    && GetPath(a.payload, ["params", "update", "sessionUpdate"])
       == GetPath(b.payload, ["params", "update", "sessionUpdate"])
    && AsString(GetPath(a.payload, ["params", "update", "messageId"]))
       == AsString(GetPath(b.payload, ["params", "update", "messageId"]))
    && a.channelId == b.channelId && a.sessionId == b.sessionId
    && a.turnId == b.turnId && a.agentIndex == b.agentIndex
  }

  /** Two chunks go together exactly when update type, message id (absent unless
      a string), channel, session, turn and agent are the same. */
  lemma KeysAgreeIff(a: Event, b: Event)
    requires ChunkOf(a).Some? && ChunkOf(b).Some?
    ensures ChunkOf(a).value.key == ChunkOf(b).value.key <==> GoesWith(a, b)
  {
    ChunkPaths(a.payload);
    ChunkPaths(b.payload);
  }

  /** Along the path both are objects, with the same members but for the next step of the path. */
  ghost predicate SameBeside(v: Value, w: Value, path: seq<string>)
    decreases |path|
  {
    path != [] ==>
      && v.Object? && w.Object?
      && (forall key | key != path[0] :: Get(v, key) == Get(w, key))
      && (|path| > 1 ==>
            && Get(v, path[0]).Some? && Get(w, path[0]).Some?
            && SameBeside(Get(v, path[0]).value, Get(w, path[0]).value, path[1..]))
  }

  lemma {:induction false} OffThePath(v: Value, w: Value, path: seq<string>, other: seq<string>, k: nat)
    requires SameBeside(v, w, path) && k < |path| && k < |other|
    requires other[..k] == path[..k] && other[k] != path[k]
    ensures GetPath(v, other) == GetPath(w, other)
  {
    if k > 0 {
      assert other[0] == other[..k][0] == path[..k][0] == path[0];
      assert other[1..][..k - 1] == other[..k][1..] == path[..k][1..] == path[1..][..k - 1];
      OffThePath(Get(v, path[0]).value, Get(w, path[0]).value, path[1..], other[1..], k - 1);
    }
  }

  lemma WithTextBeside(payload: Value, text: string)
    requires GetPath(payload, ["params", "update", "content", "text"]).Some?
    ensures SameBeside(payload, WithText(payload, text), ["params", "update", "content", "text"])
  {
    PathsUnfold(payload);
    ChunkPaths(payload);
    var params := Get(payload, "params").value;
    var update := Get(params, "update").value;
    PathsUnfold(update);
    var content := Get(update, "content").value;
    var written := WithMember(content, "text", String(text));
    var update' := WithMember(update, "content", written);
    var params' := WithMember(params, "update", update');
    assert SameBeside(content, written, ["text"]);
    assert ["content", "text"][1..] == ["text"];
    assert SameBeside(update, update', ["content", "text"]);
    assert ["update", "content", "text"][1..] == ["content", "text"];
    assert SameBeside(params, params', ["update", "content", "text"]);
    assert ["params", "update", "content", "text"][1..] == ["update", "content", "text"];
  }

  /** Writing a chunk's text back changes nothing off the path to the text. */
  lemma OnlyTextIsWritten(payload: Value, text: string, other: seq<string>, k: nat)
    requires GetPath(payload, ["params", "update", "content", "text"]).Some?
    requires k < 4 && k < |other| && other[..k] == ["params", "update", "content", "text"][..k]
    requires other[k] != ["params", "update", "content", "text"][k]
    ensures GetPath(WithText(payload, text), other) == GetPath(payload, other)
  {
    WithTextBeside(payload, text);
    OffThePath(payload, WithText(payload, text), ["params", "update", "content", "text"], other, k);
  }

  // ---- The coalescer ------------------------------------------------------

  function Emitted(p: Pending): Event {
    p.event.(payload := WithText(p.event.payload, p.text))
  }

  function Drained(pending: seq<Pending>): (r: seq<Event>)
    ensures |r| == |pending|
    ensures forall i :: 0 <= i < |r| ==> r[i] == Emitted(pending[i])
  {
    if pending == [] then [] else Drained(pending[..|pending| - 1]) + [Emitted(pending[|pending| - 1])]
  }

  /** The position of the first pending entry with the key. */
  function Find(pending: seq<Pending>, key: Key): (r: Option<nat>)
    ensures r.Some? ==> r.value < |pending| && pending[r.value].key == key
    ensures r.Some? ==> forall i :: 0 <= i < r.value ==> pending[i].key != key
    ensures r.None? ==> forall i :: 0 <= i < |pending| ==> pending[i].key != key
  {
    if pending == [] then None
    else if pending[0].key == key then Some(0)
    else
      var r := Find(pending[1..], key);
      if r.None? then None else Some(r.value + 1)
  }

  function Merged(p: Pending, e: Event, text: string): Pending {
    p.(text := p.text + text, event := p.event.(seq_ := e.seq_, timestamp := e.timestamp))
  }

  /** The pending entries and the events released by ingesting `e`. */
  function Ingested(pending: seq<Pending>, e: Event): (seq<Pending>, seq<Event>) {
    match ChunkOf(e)
    case None => ([], Drained(pending) + [e])
    case Some(c) =>
      var entry := Pending(c.key, e, c.text);
      match Find(pending, c.key)
      case None => (pending + [entry], [])
      case Some(i) =>
        if ByteLen(pending[i].text) + ByteLen(c.text) >= MAX_TEXT_BYTES then ([entry], Drained(pending))
        else (pending[i := Merged(pending[i], e, c.text)], [])
  }

  class ObserverChunkCoalescer {
    var pending: seq<Pending>

    constructor ()
      ensures pending == []
    {
      pending := [];
    }

    method Ingest(event: Event) returns (events: seq<Event>)
      modifies this
      ensures (pending, events) == Ingested(old(pending), event)
    {
      var chunk := ChunkOf(event);
      if chunk.None? {
        events := Flush();
        events := events + [event];
        return;
      }
      var Chunk(key, text) := chunk.value;
      var i := 0;
      while i < |pending| && pending[i].key != key
        invariant 0 <= i <= |pending| && pending == old(pending)
        invariant forall j :: 0 <= j < i ==> pending[j].key != key
      {
        i := i + 1;
      }
      if i < |pending| {
        if ByteLen(pending[i].text) + ByteLen(text) >= MAX_TEXT_BYTES {
          events := Flush();
          pending := [Pending(key, event, text)];
          return;
        }
        pending := pending[i := Merged(pending[i], event, text)];
        return [];
      }
      pending := pending + [Pending(key, event, text)];
      events := [];
    }

    method Flush() returns (events: seq<Event>)
      modifies this
      ensures pending == [] && events == Drained(old(pending))
    {
      events := [];
      var i := 0;
      while i < |pending|
        invariant 0 <= i <= |pending| && pending == old(pending)
        invariant events == Drained(pending[..i])
      {
        assert pending[..i + 1][..i] == pending[..i];
        events := events + [Emitted(pending[i])];
        i := i + 1;
      }
      assert pending[..i] == pending;
      pending := [];
    }
  }

  // ---- The stream it forwards ---------------------------------------------

  type Item = ChunkStreams.Item<Key, Event>

  /** What an event contributes to a stream of text. */
  function ItemOf(e: Event): Item {
    match ChunkOf(e)
    case None => ChunkStreams.Barrier(e)
    case Some(c) => ChunkStreams.Piece(c.key, c.text, e.seq_, e.timestamp)
  }

  function Items(events: seq<Event>): (r: seq<Item>)
    ensures |r| == |events|
    ensures forall i :: 0 <= i < |r| ==> r[i] == ItemOf(events[i])
  {
    if events == [] then [] else Items(events[..|events| - 1]) + [ItemOf(events[|events| - 1])]
  }

  function PieceOf(p: Pending): Item {
    ChunkStreams.Piece(p.key, p.text, p.event.seq_, p.event.timestamp)
  }

  function Pieces(pending: seq<Pending>): (r: seq<Item>)
    ensures |r| == |pending|
    ensures forall i :: 0 <= i < |r| ==> r[i] == PieceOf(pending[i])
  {
    seq(|pending|, i requires 0 <= i < |pending| => PieceOf(pending[i]))
  }

  ghost predicate IsPending(p: Pending) {
    ChunkOf(p.event).Some? && ChunkOf(p.event).value.key == p.key
  }

  /** Distinct keys, each entry a chunk of its own key. */
  ghost predicate WellFormed(pending: seq<Pending>) {
    && (forall i :: 0 <= i < |pending| ==> IsPending(pending[i]))
    && (forall i, j :: 0 <= i < j < |pending| ==> pending[i].key != pending[j].key)
  }

  lemma EmittedItem(p: Pending)
    requires IsPending(p)
    ensures ItemOf(Emitted(p)) == PieceOf(p)
  {
    ChunkOfWithText(p.event, p.text);
  }

  lemma DrainedItems(pending: seq<Pending>)
    requires WellFormed(pending)
    ensures Items(Drained(pending)) == Pieces(pending)
  {
    forall i | 0 <= i < |pending|
      ensures ItemOf(Drained(pending)[i]) == PieceOf(pending[i])
    {
      EmittedItem(pending[i]);
    }
  }

  lemma ItemsConcat(a: seq<Event>, b: seq<Event>)
    ensures Items(a + b) == Items(a) + Items(b)
  {
  }

  lemma FindPieces(pending: seq<Pending>, key: Key)
    ensures ChunkStreams.Find(Pieces(pending), key) == Find(pending, key)
  {
  }

  lemma MergedItem(p: Pending, e: Event, text: string)
    requires IsPending(p) && ChunkOf(e) == Some(Chunk(p.key, text))
    ensures IsPending(Merged(p, e, text))
    ensures PieceOf(Merged(p, e, text)) == ChunkStreams.Merge(PieceOf(p), ItemOf(e))
  {
  }

  lemma IngestedBarrier(pending: seq<Pending>, e: Event)
    requires WellFormed(pending) && ChunkOf(e).None?
    ensures Items(Drained(pending) + [e]) == Pieces(pending) + [ItemOf(e)]
  {
    DrainedItems(pending);
    ItemsConcat(Drained(pending), [e]);
    assert Items([e]) == [ItemOf(e)];
  }

  lemma IngestedMerge(pending: seq<Pending>, i: nat, e: Event, text: string)
    requires WellFormed(pending) && i < |pending| && ChunkOf(e) == Some(Chunk(pending[i].key, text))
    ensures WellFormed(pending[i := Merged(pending[i], e, text)])
    ensures Pieces(pending[i := Merged(pending[i], e, text)])
         == Pieces(pending)[i := ChunkStreams.Merge(Pieces(pending)[i], ItemOf(e))]
  {
    MergedItem(pending[i], e, text);
  }

  lemma IngestedNew(pending: seq<Pending>, e: Event, c: Chunk)
    requires WellFormed(pending) && ChunkOf(e) == Some(c) && Find(pending, c.key).None?
    ensures WellFormed(pending + [Pending(c.key, e, c.text)])
    ensures Pieces(pending + [Pending(c.key, e, c.text)]) == Pieces(pending) + [ItemOf(e)]
  {
  }

  lemma IngestedFound(pending: seq<Pending>, i: nat, e: Event, c: Chunk)
    requires WellFormed(pending) && ChunkOf(e) == Some(c) && Find(pending, c.key) == Some(i)
    requires ChunkStreams.DistinctPieces(Pieces(pending)) && ChunkStreams.Find(Pieces(pending), c.key) == Some(i)
    requires Items(Drained(pending)) == Pieces(pending)
    ensures WellFormed(Ingested(pending, e).0)
    ensures ChunkStreams.Ingested(Pieces(pending), ItemOf(e), MAX_TEXT_BYTES)
         == (Pieces(Ingested(pending, e).0), Items(Ingested(pending, e).1))
  {
    var entry := Pending(c.key, e, c.text);
    assert ItemOf(e) == PieceOf(entry);
    if ByteLen(pending[i].text) + ByteLen(c.text) >= MAX_TEXT_BYTES {
      assert Ingested(pending, e) == ([entry], Drained(pending));
      assert Pieces([entry]) == [ItemOf(e)];
    } else {
      IngestedMerge(pending, i, e, c.text);
      assert Ingested(pending, e) == (pending[i := Merged(pending[i], e, c.text)], []);
    }
  }

  /** Ingesting an event is ingesting its item. */
  lemma IngestedItems(pending: seq<Pending>, e: Event)
    requires WellFormed(pending)
    ensures WellFormed(Ingested(pending, e).0)
    ensures ChunkStreams.DistinctPieces(Pieces(pending))
    ensures ChunkStreams.Ingested(Pieces(pending), ItemOf(e), MAX_TEXT_BYTES)
         == (Pieces(Ingested(pending, e).0), Items(Ingested(pending, e).1))
  {
    match ChunkOf(e)
    case None => IngestedBarrier(pending, e);
    case Some(c) =>
      DrainedItems(pending);
      FindPieces(pending, c.key);
      match Find(pending, c.key)
      case None => IngestedNew(pending, e, c);
      case Some(i) => IngestedFound(pending, i, e, c);
  }

  // ---- Chunks are merged --------------------------------------------------

  /** A chunk that goes with a pending one, the joined text short of the limit, is
      held back: the text grows by its text, the stamp becomes its stamp, and
      nothing else changes. */
  lemma ChunkIsMerged(pending: seq<Pending>, e: Event, i: nat)
    requires WellFormed(pending) && ChunkOf(e).Some? && i < |pending| && GoesWith(pending[i].event, e)
    requires ByteLen(pending[i].text + ChunkOf(e).value.text) < 60_000
    ensures
      var (after, released) := Ingested(pending, e);
      && released == [] && |after| == |pending|
      && after[i].text == pending[i].text + ChunkOf(e).value.text
      && after[i].event.seq_ == e.seq_ && after[i].event.timestamp == e.timestamp
      && after[i].event.payload == pending[i].event.payload && GoesWith(after[i].event, e)
      && (forall j | 0 <= j < |pending| && j != i :: after[j] == pending[j])
  {
    KeysAgreeIff(pending[i].event, e);
    assert pending[i].key == ChunkOf(e).value.key;
    ByteLenConcat(pending[i].text, ChunkOf(e).value.text);
  }

  /** A chunk that goes with no pending one is held back behind them. */
  lemma ChunkIsHeld(pending: seq<Pending>, e: Event)
    requires WellFormed(pending) && ChunkOf(e).Some?
    requires forall i | 0 <= i < |pending| :: !GoesWith(pending[i].event, e)
    ensures
      var (after, released) := Ingested(pending, e);
      && released == [] && |after| == |pending| + 1 && after[..|pending|] == pending
      && after[|pending|].event == e && after[|pending|].text == ChunkOf(e).value.text
  {
    forall i | 0 <= i < |pending| ensures pending[i].key != ChunkOf(e).value.key {
      KeysAgreeIff(pending[i].event, e);
    }
  }

  /** The pending texts leave in order, each in the place of its event's text. */
  ghost predicate AllReleased(pending: seq<Pending>, released: seq<Event>) {
    && |released| == |pending|
    && forall i {:trigger released[i]} | 0 <= i < |pending| ::
         && GoesWith(released[i], pending[i].event)
         && GetPath(released[i].payload, ["params", "update", "content", "text"]) == Some(String(pending[i].text))
         && released[i] == pending[i].event.(payload := released[i].payload)
  }

  lemma DrainedReleases(pending: seq<Pending>)
    requires WellFormed(pending)
    ensures AllReleased(pending, Drained(pending))
  {
    var released := Drained(pending);
    forall i | 0 <= i < |pending|
      ensures && GoesWith(released[i], pending[i].event)
              && GetPath(released[i].payload, ["params", "update", "content", "text"]) == Some(String(pending[i].text))
              && released[i] == pending[i].event.(payload := released[i].payload)
    {
      assert IsPending(pending[i]);
      ChunkOfWithText(pending[i].event, pending[i].text);
      KeysAgreeIff(released[i], pending[i].event);
      ChunkIff(released[i]);
    }
  }

  /** When anything is released: before an event that is no chunk, all of it and
      then the event; and when a text would reach the limit, all of it, with the
      chunk held back alone. */
  lemma BarrierReleasesAll(pending: seq<Pending>, e: Event)
    requires WellFormed(pending) && ChunkOf(e).None?
    ensures
      var (after, released) := Ingested(pending, e);
      after == [] && released != [] && released[|pending|..] == [e] && AllReleased(pending, released[..|pending|])
  {
    DrainedReleases(pending);
    assert Ingested(pending, e).1[..|pending|] == Drained(pending);
  }

  lemma FullTextReleasesAll(pending: seq<Pending>, e: Event, i: nat)
    requires WellFormed(pending) && ChunkOf(e).Some? && i < |pending| && GoesWith(pending[i].event, e)
    requires ByteLen(pending[i].text + ChunkOf(e).value.text) >= 60_000
    ensures
      var (after, released) := Ingested(pending, e);
      && AllReleased(pending, released)
      && |after| == 1 && after[0].event == e && after[0].text == ChunkOf(e).value.text
  {
    KeysAgreeIff(pending[i].event, e);
    assert pending[i].key == ChunkOf(e).value.key;
    ByteLenConcat(pending[i].text, ChunkOf(e).value.text);
    DrainedReleases(pending);
  }

  // ---- Whole runs ---------------------------------------------------------

  datatype Action = Ingest(event: Event) | Flush

  /** The state after a run: what is pending and everything released so far. */
  datatype State = State(pending: seq<Pending>, out: seq<Event>)

  function Step(s: State, a: Action): State {
    match a
    case Flush => State([], s.out + Drained(s.pending))
    case Ingest(e) =>
      var (pending, events) := Ingested(s.pending, e);
      State(pending, s.out + events)
  }

  function Run(actions: seq<Action>): State {
    if actions == [] then State([], [])
    else Step(Run(actions[..|actions| - 1]), actions[|actions| - 1])
  }

  function Inputs(actions: seq<Action>): seq<Event> {
    if actions == [] then []
    else
      var n := |actions| - 1;
      Inputs(actions[..n]) + (if actions[n].Ingest? then [actions[n].event] else [])
  }

  /** Everything a state has released or still holds. */
  function Total(s: State): seq<Event> {
    s.out + Drained(s.pending)
  }

  /** Same barriers, and the same text and last stamp per key between them. */
  ghost predicate SaySame(a: seq<Event>, b: seq<Event>) {
    ChunkStreams.SameStream(Items(a), Items(b))
  }

  lemma ForwardingKeepsStream(
    s: State, e: Event, next: seq<Pending>, released: seq<Event>, inputs: seq<Event>)
    requires WellFormed(s.pending) && WellFormed(next) && SaySame(Total(s), inputs)
    requires ChunkStreams.DistinctPieces(Pieces(s.pending))
    requires ChunkStreams.Ingested(Pieces(s.pending), ItemOf(e), MAX_TEXT_BYTES) == (Pieces(next), Items(released))
    ensures SaySame(s.out + released + Drained(next), inputs + [e])
  {
    DrainedItems(s.pending);
    DrainedItems(next);
    ItemsConcat(s.out, Drained(s.pending));
    ItemsConcat(s.out, released);
    ItemsConcat(s.out + released, Drained(next));
    ItemsConcat(inputs, [e]);
    assert Items([e]) == [ItemOf(e)];
    ChunkStreams.IngestKeepsStream(Items(s.out), Pieces(s.pending), ItemOf(e), MAX_TEXT_BYTES, Items(inputs));
  }

  lemma StepKeepsStream(s: State, a: Action, inputs: seq<Event>)
    requires WellFormed(s.pending) && SaySame(Total(s), inputs)
    ensures WellFormed(Step(s, a).pending)
    ensures SaySame(Total(Step(s, a)), inputs + (if a.Ingest? then [a.event] else []))
  {
    match a
    case Flush =>
      assert Total(Step(s, a)) == Total(s);
      assert inputs + [] == inputs;
    case Ingest(e) =>
      IngestedItems(s.pending, e);
      ForwardingKeepsStream(s, e, Ingested(s.pending, e).0, Ingested(s.pending, e).1, inputs);
  }

  /** For any ingests and timer flushes, what was released and what is pending
      together say exactly what was ingested. */
  lemma {:induction false} NothingLostOrCrossed(actions: seq<Action>)
    ensures WellFormed(Run(actions).pending)
    ensures SaySame(Total(Run(actions)), Inputs(actions))
  {
    if actions != [] {
      var n := |actions| - 1;
      NothingLostOrCrossed(actions[..n]);
      StepKeepsStream(Run(actions[..n]), actions[n], Inputs(actions[..n]));
    }
  }

  /** Where the timer flushes fall makes no difference to what is said. */
  lemma FlushTimesDoNotMatter(a: seq<Action>, b: seq<Action>)
    requires Inputs(a) == Inputs(b)
    ensures SaySame(Total(Run(a)), Total(Run(b)))
  {
    NothingLostOrCrossed(a);
    NothingLostOrCrossed(b);
  }

  // ---- Size ---------------------------------------------------------------

  ghost predicate IsInputChunk(inputs: seq<Event>, c: Chunk) {
    exists j :: 0 <= j < |inputs| && ChunkOf(inputs[j]) == Some(c)
  }

  /** Short of the limit, or a single chunk as it came in. */
  ghost predicate Bounded(c: Chunk, inputs: seq<Event>) {
    ByteLen(c.text) < MAX_TEXT_BYTES || IsInputChunk(inputs, c)
  }

  lemma BoundedSnoc(c: Chunk, inputs: seq<Event>, e: Event)
    requires Bounded(c, inputs)
    ensures Bounded(c, inputs + [e])
  {
    if IsInputChunk(inputs, c) {
      var j :| 0 <= j < |inputs| && ChunkOf(inputs[j]) == Some(c);
      assert (inputs + [e])[j] == inputs[j];
    }
  }

  lemma NewIsBounded(inputs: seq<Event>, e: Event)
    requires ChunkOf(e).Some?
    ensures Bounded(ChunkOf(e).value, inputs + [e])
  {
    assert (inputs + [e])[|inputs|] == e;
  }

  /** Every entry ever pending is short of 60,000 bytes or is one chunk. */
  lemma {:induction false} PendingIsBounded(actions: seq<Action>)
    ensures forall i :: 0 <= i < |Run(actions).pending| ==>
              Bounded(Chunk(Run(actions).pending[i].key, Run(actions).pending[i].text), Inputs(actions))
  {
    if actions != [] {
      var n := |actions| - 1;
      var s, a, before := Run(actions[..n]), actions[n], Inputs(actions[..n]);
      PendingIsBounded(actions[..n]);
      if a.Ingest? && ChunkOf(a.event).Some? {
        var c := ChunkOf(a.event).value;
        NewIsBounded(before, a.event);
        forall i | 0 <= i < |s.pending|
          ensures Bounded(Chunk(s.pending[i].key, s.pending[i].text), before + [a.event])
        {
          BoundedSnoc(Chunk(s.pending[i].key, s.pending[i].text), before, a.event);
        }
        if Find(s.pending, c.key).Some? {
          ByteLenConcat(s.pending[Find(s.pending, c.key).value].text, c.text);
        }
      }
    }
  }
}
