/** The wire form of a telemetry frame (crates/buzz-acp/src/observer.rs:56-79),
    text by text. */
module FrameText {
  import opened Options
  import opened Decimal
  import opened Payloads
  import opened Trimmer

  /** One member of an object that goes on, and the last one. */
  function Then(name: string, text: string, rest: string): string {
    "\"" + name + "\":" + text + "," + rest
  }

  function Last(name: string, text: string): string {
    "\"" + name + "\":" + text
  }

  /** Members `k` and on, and what ends the object. */
  function Members(names: seq<string>, texts: seq<string>, k: nat, ending: string): string
    requires k <= |names| == |texts|
    decreases |names| - k
  {
    if k == |names| then ending else Then(names[k], texts[k], Members(names, texts, k + 1, ending))
  }

  function OrNull(o: Option<string>): string {
    match o
    case None => "null"
    case Some(s) => Quote(s)
  }

  function Ending(e: Event): string {
    var payload := Last("payload", Serialize(e.payload));
    if e.startedAt.Some? then Then("startedAt", Quote(e.startedAt.value), payload) else payload
  }

  const NAMES := ["seq", "timestamp", "kind", "agentIndex", "channelId", "sessionId", "turnId"]

  // ---- One member ---------------------------------------------------------

  lemma {:induction false} PlainStays(s: string)
    requires Plain(s)
    ensures EscapeAll(s) == s
  {
    if s != "" {
      PlainStays(s[1..]);
      assert s == [s[0]] + s[1..];
    }
  }

  lemma NameColon(name: string)
    ensures ("\"" + name + "\"") + ":" == "\"" + name + "\":"
  {
  }

  lemma ConsText(name: string, v: Payload, items: seq<Payload>, keys: seq<string>)
    ensures
      SerializeItems([v] + items, [name] + keys)
      == (Quote(name) + ":") + Serialize(v) + (if items == [] then "" else ",") + SerializeItems(items, keys)
  {
    assert ([v] + items)[1..] == items && ([name] + keys)[1..] == keys;
  }

  lemma MemberText(name: string, v: Payload, items: seq<Payload>, keys: seq<string>)
    requires Plain(name)
    ensures
      SerializeItems([v] + items, [name] + keys)
      == if items == [] then Last(name, Serialize(v)) else Then(name, Serialize(v), SerializeItems(items, keys))
  {
    PlainStays(name);
    NameColon(name);
    ConsText(name, v, items, keys);
  }

  lemma FieldText(items: seq<Payload>, keys: seq<string>, k: nat)
    requires |keys| == |items| && k + 1 < |items| && Plain(keys[k])
    ensures SerializeItems(items[k..], keys[k..])
            == Then(keys[k], Serialize(items[k]), SerializeItems(items[k + 1..], keys[k + 1..]))
  {
    assert items[k..] == [items[k]] + items[k + 1..] && keys[k..] == [keys[k]] + keys[k + 1..];
    MemberText(keys[k], items[k], items[k + 1..], keys[k + 1..]);
  }

  // ---- The whole frame ----------------------------------------------------

  function Texts(e: Event): (texts: seq<string>)
    ensures |texts| == 7
  {
    [Print(e.seq_), Quote(e.timestamp), Quote(e.kind),
     if e.agentIndex.Some? then Print(e.agentIndex.value) else "null",
     OrNull(e.channelId), OrNull(e.sessionId), OrNull(e.turnId)]
  }

  ghost predicate AreMembers(items: seq<Payload>, keys: seq<string>, names: seq<string>, texts: seq<string>) {
    && |names| == |texts| < |items| == |keys|
    && forall i {:trigger names[i]} | 0 <= i < |names| ::
         keys[i] == names[i] && Plain(names[i]) && Serialize(items[i]) == texts[i]
  }

  lemma {:induction false} MembersText(
      items: seq<Payload>, keys: seq<string>, names: seq<string>, texts: seq<string>, k: nat)
    requires AreMembers(items, keys, names, texts) && k <= |names|
    ensures SerializeItems(items[k..], keys[k..])
            == Members(names, texts, k, SerializeItems(items[|names|..], keys[|names|..]))
    decreases |names| - k
  {
    if k < |names| {
      MembersText(items, keys, names, texts, k + 1);
      assert names[k] == keys[k];
      FieldText(items, keys, k);
    }
  }

  lemma NamesArePlain()
    ensures forall i {:trigger NAMES[i]} | 0 <= i < 7 :: Plain(NAMES[i])
  {
    assert Plain("seq") && Plain("timestamp") && Plain("kind") && Plain("agentIndex");
    assert Plain("channelId") && Plain("sessionId") && Plain("turnId");
  }

  lemma FrameTexts(e: Event)
    ensures
      var items, texts := Frame(e).items, Texts(e);
      && |items| >= 8
      && Serialize(items[0]) == texts[0] && Serialize(items[1]) == texts[1] && Serialize(items[2]) == texts[2]
      && Serialize(items[3]) == texts[3] && Serialize(items[4]) == texts[4] && Serialize(items[5]) == texts[5]
      && Serialize(items[6]) == texts[6]
  {
  }

  lemma FrameKeys(e: Event)
    ensures
      var items, keys := Frame(e).items, Frame(e).keys;
      && |items| == |keys| == (if e.startedAt.Some? then 9 else 8) && keys[..7] == NAMES
      && keys[|keys| - 1] == "payload" && items[|items| - 1] == e.payload
      && (e.startedAt.Some? ==> keys[7] == "startedAt" && items[7] == Text(e.startedAt.value))
  {
  }

  lemma SevenMembers(items: seq<Payload>, keys: seq<string>, texts: seq<string>)
    requires |items| == |keys| >= 8 && keys[..7] == NAMES && |texts| == 7
    requires
      && Serialize(items[0]) == texts[0] && Serialize(items[1]) == texts[1] && Serialize(items[2]) == texts[2]
      && Serialize(items[3]) == texts[3] && Serialize(items[4]) == texts[4] && Serialize(items[5]) == texts[5]
      && Serialize(items[6]) == texts[6]
    ensures AreMembers(items, keys, NAMES, texts)
  {
    NamesArePlain();
    forall i | 0 <= i < 7 ensures keys[i] == NAMES[i] && Serialize(items[i]) == texts[i] {
      assert keys[i] == keys[..7][i];
    }
  }

  lemma FrameFields(e: Event)
    ensures AreMembers(Frame(e).items, Frame(e).keys, NAMES, Texts(e))
  {
    FrameTexts(e);
    FrameKeys(e);
    SevenMembers(Frame(e).items, Frame(e).keys, Texts(e));
  }

  lemma LastText(items: seq<Payload>, keys: seq<string>)
    requires |keys| == |items| > 0 && keys[|keys| - 1] == "payload"
    ensures SerializeItems(items[|items| - 1..], keys[|keys| - 1..]) == Last("payload", Serialize(items[|items| - 1]))
  {
    var v := items[|items| - 1];
    assert items[|items| - 1..] == [v] + [] && keys[|keys| - 1..] == ["payload"] + [];
    MemberText("payload", v, [], []);
  }

  lemma EndingText(e: Event)
    ensures SerializeItems(Frame(e).items[7..], Frame(e).keys[7..]) == Ending(e)
  {
    FrameKeys(e);
    EndingOf(e, Frame(e).items, Frame(e).keys);
  }

  lemma EndingOf(e: Event, items: seq<Payload>, keys: seq<string>)
    requires |items| == |keys| == (if e.startedAt.Some? then 9 else 8)
    requires keys[|keys| - 1] == "payload" && items[|items| - 1] == e.payload
    requires e.startedAt.Some? ==> keys[7] == "startedAt" && items[7] == Text(e.startedAt.value)
    ensures SerializeItems(items[7..], keys[7..]) == Ending(e)
  {
    LastText(items, keys);
    if e.startedAt.Some? {
      FieldText(items, keys, 7);
    }
  }

  /** A frame goes out as one object with every field of the event, in declaration
      order under its camel-case name, `startedAt` only when present. */
  lemma WireForm(e: Event)
    ensures Serialize(Frame(e)) == "{" + Members(NAMES, Texts(e), 0, Ending(e)) + "}"
  {
    var items, keys := Frame(e).items, Frame(e).keys;
    FrameFields(e);
    EndingText(e);
    MembersText(items, keys, NAMES, Texts(e), 0);
    assert items[0..] == items && keys[0..] == keys;
  }
}
