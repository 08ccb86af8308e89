/** JSON payloads in serialization order, and their serialized length as
    `serde_json` writes it (RFC 8259, section 7 for strings). */
module Payloads {
  import opened Utf8
  import opened Decimal

  datatype Payload =
    | Text(s: string)
    | Atom(json: string)  // null, true, false or a number, already in JSON form
    | Array(items: seq<Payload>)
    | Object(items: seq<Payload>, keys: seq<string>)  // keys[i] names items[i]

  // ---- Serialization ------------------------------------------------------

  function Escape(c: char): string {
    if c == '"' then "\\\""
    else if c == '\\' then "\\\\"
    else if c as int == 0x08 then "\\b"
    else if c as int == 0x09 then "\\t"
    else if c as int == 0x0A then "\\n"
    else if c as int == 0x0C then "\\f"
    else if c as int == 0x0D then "\\r"
    else if c as int < 0x20 then "\\u00" + [HexDigit(c as int / 16), HexDigit(c as int % 16)]
    else [c]
  }

  function EscapeAll(s: string): string {
    if s == "" then "" else Escape(s[0]) + EscapeAll(s[1..])
  }

  function Quote(s: string): string {
    "\"" + EscapeAll(s) + "\""
  }

  function Serialize(v: Payload): string
    decreases v, 1
  {
    match v
    case Text(s) => Quote(s)
    case Atom(json) => json
    case Array(items) => "[" + SerializeItems(items, []) + "]"
    case Object(items, keys) => "{" + SerializeItems(items, keys) + "}"
  }

  function SerializeItems(items: seq<Payload>, keys: seq<string>): string
    decreases items, 0
  {
    if items == [] then ""
    else
      (if keys == [] then "" else Quote(keys[0]) + ":")
      + Serialize(items[0])
      + (if |items| == 1 then "" else ",")
      + SerializeItems(items[1..], if keys == [] then [] else keys[1..])
  }

  /** `serde_json::to_string(v).len()`. */
  function SerializedLen(v: Payload): nat {
    ByteLen(Serialize(v))
  }

  // ---- The same length, added up ------------------------------------------

  function EscapedCharLen(c: char): (n: nat)
    ensures CharLen(c) <= n
  {
    if c == '"' || c == '\\' then 2
    else if c as int == 0x08 || c as int == 0x09 || c as int == 0x0A || c as int == 0x0C || c as int == 0x0D then 2
    else if c as int < 0x20 then 6
    else CharLen(c)
  }

  function EscapedLen(s: string): nat {
    if s == "" then 0 else EscapedCharLen(s[0]) + EscapedLen(s[1..])
  }

  function Size(v: Payload): nat
    decreases v, 1
  {
    match v
    case Text(s) => 2 + EscapedLen(s)
    case Atom(json) => ByteLen(json)
    case Array(items) => 2 + ItemsSize(items, [])
    case Object(items, keys) => 2 + ItemsSize(items, keys)
  }

  function ItemsSize(items: seq<Payload>, keys: seq<string>): nat
    decreases items, 0
  {
    if items == [] then 0
    else
      (if keys == [] then 0 else 3 + EscapedLen(keys[0]))
      + Size(items[0])
      + (if |items| == 1 then 0 else 1)
      + ItemsSize(items[1..], if keys == [] then [] else keys[1..])
  }

  lemma EscapeCharLen(c: char)
    ensures ByteLen(Escape(c)) == EscapedCharLen(c)
  {
    if EscapedCharLen(c) == 2 && CharLen(c) == 1 {
      AsciiLen(Escape(c));
    } else if c as int < 0x20 {
      AsciiLen("\\u00");
      AsciiLen([HexDigit(c as int / 16), HexDigit(c as int % 16)]);
      ByteLenConcat("\\u00", [HexDigit(c as int / 16), HexDigit(c as int % 16)]);
    } else {
      SingletonLen(c);
    }
  }

  lemma {:induction false} EscapeAllLen(s: string)
    ensures ByteLen(EscapeAll(s)) == EscapedLen(s)
  {
    if s != "" {
      EscapeAllLen(s[1..]);
      EscapeCharLen(s[0]);
      ByteLenConcat(Escape(s[0]), EscapeAll(s[1..]));
    }
  }

  lemma QuoteLen(s: string)
    ensures ByteLen(Quote(s)) == 2 + EscapedLen(s)
  {
    EscapeAllLen(s);
    SingletonLen('"');
    ByteLenConcat("\"", EscapeAll(s));
    ByteLenConcat("\"" + EscapeAll(s), "\"");
  }

  /** `Size` is the serialized length. */
  lemma {:induction false} SizeIsSerializedLen(v: Payload)
    ensures SerializedLen(v) == Size(v)
    decreases v, 1
  {
    match v
    case Text(s) => QuoteLen(s);
    case Atom(_) =>
    case Array(items) =>
      ItemsSizeIsSerializedLen(items, []);
      BracketsLen("[", SerializeItems(items, []), "]");
    case Object(items, keys) =>
      ItemsSizeIsSerializedLen(items, keys);
      BracketsLen("{", SerializeItems(items, keys), "}");
  }

  lemma BracketsLen(open: string, body: string, close: string)
    requires open in {"[", "{"} && close in {"]", "}"}
    ensures ByteLen(open + body + close) == 2 + ByteLen(body)
  {
    AsciiLen(open);
    AsciiLen(close);
    ByteLenConcat(open, body);
    ByteLenConcat(open + body, close);
  }

  lemma {:induction false} ItemsSizeIsSerializedLen(items: seq<Payload>, keys: seq<string>)
    ensures ByteLen(SerializeItems(items, keys)) == ItemsSize(items, keys)
    decreases items, 0
  {
    if items != [] {
      var prefix := if keys == [] then "" else Quote(keys[0]) + ":";
      var comma := if |items| == 1 then "" else ",";
      var rest := SerializeItems(items[1..], if keys == [] then [] else keys[1..]);
      SizeIsSerializedLen(items[0]);
      ItemsSizeIsSerializedLen(items[1..], if keys == [] then [] else keys[1..]);
      if keys != [] {
        QuoteLen(keys[0]);
        SingletonLen(':');
        ByteLenConcat(Quote(keys[0]), ":");
      }
      SingletonLen(',');
      ByteLenConcat(prefix, Serialize(items[0]));
      ByteLenConcat(prefix + Serialize(items[0]), comma);
      ByteLenConcat(prefix + Serialize(items[0]) + comma, rest);
    }
  }

  /** Escaping distributes over concatenation. */
  lemma {:induction false} EscapedLenConcat(a: string, b: string)
    ensures EscapedLen(a + b) == EscapedLen(a) + EscapedLen(b)
  {
    if a == "" {
      assert a + b == b;
    } else {
      EscapedLenConcat(a[1..], b);
      assert (a + b)[1..] == a[1..] + b;
    }
  }

  /** Escaping never shortens. */
  lemma {:induction false} EscapingNeverShortens(s: string)
    ensures ByteLen(s) <= EscapedLen(s)
  {
    if s != "" {
      EscapingNeverShortens(s[1..]);
    }
  }

  /** A string without quotes, backslashes and controls is written as it is. */
  lemma {:induction false} PlainIsUnescaped(s: string)
    requires forall i :: 0 <= i < |s| ==> s[i] as int >= 0x20 && s[i] != '"' && s[i] != '\\'
    ensures EscapedLen(s) == ByteLen(s)
  {
    if s != "" {
      PlainIsUnescaped(s[1..]);
    }
  }

  // ---- Leaves by path -----------------------------------------------------

  /** Child indices from the root. */
  type Path = seq<nat>

  predicate HasLeaf(v: Payload, p: Path) {
    if p == [] then v.Text?
    else (v.Array? || v.Object?) && p[0] < |v.items| && HasLeaf(v.items[p[0]], p[1..])
  }

  function LeafAt(v: Payload, p: Path): string
    requires HasLeaf(v, p)
  {
    if p == [] then v.s else LeafAt(v.items[p[0]], p[1..])
  }

  function SetLeaf(v: Payload, p: Path, s: string): Payload
    requires HasLeaf(v, p)
  {
    if p == [] then Text(s)
    else v.(items := v.items[p[0] := SetLeaf(v.items[p[0]], p[1..], s)])
  }

  /** Writing one leaf leaves every other one alone. */
  lemma {:induction false} SetLeafAt(v: Payload, p: Path, s: string, q: Path)
    requires HasLeaf(v, p)
    ensures HasLeaf(SetLeaf(v, p, s), q) <==> HasLeaf(v, q)
    ensures HasLeaf(v, q) ==> LeafAt(SetLeaf(v, p, s), q) == if p == q then s else LeafAt(v, q)
  {
    if p != [] && q != [] && p[0] == q[0] {
      SetLeafAt(v.items[p[0]], p[1..], s, q[1..]);
      assert p == q <==> p[1..] == q[1..] by {
        assert p == [p[0]] + p[1..] && q == [q[0]] + q[1..];
      }
    }
  }

  /** Everything about a payload except the contents of its string leaves. */
  function Skeleton(v: Payload): Payload
    decreases v, 1
  {
    match v
    case Text(_) => Text("")
    case Atom(_) => v
    case Array(items) => Array(Skeletons(items))
    case Object(items, keys) => Object(Skeletons(items), keys)
  }

  function Skeletons(items: seq<Payload>): (r: seq<Payload>)
    ensures |r| == |items|
    decreases items, 0
  {
    if items == [] then [] else [Skeleton(items[0])] + Skeletons(items[1..])
  }

  lemma {:induction false} SkeletonsUpdate(items: seq<Payload>, i: nat, x: Payload)
    requires i < |items| && Skeleton(x) == Skeleton(items[i])
    ensures Skeletons(items[i := x]) == Skeletons(items)
  {
    if i == 0 {
      assert items[i := x][1..] == items[1..];
    } else {
      SkeletonsUpdate(items[1..], i - 1, x);
      assert items[i := x][1..] == items[1..][i - 1 := x];
    }
  }

  lemma {:induction false} SetLeafKeepsSkeleton(v: Payload, p: Path, s: string)
    requires HasLeaf(v, p)
    ensures Skeleton(SetLeaf(v, p, s)) == Skeleton(v)
  {
    if p != [] {
      SetLeafKeepsSkeleton(v.items[p[0]], p[1..], s);
      SkeletonsUpdate(v.items, p[0], SetLeaf(v.items[p[0]], p[1..], s));
    }
  }

  lemma {:induction false} ItemsSizeUpdate(items: seq<Payload>, keys: seq<string>, i: nat, x: Payload)
    requires i < |items|
    ensures ItemsSize(items[i := x], keys) - ItemsSize(items, keys) == Size(x) - Size(items[i])
  {
    var ks := if keys == [] then [] else keys[1..];
    if i == 0 {
      assert items[i := x][1..] == items[1..];
    } else {
      ItemsSizeUpdate(items[1..], ks, i - 1, x);
      assert items[i := x][1..] == items[1..][i - 1 := x];
    }
  }

  /** Writing one leaf changes the serialized length by the change in that leaf. */
  lemma {:induction false} SetLeafSize(v: Payload, p: Path, s: string)
    requires HasLeaf(v, p)
    ensures Size(SetLeaf(v, p, s)) - Size(v) == EscapedLen(s) - EscapedLen(LeafAt(v, p))
  {
    if p != [] {
      var x := SetLeaf(v.items[p[0]], p[1..], s);
      SetLeafSize(v.items[p[0]], p[1..], s);
      ItemsSizeUpdate(v.items, if v.Array? then [] else v.keys, p[0], x);
    }
  }

  // ---- Rewriting several leaves in turn -----------------------------------

  function MapLeaf(v: Payload, p: Path, f: string -> string): Payload
    requires HasLeaf(v, p)
  {
    SetLeaf(v, p, f(LeafAt(v, p)))
  }

  predicate HasLeaves(v: Payload, paths: seq<Path>) {
    forall i :: 0 <= i < |paths| ==> HasLeaf(v, paths[i])
  }

  lemma MapLeafKeepsLeaves(v: Payload, p: Path, f: string -> string, paths: seq<Path>)
    requires HasLeaf(v, p) && HasLeaves(v, paths)
    ensures HasLeaves(MapLeaf(v, p, f), paths)
  {
    forall i | 0 <= i < |paths|
      ensures HasLeaf(MapLeaf(v, p, f), paths[i])
    {
      SetLeafAt(v, p, f(LeafAt(v, p)), paths[i]);
    }
  }

  function MapLeaves(v: Payload, paths: seq<Path>, f: string -> string): Payload
    requires HasLeaves(v, paths)
    decreases |paths|
  {
    if paths == [] then v
    else
      MapLeafKeepsLeaves(v, paths[0], f, paths[1..]);
      MapLeaves(MapLeaf(v, paths[0], f), paths[1..], f)
  }

  /** `f` applied `n` times. */
  function Repeat(f: string -> string, s: string, n: nat): string
    decreases n
  {
    if n == 0 then s else Repeat(f, f(s), n - 1)
  }

  /** How often `paths` lists the leaf at `q`. */
  function Times(paths: seq<Path>, q: Path): nat {
    if paths == [] then 0 else (if paths[0] == q then 1 else 0) + Times(paths[1..], q)
  }

  /** Each leaf ends up rewritten as often as it was listed. */
  lemma {:induction false} MapLeavesAt(v: Payload, paths: seq<Path>, f: string -> string, q: Path)
    requires HasLeaves(v, paths) && HasLeaf(v, q)
    ensures HasLeaf(MapLeaves(v, paths, f), q)
    ensures LeafAt(MapLeaves(v, paths, f), q) == Repeat(f, LeafAt(v, q), Times(paths, q))
    decreases |paths|
  {
    if paths != [] {
      var p := paths[0];
      MapLeafKeepsLeaves(v, p, f, paths[1..]);
      SetLeafAt(v, p, f(LeafAt(v, p)), q);
      MapLeavesAt(MapLeaf(v, p, f), paths[1..], f, q);
    }
  }

  lemma {:induction false} MapLeavesKeepsSkeleton(v: Payload, paths: seq<Path>, f: string -> string)
    requires HasLeaves(v, paths)
    ensures Skeleton(MapLeaves(v, paths, f)) == Skeleton(v)
    decreases |paths|
  {
    if paths != [] {
      MapLeafKeepsLeaves(v, paths[0], f, paths[1..]);
      SetLeafKeepsSkeleton(v, paths[0], f(LeafAt(v, paths[0])));
      MapLeavesKeepsSkeleton(MapLeaf(v, paths[0], f), paths[1..], f);
    }
  }
}
