/** The Redis serialization protocol codec of the bus-scaling benchmark
    (perf/relay_bus_scaling.py:110-153). Replies follow the sections "Simple
    strings", "Simple errors", "Integers", "Bulk strings" and "Arrays" of the
    Redis serialization protocol specification, read with Python's rules for
    `int()`, `read` and `readline`. */
module Resp {
  import opened Options
  import opened Sequences
  import opened Utf8
  import Decimal

  type Bytes = seq<byte>

  datatype Reply = Nil | Text(text: string) | Number(n: int) | List(items: seq<Reply>)

  /** EOFError, ValueError, UnicodeDecodeError, OverflowError and the RuntimeError of an error reply. */
  datatype RespError = Eof | Malformed | NotUnicode | Overflow | ErrorReply(message: string)

  const CR: byte := 13
  const LF: byte := 10
  const CRLF: Bytes := [CR, LF]
  const PLUS: byte := 0x2B
  const MINUS: byte := 0x2D
  const COLON: byte := 0x3A
  const DOLLAR: byte := 0x24
  const STAR: byte := 0x2A
  const UNDERSCORE: byte := 0x5F

  /** The largest count `read` accepts. */
  const SSIZE_MAX := 0x7FFF_FFFF_FFFF_FFFF

  // ---- int() on bytes -----------------------------------------------------

  predicate IsSpace(b: byte) {
    b == 32 || 9 <= b <= 13
  }

  predicate IsDigitByte(b: byte) {
    0x30 <= b <= 0x39
  }

  function StripLeft(s: Bytes): Bytes {
    if s != [] && IsSpace(s[0]) then StripLeft(s[1..]) else s
  }

  function StripRight(s: Bytes): Bytes {
    if s != [] && IsSpace(s[|s| - 1]) then StripRight(s[..|s| - 1]) else s
  }

  /** Decimal digits, single underscores allowed between them. */
  function PyDigits(s: Bytes): Option<nat> {
    if s == [] || !IsDigitByte(s[|s| - 1]) then None
    else
      var last: nat := s[|s| - 1] - 0x30;
      if |s| == 1 then Some(last)
      else
        var head := if s[|s| - 2] == UNDERSCORE then PyDigits(s[..|s| - 2]) else PyDigits(s[..|s| - 1]);
        if head.None? then None else Some(10 * head.value + last)
  }

  function PyInt(s: Bytes): Option<int> {
    var t := StripRight(StripLeft(s));
    var digits: Option<nat> := if t != [] && (t[0] == PLUS || t[0] == MINUS) then PyDigits(t[1..]) else PyDigits(t);
    match digits
    case None => None
    case Some(n) =>
      var value: int := n;
      Some(if t[0] == MINUS then 0 - value else value)
  }

  // ---- Encoding -----------------------------------------------------------

  function Ascii(s: string): Bytes
    requires forall i | 0 <= i < |s| :: s[i] as int < 0x80
  {
    seq(|s|, i requires 0 <= i < |s| => s[i] as int)
  }

  function Numeral(n: nat): Bytes {
    Ascii(Decimal.Print(n))
  }

  /** A count line: a type byte, a numeral and the line end. */
  function Header(kind: byte, n: nat): Bytes {
    [kind] + Numeral(n) + CRLF
  }

  function Bulk(part: string): Bytes {
    Header(DOLLAR, |Encode(part)|) + Encode(part) + CRLF
  }

  /** The bulk strings of the parts from `i` on. */
  function Bulks(parts: seq<string>, i: nat): Bytes
    requires i <= |parts|
    decreases |parts| - i
  {
    if i == |parts| then [] else Bulk(parts[i]) + Bulks(parts, i + 1)
  }

  function Encoded(parts: seq<string>): Bytes {
    Header(STAR, |parts|) + Bulks(parts, 0)
  }

  /** `encode_command`. */
  method EncodeCommand(parts: seq<string>) returns (bytes: Bytes)
    ensures bytes == Encoded(parts)
  {
    bytes := Header(STAR, |parts|);
    for i := 0 to |parts|
      invariant bytes + Bulks(parts, i) == Encoded(parts)
    {
      ConcatAssoc(bytes, Bulk(parts[i]), Bulks(parts, i + 1));
      var encoded := Encode(parts[i]);
      ghost var before := bytes;
      bytes := bytes + Header(DOLLAR, |encoded|);
      bytes := bytes + encoded;
      bytes := bytes + CRLF;
      assert bytes == before + Bulk(parts[i]);
    }
  }

  // ---- Decoding -----------------------------------------------------------

  datatype Outcome<+T> = Outcome(result: Result<T, RespError>, rest: Bytes)

  /** How far `readline` reads: through the first LF, or to the end. */
  function LineLen(s: Bytes): (n: nat)
    ensures n <= |s|
    ensures forall i | 0 <= i < n - 1 :: s[i] != LF
    ensures n < |s| ==> n > 0 && s[n - 1] == LF
    ensures s != [] ==> n > 0
  {
    if s == [] then 0 else if s[0] == LF then 1 else 1 + LineLen(s[1..])
  }

  /** `_read_line`: a line without its CRLF, which must be there. */
  function LineOf(s: Bytes): (o: Outcome<Bytes>)
    ensures |o.rest| <= |s|
    ensures o.result.Ok? ==> |o.rest| < |s|
  {
    var n := LineLen(s);
    if n == 0 then Outcome(Err(Eof), s)
    else if n < 2 || s[n - 2..n] != CRLF then Outcome(Err(Malformed), s[n..])
    else Outcome(Ok(s[..n - 2]), s[n..])
  }

  function IntLineOf(s: Bytes): (o: Outcome<int>)
    ensures |o.rest| <= |s|
    ensures o.result.Ok? ==> |o.rest| < |s|
  {
    var line := LineOf(s);
    match line.result
    case Err(e) => Outcome(Err(e), line.rest)
    case Ok(text) =>
      var n := PyInt(text);
      Outcome(if n.None? then Err(Malformed) else Ok(n.value), line.rest)
  }

  function Unicode(b: Bytes): Result<string, RespError> {
    var s := Decode(b);
    if s.None? then Err(NotUnicode) else Ok(s.value)
  }

  /** The body of a bulk string of `n` bytes: `read(n)`, then `read(2)`. */
  function BulkOf(s: Bytes, n: int): (o: Outcome<Reply>)
    ensures |o.rest| <= |s|
  {
    if n == -1 then Outcome(Ok(Nil), s)
    else if !(-SSIZE_MAX - 1 <= n <= SSIZE_MAX) then Outcome(Err(Overflow), s)
    else if n < -1 then Outcome(Err(Malformed), s)
    else
      var dataLen := if n <= |s| then n else |s|;
      var left := |s| - dataLen;
      var total := dataLen + if left < 2 then left else 2;
      if dataLen != n || s[dataLen..total] != CRLF then Outcome(Err(Malformed), s[total..])
      else
        match Unicode(s[..n])
        case Ok(text) => Outcome(Ok(Text(text)), s[total..])
        case Err(e) => Outcome(Err(e), s[total..])
  }

  function TextLineOf(s: Bytes): (o: Outcome<string>)
    ensures |o.rest| <= |s|
  {
    var line := LineOf(s);
    match line.result
    case Err(e) => Outcome(Err(e), line.rest)
    case Ok(text) => Outcome(Unicode(text), line.rest)
  }

  function SimpleOf(s: Bytes): (o: Outcome<Reply>)
    ensures |o.rest| <= |s|
  {
    var line := TextLineOf(s);
    Outcome(match line.result case Ok(t) => Ok(Text(t)) case Err(e) => Err(e), line.rest)
  }

  function ErrorOf(s: Bytes): (o: Outcome<Reply>)
    ensures |o.rest| <= |s| && o.result.Err?
  {
    var line := TextLineOf(s);
    Outcome(match line.result case Ok(t) => Err(ErrorReply(t)) case Err(e) => Err(e), line.rest)
  }

  function NumberOf(s: Bytes): (o: Outcome<Reply>)
    ensures |o.rest| <= |s|
  {
    var line := IntLineOf(s);
    Outcome(match line.result case Ok(n) => Ok(Number(n)) case Err(e) => Err(e), line.rest)
  }

  function BulkReplyOf(s: Bytes): (o: Outcome<Reply>)
    ensures |o.rest| <= |s|
  {
    var line := IntLineOf(s);
    match line.result
    case Ok(n) => BulkOf(line.rest, n)
    case Err(e) => Outcome(Err(e), line.rest)
  }

  /** `read_resp`: one reply, and what is left on the stream. */
  function ReplyOf(s: Bytes): (o: Outcome<Reply>)
    ensures |o.rest| <= |s|
    ensures o.result.Ok? ==> |o.rest| < |s|
    decreases |s|, 0, 0
  {
    if s == [] then Outcome(Err(Eof), s)
    else if s[0] == PLUS then SimpleOf(s[1..])
    else if s[0] == MINUS then ErrorOf(s[1..])
    else if s[0] == COLON then NumberOf(s[1..])
    else if s[0] == DOLLAR then BulkReplyOf(s[1..])
    else if s[0] == STAR then
      var line := IntLineOf(s[1..]);
      if line.result.Err? then Outcome(Err(line.result.error), line.rest)
      else ArrayOf(line.rest, line.result.value)
    else Outcome(Err(Malformed), s[1..])
  }

  /** The body of an array: Python's `range` of a negative count is empty. */
  function ArrayOf(s: Bytes, n: int): (o: Outcome<Reply>)
    ensures |o.rest| <= |s|
    decreases |s|, 2, 0
  {
    if n == -1 then Outcome(Ok(Nil), s)
    else
      var items := RepliesOf(s, if n < 0 then 0 else n);
      if items.result.Ok? then Outcome(Ok(List(items.result.value)), items.rest)
      else Outcome(Err(items.result.error), items.rest)
  }

  /** `n` replies one after the other, stopping at the first failure. */
  function RepliesOf(s: Bytes, n: nat): (o: Outcome<seq<Reply>>)
    ensures |o.rest| <= |s|
    decreases |s|, 1, n
  {
    if n == 0 then Outcome(Ok([]), s)
    else
      var first := ReplyOf(s);
      if first.result.Err? then Outcome(Err(first.result.error), first.rest)
      else Prepended([first.result.value], RepliesOf(first.rest, n - 1))
  }

  /** The outcome of reading more replies after `items`. */
  function Prepended(items: seq<Reply>, more: Outcome<seq<Reply>>): (o: Outcome<seq<Reply>>)
    ensures o.rest == more.rest
  {
    if more.result.Ok? then Outcome(Ok(items + more.result.value), more.rest) else more
  }

  // ---- Reading from a stream ----------------------------------------------

  /** A buffered binary stream over bytes that end where the connection closes. */
  class ByteStream {
    const data: Bytes
    var pos: nat

    predicate Valid()
      reads this
    {
      pos <= |data|
    }

    function Rest(): Bytes
      requires Valid()
      reads this
    {
      data[pos..]
    }

    constructor (data: Bytes)
      ensures Valid() && Rest() == data
    {
      this.data := data;
      pos := 0;
    }

    /** `read(n)` for a count it accepts: fewer than `n` bytes only at the end. */
    method Read(n: nat) returns (bytes: Bytes)
      requires Valid()
      modifies this
      ensures Valid()
      ensures |bytes| == if n <= |old(Rest())| then n else |old(Rest())|
      ensures bytes == old(Rest())[..|bytes|] && Rest() == old(Rest())[|bytes|..]
    {
      var end := if n <= |data| - pos then pos + n else |data|;
      bytes := data[pos..end];
      pos := end;
    }

    method ReadLine() returns (line: Bytes)
      requires Valid()
      modifies this
      ensures Valid()
      ensures line == old(Rest())[..LineLen(old(Rest()))] && Rest() == old(Rest())[LineLen(old(Rest()))..]
    {
      var end := pos + LineLen(data[pos..]);
      line := data[pos..end];
      pos := end;
    }

    /** `_read_line`. */
    method ReadCrlfLine() returns (r: Result<Bytes, RespError>)
      requires Valid()
      modifies this
      ensures Valid()
      ensures Outcome(r, Rest()) == LineOf(old(Rest()))
    {
      ghost var n := LineLen(Rest());
      var line := ReadLine();
      if line == [] {
        return Err(Eof);
      }
      assert n >= 2 ==> line[n - 2..] == old(Rest())[n - 2..n] && line[..n - 2] == old(Rest())[..n - 2];
      if |line| < 2 || line[|line| - 2..] != CRLF {
        return Err(Malformed);
      }
      r := Ok(line[..|line| - 2]);
    }

    method ReadInt() returns (r: Result<int, RespError>)
      requires Valid()
      modifies this
      ensures Valid()
      ensures Outcome(r, Rest()) == IntLineOf(old(Rest()))
    {
      var line := ReadCrlfLine();
      if line.Err? {
        return Err(line.error);
      }
      var n := PyInt(line.value);
      r := if n.None? then Err(Malformed) else Ok(n.value);
    }

    method ReadBulk(n: int) returns (r: Result<Reply, RespError>)
      requires Valid()
      modifies this
      ensures Valid()
      ensures Outcome(r, Rest()) == BulkOf(old(Rest()), n)
    {
      if n == -1 {
        return Ok(Nil);
      }
      if n > SSIZE_MAX || n < -SSIZE_MAX - 1 {
        return Err(Overflow);
      }
      if n < -1 {
        return Err(Malformed);
      }
      ghost var whole := Rest();
      var bytes := Read(n);
      var terminator := Read(2);
      BulkRead(whole, n, bytes, terminator, Rest());
      if |bytes| != n || terminator != CRLF {
        return Err(Malformed);
      }
      var text := Unicode(bytes);
      r := if text.Err? then Err(text.error) else Ok(Text(text.value));
    }

    method ReadText() returns (r: Result<string, RespError>)
      requires Valid()
      modifies this
      ensures Valid()
      ensures Outcome(r, Rest()) == TextLineOf(old(Rest()))
    {
      var line := ReadCrlfLine();
      r := if line.Err? then Err(line.error) else Unicode(line.value);
    }

    /** `read_resp`. */
    method ReadResp() returns (r: Result<Reply, RespError>)
      requires Valid()
      modifies this
      ensures Valid()
      ensures Outcome(r, Rest()) == ReplyOf(old(Rest()))
      decreases |Rest()|, 0, 0
    {
      ghost var whole := Rest();
      var prefix := Read(1);
      if prefix == [] {
        return Err(Eof);
      }
      assert prefix[0] == whole[0] && Rest() == whole[1..];
      if prefix == [PLUS] {
        var text := ReadText();
        return if text.Ok? then Ok(Text(text.value)) else Err(text.error);
      }
      if prefix == [MINUS] {
        var text := ReadText();
        return if text.Ok? then Err(ErrorReply(text.value)) else Err(text.error);
      }
      if prefix == [COLON] {
        var n := ReadInt();
        return if n.Ok? then Ok(Number(n.value)) else Err(n.error);
      }
      if prefix == [DOLLAR] {
        var n := ReadInt();
        if n.Err? {
          return Err(n.error);
        }
        r := ReadBulk(n.value);
        return;
      }
      if prefix == [STAR] {
        var n := ReadInt();
        if n.Err? {
          return Err(n.error);
        }
        r := ReadArray(n.value);
        return;
      }
      assert prefix == [whole[0]];
      r := Err(Malformed);
    }

    method ReadArray(n: int) returns (r: Result<Reply, RespError>)
      requires Valid()
      modifies this
      ensures Valid()
      ensures Outcome(r, Rest()) == ArrayOf(old(Rest()), n)
      decreases |Rest()|, 3, 0
    {
      if n == -1 {
        return Ok(Nil);
      }
      RepliesAreMany(Rest(), if n < 0 then 0 else n);
      var items := ReadReplies(if n < 0 then 0 else n, ReplyOf);
      r := if items.Err? then Err(items.error) else Ok(List(items.value));
    }

    /** One element of a list of which `n` are still to be read after `items`. */
    method ReadOneMore(ghost read: Bytes -> Outcome<Reply>, ghost items: seq<Reply>, ghost n: nat)
      returns (r: Result<Reply, RespError>)
      requires Valid() && n > 0 && IsReplyOf(read)
      modifies this
      ensures Valid() && |Rest()| <= |old(Rest())|
      ensures Prepended(items, Many(read, old(Rest()), n)) ==
        if r.Err? then Outcome(Err(r.error), Rest())
        else Prepended(items + [r.value], Many(read, Rest(), n - 1))
      decreases |Rest()|, 1, 0
    {
      ManyStep(read, items, Rest(), n);
      r := ReadResp();
    }

    /** The list comprehension of `read_resp`; `read` names what `ReadResp` computes. */
    method ReadReplies(n: nat, ghost read: Bytes -> Outcome<Reply>) returns (r: Result<seq<Reply>, RespError>)
      requires Valid() && IsReplyOf(read)
      modifies this
      ensures Valid()
      ensures Outcome(r, Rest()) == Many(read, old(Rest()), n)
      decreases |Rest()|, 2, n
    {
      var items: seq<Reply> := [];
      var i := 0;
      ghost var goal := Many(read, Rest(), n);
      ghost var left := Rest();
      PrependNothing(goal);
      while i < n
        invariant Valid() && 0 <= i <= n && |Rest()| <= |left|
        invariant goal == Prepended(items, Many(read, Rest(), n - i))
        decreases n - i
      {
        var item := ReadOneMore(read, items, n - i);
        if item.Err? {
          return Err(item.error);
        }
        items, i := items + [item.value], i + 1;
      }
      assert items + [] == items;
      r := Ok(items);
    }
  }

  ghost predicate IsReplyOf(read: Bytes -> Outcome<Reply>) {
    forall s {:trigger ReplyOf(s)} :: read(s) == ReplyOf(s)
  }

  /** A bulk body in terms of the two reads made for it. */
  lemma BulkRead(s: Bytes, n: nat, bytes: Bytes, terminator: Bytes, rest: Bytes)
    requires n <= SSIZE_MAX && |bytes| == if n <= |s| then n else |s|
    requires bytes == s[..|bytes|] && |terminator| == if 2 <= |s| - |bytes| then 2 else |s| - |bytes|
    requires terminator == s[|bytes|..][..|terminator|] && rest == s[|bytes|..][|terminator|..]
    ensures BulkOf(s, n) ==
      if |bytes| != n || terminator != CRLF then Outcome(Err(Malformed), rest)
      else if Unicode(bytes).Err? then Outcome(Err(Unicode(bytes).error), rest)
      else Outcome(Ok(Text(Unicode(bytes).value)), rest)
  {
    assert s[|bytes|..|bytes| + |terminator|] == terminator && s[|bytes| + |terminator|..] == rest;
  }

  // ---- Reading several replies --------------------------------------------

  /** `n` replies as any reader gives them, one after the other. */
  function Many(read: Bytes -> Outcome<Reply>, s: Bytes, n: nat): Outcome<seq<Reply>>
    decreases n
  {
    if n == 0 then Outcome(Ok([]), s)
    else
      var first := read(s);
      if first.result.Err? then Outcome(Err(first.result.error), first.rest)
      else Prepended([first.result.value], Many(read, first.rest, n - 1))
  }

  /** `many` reads one reply and then the others, or none. */
  ghost predicate StepsAt(
      read: Bytes -> Outcome<Reply>, many: (Bytes, nat) -> Outcome<seq<Reply>>, s: Bytes, n: nat)
  {
    many(s, n) ==
      if n == 0 then Outcome(Ok([]), s)
      else if read(s).result.Err? then Outcome(Err(read(s).result.error), read(s).rest)
      else Prepended([read(s).result.value], many(read(s).rest, n - 1))
  }

  lemma {:induction false} AreMany(
      read: Bytes -> Outcome<Reply>, many: (Bytes, nat) -> Outcome<seq<Reply>>, s: Bytes, n: nat)
    requires forall t: Bytes, k: nat :: StepsAt(read, many, t, k)
    ensures many(s, n) == Many(read, s, n)
    decreases n
  {
    assert StepsAt(read, many, s, n);
    if n > 0 && read(s).result.Ok? {
      AreMany(read, many, read(s).rest, n - 1);
    }
  }

  lemma RepliesAreMany(s: Bytes, n: nat)
    ensures RepliesOf(s, n) == Many(ReplyOf, s, n)
  {
    var many := (t: Bytes, k: nat) => RepliesOf(t, k);
    forall t: Bytes, k: nat ensures StepsAt(ReplyOf, many, t, k) {
    }
    AreMany(ReplyOf, many, s, n);
  }

  lemma PrependNothing(o: Outcome<seq<Reply>>)
    ensures Prepended([], o) == o
  {
    if o.result.Ok? {
      assert [] + o.result.value == o.result.value;
    }
  }

  /** After one reply more, what is left to do and where. */
  lemma ManyStep(read: Bytes -> Outcome<Reply>, items: seq<Reply>, s: Bytes, n: nat)
    requires n > 0
    ensures
      var first := read(s);
      Prepended(items, Many(read, s, n)) ==
        if first.result.Err? then Outcome(Err(first.result.error), first.rest)
        else Prepended(items + [first.result.value], Many(read, first.rest, n - 1))
  {
    var first := read(s);
    if first.result.Ok? {
      var more := Many(read, first.rest, n - 1);
      if more.result.Ok? {
        ConcatAssoc(items, [first.result.value], more.result.value);
      }
    }
  }

  /** Stream `k` begins with reply `k` and leaves stream `k + 1`. */
  ghost predicate LeadsOn(read: Bytes -> Outcome<Reply>, streams: seq<Bytes>, replies: seq<Reply>, k: nat)
    requires k < |replies| && |streams| == |replies| + 1
  {
    read(streams[k]) == Outcome(Ok(replies[k]), streams[k + 1])
  }

  /** Streams that lead on from one to the next are read one after the other. */
  lemma {:induction false} ReadOneByOne(
      read: Bytes -> Outcome<Reply>, streams: seq<Bytes>, replies: seq<Reply>, i: nat, n: nat)
    requires |streams| == |replies| + 1 && i + n == |replies|
    requires forall k | 0 <= k < |replies| :: LeadsOn(read, streams, replies, k)
    ensures Many(read, streams[i], n) == Outcome(Ok(replies[i..]), streams[|replies|])
    decreases n
  {
    if n > 0 {
      ReadOneByOne(read, streams, replies, i + 1, n - 1);
      assert LeadsOn(read, streams, replies, i);
      assert [replies[i]] + replies[i + 1..] == replies[i..];
    }
  }

  // ---- Numerals -----------------------------------------------------------

  /** Python reads a digit string as its decimal value. */
  lemma {:induction false} PyDigitsOfAscii(s: string)
    requires s != ""
    requires forall i | 0 <= i < |s| :: Decimal.IsDigit(s[i]) && s[i] as int < 0x80
    ensures PyDigits(Ascii(s)) == Some(Decimal.Value(s))
  {
    var bytes, head := Ascii(s), s[..|s| - 1];
    assert bytes[|s| - 1] == 0x30 + Decimal.DigitValue(s[|s| - 1]);
    assert bytes[..|s| - 1] == Ascii(head);
    if head == "" {
      assert Decimal.Value(head) == 0;
    } else {
      PyDigitsOfAscii(head);
      assert bytes[|s| - 2] == s[|s| - 2] as int;
    }
  }

  lemma PyIntOfPrint(n: nat)
    ensures PyInt(Numeral(n)) == Some(n)
  {
    var s := Numeral(n);
    assert IsDigitByte(s[0]) && IsDigitByte(s[|s| - 1]);
    PyDigitsOfAscii(Decimal.Print(n));
    Decimal.ValueOfPrint(n);
  }

  // ---- Round trip ---------------------------------------------------------

  lemma LineOfClean(line: Bytes, tail: Bytes)
    requires LF !in line
    ensures LineOf(line + CRLF + tail) == Outcome(Ok(line), tail)
  {
    var s := line + CRLF + tail;
    var k := |line| + 1;
    assert s[k] == LF && forall i | 0 <= i < k :: s[i] != LF;
    assert LineLen(s) == k + 1;
    assert s[k - 1..k + 1] == CRLF && s[..k - 1] == line && s[k + 1..] == tail;
  }

  lemma IntLineOfNumeral(n: nat, tail: Bytes)
    ensures IntLineOf(Numeral(n) + CRLF + tail) == Outcome(Ok(n), tail)
  {
    LineOfClean(Numeral(n), tail);
    PyIntOfPrint(n);
  }

  /** The header line is read back, whatever follows. */
  lemma HeaderLine(kind: byte, n: nat, tail: Bytes)
    ensures (Header(kind, n) + tail)[0] == kind
    ensures IntLineOf((Header(kind, n) + tail)[1..]) == Outcome(Ok(n), tail)
  {
    assert (Header(kind, n) + tail)[1..] == Numeral(n) + CRLF + tail;
    IntLineOfNumeral(n, tail);
  }

  lemma BulkReply(s: Bytes, body: Bytes, n: nat)
    requires s != [] && s[0] == DOLLAR && IntLineOf(s[1..]) == Outcome(Ok(n), body)
    ensures ReplyOf(s) == BulkOf(body, n)
  {
  }

  lemma ArrayReply(s: Bytes, body: Bytes, n: nat, items: seq<Reply>, tail: Bytes)
    requires s != [] && s[0] == STAR && IntLineOf(s[1..]) == Outcome(Ok(n), body)
    requires RepliesOf(body, n) == Outcome(Ok(items), tail)
    ensures ReplyOf(s) == Outcome(Ok(List(items)), tail)
  {
    assert ReplyOf(s) == ArrayOf(body, n);
  }

  /** One more reply in front of a list that is read back. */
  lemma RepliesCons(s: Bytes, n: nat, first: Reply, mid: Bytes, others: seq<Reply>, tail: Bytes)
    requires ReplyOf(s) == Outcome(Ok(first), mid) && RepliesOf(mid, n) == Outcome(Ok(others), tail)
    ensures RepliesOf(s, n + 1) == Outcome(Ok([first] + others), tail)
  {
  }

  lemma BulkBody(part: string, tail: Bytes)
    requires |Encode(part)| <= SSIZE_MAX
    ensures BulkOf(Encode(part) + CRLF + tail, |Encode(part)|) == Outcome(Ok(Text(part)), tail)
  {
    var e := Encode(part);
    Parts(e, CRLF, tail);
    DecodeOfEncode(part);
  }

  lemma ReplyOfBulk(part: string, tail: Bytes)
    requires |Encode(part)| <= SSIZE_MAX
    ensures ReplyOf(Bulk(part) + tail) == Outcome(Ok(Text(part)), tail)
  {
    var body := Encode(part) + CRLF + tail;
    assert Bulk(part) + tail == Header(DOLLAR, |Encode(part)|) + body;
    HeaderLine(DOLLAR, |Encode(part)|, body);
    BulkReply(Bulk(part) + tail, body, |Encode(part)|);
    BulkBody(part, tail);
  }

  function Texts(parts: seq<string>, i: nat): (r: seq<Reply>)
    requires i <= |parts|
    ensures |r| == |parts| - i && forall k | 0 <= k < |r| :: r[k] == Text(parts[i + k])
    decreases |parts| - i
  {
    if i == |parts| then [] else [Text(parts[i])] + Texts(parts, i + 1)
  }

  /** A Python `bytes` object is never longer than this. */
  ghost predicate Representable(parts: seq<string>) {
    forall i | 0 <= i < |parts| :: |Encode(parts[i])| <= SSIZE_MAX
  }

  lemma {:induction false} RepliesOfBulks(parts: seq<string>, i: nat, tail: Bytes)
    requires i <= |parts| && Representable(parts)
    ensures RepliesOf(Bulks(parts, i) + tail, |parts| - i) == Outcome(Ok(Texts(parts, i)), tail)
    decreases |parts| - i
  {
    if i < |parts| {
      ConcatAssoc(Bulk(parts[i]), Bulks(parts, i + 1), tail);
      ReplyOfBulk(parts[i], Bulks(parts, i + 1) + tail);
      RepliesOfBulks(parts, i + 1, tail);
      RepliesCons(Bulks(parts, i) + tail, |parts| - i - 1, Text(parts[i]), Bulks(parts, i + 1) + tail, Texts(parts, i + 1), tail);
    } else {
      assert Bulks(parts, i) + tail == tail;
    }
  }

  /** Decoding what a command was encoded to, followed by anything, gives back
      exactly its arguments and leaves exactly what followed. */
  lemma RoundTrip(parts: seq<string>, tail: Bytes)
    requires Representable(parts)
    ensures ReplyOf(Encoded(parts) + tail) == Outcome(Ok(List(Texts(parts, 0))), tail)
  {
    var body := Bulks(parts, 0) + tail;
    assert Encoded(parts) + tail == Header(STAR, |parts|) + body;
    HeaderLine(STAR, |parts|, body);
    RepliesOfBulks(parts, 0, tail);
    ArrayReply(Encoded(parts) + tail, body, |parts|, Texts(parts, 0), tail);
  }

  /** Encoding is injective and prefix-free: a byte stream begins with at most one command. */
  lemma PrefixFree(a: seq<string>, b: seq<string>, s: Bytes, t: Bytes)
    requires Representable(a) && Representable(b) && Encoded(a) + s == Encoded(b) + t
    ensures a == b && s == t
  {
    RoundTrip(a, s);
    RoundTrip(b, t);
    assert Texts(a, 0) == Texts(b, 0);
    forall i | 0 <= i < |a| ensures a[i] == b[i] {
      assert Texts(a, 0)[i] == Text(a[0 + i]) && Texts(b, 0)[i] == Text(b[0 + i]);
    }
  }

  // ---- Several commands ---------------------------------------------------

  function AllEncoded(commands: seq<seq<string>>, i: nat): Bytes
    requires i <= |commands|
    decreases |commands| - i
  {
    if i == |commands| then [] else Encoded(commands[i]) + AllEncoded(commands, i + 1)
  }

  function AllLists(commands: seq<seq<string>>): (replies: seq<Reply>)
    ensures |replies| == |commands|
  {
    seq(|commands|, k requires 0 <= k < |commands| => List(Texts(commands[k], 0)))
  }

  lemma CommandThenMore(commands: seq<seq<string>>, k: nat, tail: Bytes)
    requires k < |commands| && Representable(commands[k])
    ensures ReplyOf(AllEncoded(commands, k) + tail)
            == Outcome(Ok(List(Texts(commands[k], 0))), AllEncoded(commands, k + 1) + tail)
  {
    ConcatAssoc(Encoded(commands[k]), AllEncoded(commands, k + 1), tail);
    RoundTrip(commands[k], AllEncoded(commands, k + 1) + tail);
  }

  /** Pipelined commands are read back one by one, in order. */
  lemma PipelineRoundTrip(commands: seq<seq<string>>, tail: Bytes)
    requires forall k | 0 <= k < |commands| :: Representable(commands[k])
    ensures RepliesOf(AllEncoded(commands, 0) + tail, |commands|) == Outcome(Ok(AllLists(commands)), tail)
  {
    var n, replies := |commands|, AllLists(commands);
    var streams := seq(n + 1, k requires 0 <= k <= n => AllEncoded(commands, k) + tail);
    forall k | 0 <= k < n ensures LeadsOn(ReplyOf, streams, replies, k) {
      CommandThenMore(commands, k, tail);
    }
    ReadOneByOne(ReplyOf, streams, replies, 0, n);
    RepliesAreMany(streams[0], n);
    assert replies[0..] == replies;
    assert [] + tail == tail;
  }

  // ---- Truncation ---------------------------------------------------------

  lemma LineStable(s: Bytes, more: Bytes)
    requires LineOf(s).result.Ok?
    ensures LineOf(s + more) == Outcome(LineOf(s).result, LineOf(s).rest + more)
  {
    var n := LineLen(s);
    var t := s + more;
    assert s[n - 2..n][1] == LF;
    assert t[n - 1] == LF && forall i | 0 <= i < n - 1 :: t[i] == s[i];
    assert LineLen(t) == n;
    assert t[n - 2..n] == s[n - 2..n] && t[..n - 2] == s[..n - 2] && t[n..] == s[n..] + more;
  }

  lemma IntLineStable(s: Bytes, more: Bytes)
    requires IntLineOf(s).result.Ok?
    ensures IntLineOf(s + more) == Outcome(IntLineOf(s).result, IntLineOf(s).rest + more)
  {
    LineStable(s, more);
  }

  lemma BulkStable(s: Bytes, n: int, more: Bytes)
    requires BulkOf(s, n).result.Ok?
    ensures BulkOf(s + more, n) == Outcome(BulkOf(s, n).result, BulkOf(s, n).rest + more)
  {
    if n != -1 {
      var t := s + more;
      assert |s[n..if |s| - n < 2 then |s| else n + 2]| == 2;
      assert t[..n] == s[..n] && t[n..n + 2] == s[n..n + 2] && t[n + 2..] == s[n + 2..] + more;
    }
  }

  /** What was read whole is read the same when more follows. */
  ghost predicate StableAt(read: Bytes -> Outcome<Reply>, s: Bytes, more: Bytes) {
    read(s).result.Ok? ==> read(s + more) == Outcome(read(s).result, read(s).rest + more)
  }

  lemma {:induction false} ManyStable(read: Bytes -> Outcome<Reply>, s: Bytes, n: nat, more: Bytes)
    requires forall t: Bytes | |t| <= |s| :: StableAt(read, t, more)
    requires forall t: Bytes :: |read(t).rest| <= |t|
    requires Many(read, s, n).result.Ok?
    ensures Many(read, s + more, n) == Outcome(Many(read, s, n).result, Many(read, s, n).rest + more)
    decreases n
  {
    if n > 0 {
      assert StableAt(read, s, more);
      ManyStable(read, read(s).rest, n - 1, more);
    }
  }

  lemma ArrayStable(s: Bytes, n: int, more: Bytes)
    requires forall t: Bytes | |t| <= |s| :: StableAt(ReplyOf, t, more)
    requires ArrayOf(s, n).result.Ok?
    ensures ArrayOf(s + more, n) == Outcome(ArrayOf(s, n).result, ArrayOf(s, n).rest + more)
  {
    if n != -1 {
      var m: nat := if n < 0 then 0 else n;
      RepliesAreMany(s, m);
      RepliesAreMany(s + more, m);
      ManyStable(ReplyOf, s, m, more);
    }
  }

  /** A reply that was read whole does not depend on the bytes after it. */
  lemma {:induction false} ReplyStable(s: Bytes, more: Bytes)
    requires ReplyOf(s).result.Ok?
    ensures ReplyOf(s + more) == Outcome(ReplyOf(s).result, ReplyOf(s).rest + more)
    decreases |s|
  {
    assert (s + more)[1..] == s[1..] + more;
    if s[0] == PLUS {
      LineStable(s[1..], more);
    } else {
      IntLineStable(s[1..], more);
      var line := IntLineOf(s[1..]);
      var n := line.result.value;
      if s[0] == DOLLAR {
        BulkStable(line.rest, n, more);
      } else if s[0] == STAR {
        forall t: Bytes | |t| <= |line.rest| ensures StableAt(ReplyOf, t, more) {
          if ReplyOf(t).result.Ok? {
            ReplyStable(t, more);
          }
        }
        ArrayStable(line.rest, n, more);
      }
    }
  }

  lemma RestCoversMore(s: Bytes, more: Bytes)
    requires ReplyOf(s).result.Ok?
    ensures |ReplyOf(s + more).rest| >= |more|
  {
    ReplyStable(s, more);
  }

  lemma CutReplyFails(s: Bytes, more: Bytes)
    requires ReplyOf(s + more).rest == [] && more != []
    ensures ReplyOf(s).result.Err?
  {
    if ReplyOf(s).result.Ok? {
      RestCoversMore(s, more);
    }
  }

  /** A command cut short anywhere is never mistaken for a reply. */
  lemma TruncatedFails(parts: seq<string>, k: nat)
    requires Representable(parts) && k < |Encoded(parts)|
    ensures ReplyOf(Encoded(parts)[..k]).result.Err?
  {
    var whole := Encoded(parts);
    assert whole + [] == whole && whole[..k] + whole[k..] == whole;
    RoundTrip(parts, []);
    CutReplyFails(whole[..k], whole[k..]);
  }
}
