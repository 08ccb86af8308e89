/** Every reply the protocol has, written and read back, and what the reader's
    parts accept (perf/relay_bus_scaling.py:120-153). */
module RespReplies {
  import opened Options
  import opened Sequences
  import opened Utf8
  import Decimal
  import opened Resp

  // ---- Lines --------------------------------------------------------------

  /** A line is what stands before the first LF, and a CR must stand between. */
  lemma LineIff(s: Bytes, line: Bytes, rest: Bytes)
    ensures LineOf(s) == Outcome(Ok(line), rest) <==> s == line + CRLF + rest && LF !in line
  {
    if LineOf(s) == Outcome(Ok(line), rest) {
      var n := LineLen(s);
      assert s == s[..n - 2] + s[n - 2..n] + s[n..];
      assert forall i | 0 <= i < |line| :: line[i] == s[i];
    } else if s == line + CRLF + rest && LF !in line {
      LineOfClean(line, rest);
    }
  }

  /** A bulk body is exactly the announced number of bytes of a text and a CRLF. */
  lemma BulkIff(s: Bytes, n: nat, text: string, rest: Bytes)
    requires n <= SSIZE_MAX
    ensures BulkOf(s, n) == Outcome(Ok(Text(text)), rest) <==> s == Encode(text) + CRLF + rest && |Encode(text)| == n
  {
    if BulkOf(s, n) == Outcome(Ok(Text(text)), rest) {
      DecodeIsExact(s[..n], text);
      assert s == s[..n] + s[n..n + 2] + s[n + 2..];
    } else if s == Encode(text) + CRLF + rest && |Encode(text)| == n {
      BulkBody(text, rest);
    }
  }

  // ---- Integers -----------------------------------------------------------

  predicate Spaces(s: Bytes) {
    forall i | 0 <= i < |s| :: IsSpace(s[i])
  }

  /** Digits, and single underscores between them. */
  predicate Underscored(s: Bytes) {
    && s != [] && IsDigitByte(s[0]) && IsDigitByte(s[|s| - 1])
    && (forall i | 0 <= i < |s| :: IsDigitByte(s[i]) || s[i] == UNDERSCORE)
    && (forall i | 0 < i < |s| :: IsDigitByte(s[i - 1]) || IsDigitByte(s[i]))
  }

  /** The digits of it. */
  function Unseparated(s: Bytes): (t: string)
    ensures forall i | 0 <= i < |t| :: Decimal.IsDigit(t[i])
  {
    if s == [] then ""
    else Unseparated(s[..|s| - 1]) + (if IsDigitByte(s[|s| - 1]) then [s[|s| - 1] as char] else "")
  }

  lemma UnseparatedDigit(s: Bytes)
    requires s != [] && IsDigitByte(s[|s| - 1])
    ensures Decimal.Value(Unseparated(s)) == 10 * Decimal.Value(Unseparated(s[..|s| - 1])) + (s[|s| - 1] - 0x30)
  {
    var t := Unseparated(s);
    assert t[..|t| - 1] == Unseparated(s[..|s| - 1]);
  }

  lemma UnseparatedUnderscore(s: Bytes)
    requires s != [] && s[|s| - 1] == UNDERSCORE
    ensures Unseparated(s) == Unseparated(s[..|s| - 1])
  {
  }

  lemma UnderscoredInit(s: Bytes)
    requires |s| > 1 && IsDigitByte(s[|s| - 1])
    ensures Underscored(s) <==>
              if s[|s| - 2] == UNDERSCORE then Underscored(s[..|s| - 2]) else Underscored(s[..|s| - 1])
  {
    var k := if s[|s| - 2] == UNDERSCORE then |s| - 2 else |s| - 1;
    var head := s[..k];
    if Underscored(head) {
      forall i | 0 <= i < |s| ensures IsDigitByte(s[i]) || s[i] == UNDERSCORE {
        assert i < k ==> s[i] == head[i];
      }
      forall i | 0 < i < |s| ensures IsDigitByte(s[i - 1]) || IsDigitByte(s[i]) {
        assert i < k ==> s[i] == head[i] && s[i - 1] == head[i - 1];
        assert i == k ==> s[i - 1] == head[k - 1];
      }
    }
  }

  lemma {:induction false} PyDigitsIff(s: Bytes)
    ensures PyDigits(s).Some? <==> Underscored(s)
    ensures PyDigits(s).Some? ==> PyDigits(s).value == Decimal.Value(Unseparated(s))
  {
    if s != [] && IsDigitByte(s[|s| - 1]) {
      UnseparatedDigit(s);
      if |s| == 1 {
        assert s[..0] == [];
      } else {
        UnderscoredInit(s);
        if s[|s| - 2] == UNDERSCORE {
          UnseparatedUnderscore(s[..|s| - 1]);
          assert s[..|s| - 1][..|s| - 2] == s[..|s| - 2];
          PyDigitsIff(s[..|s| - 2]);
        } else {
          PyDigitsIff(s[..|s| - 1]);
        }
      }
    }
  }

  lemma {:induction false} StripLeftOf(left: Bytes, t: Bytes)
    requires Spaces(left) && (t == [] || !IsSpace(t[0]))
    ensures StripLeft(left + t) == t
  {
    if left == [] {
      assert left + t == t;
    } else {
      assert (left + t)[0] == left[0] && (left + t)[1..] == left[1..] + t;
      StripLeftOf(left[1..], t);
    }
  }

  lemma {:induction false} StripRightOf(t: Bytes, right: Bytes)
    requires Spaces(right) && (t == [] || !IsSpace(t[|t| - 1]))
    ensures StripRight(t + right) == t
  {
    if right == [] {
      assert t + right == t;
    } else {
      var n := |right| - 1;
      assert (t + right)[|t| + n] == right[n] && (t + right)[..|t| + n] == t + right[..n];
      StripRightOf(t, right[..n]);
    }
  }

  lemma {:induction false} LeftOf(s: Bytes) returns (left: Bytes)
    ensures Spaces(left) && s == left + StripLeft(s)
    ensures StripLeft(s) == [] || !IsSpace(StripLeft(s)[0])
  {
    left := [];
    if s != [] && IsSpace(s[0]) {
      var more := LeftOf(s[1..]);
      left := [s[0]] + more;
    }
  }

  lemma {:induction false} RightOf(s: Bytes) returns (right: Bytes)
    ensures Spaces(right) && s == StripRight(s) + right
    ensures StripRight(s) == [] || !IsSpace(StripRight(s)[|StripRight(s)| - 1])
  {
    right := [];
    if s != [] && IsSpace(s[|s| - 1]) {
      var more := RightOf(s[..|s| - 1]);
      right := more + [s[|s| - 1]];
    }
  }

  predicate IsSign(sign: Bytes) {
    sign == [] || sign == [PLUS] || sign == [MINUS]
  }

  function Applied(sign: Bytes, n: nat): int {
    var value: int := n;
    if sign == [MINUS] then 0 - value else value
  }

  function Stripped(s: Bytes): Bytes {
    StripRight(StripLeft(s))
  }

  lemma StrippedOf(left: Bytes, t: Bytes, right: Bytes)
    requires Spaces(left) && Spaces(right) && t != [] && !IsSpace(t[0]) && !IsSpace(t[|t| - 1])
    ensures Stripped(left + t + right) == t
  {
    ConcatAssoc(left, t, right);
    assert (t + right)[0] == t[0];
    StripLeftOf(left, t + right);
    StripRightOf(t, right);
  }

  lemma StrippedFrom(s: Bytes) returns (left: Bytes, right: Bytes)
    ensures Spaces(left) && Spaces(right) && s == left + Stripped(s) + right
  {
    left := LeftOf(s);
    right := RightOf(StripLeft(s));
    ConcatAssoc(left, Stripped(s), right);
  }

  lemma SignedEnds(sign: Bytes, digits: Bytes)
    requires IsSign(sign) && Underscored(digits)
    ensures
      var t := sign + digits;
      && t != [] && !IsSpace(t[0]) && !IsSpace(t[|t| - 1])
      && (sign == [] ==> t == digits && t[0] != PLUS && t[0] != MINUS)
      && (sign != [] ==> t[1..] == digits && t[0] == sign[0])
  {
    var t := sign + digits;
    assert t[|t| - 1] == digits[|digits| - 1];
    assert sign == [] ==> t == digits;
  }

  lemma StrippedReads(s: Bytes, sign: Bytes, digits: Bytes)
    requires IsSign(sign) && Underscored(digits) && Stripped(s) == sign + digits
    ensures PyInt(s) == Some(Applied(sign, Decimal.Value(Unseparated(digits))))
  {
    SignedEnds(sign, digits);
    PyDigitsIff(digits);
  }

  /** Read as an integer: spaces around an optional sign and digits, underscores
      between digits ignored; the value is the numeral's, negated by a minus … */
  lemma PyIntReads(left: Bytes, sign: Bytes, digits: Bytes, right: Bytes)
    requires Spaces(left) && IsSign(sign) && Underscored(digits) && Spaces(right)
    ensures PyInt(left + (sign + digits) + right) == Some(Applied(sign, Decimal.Value(Unseparated(digits))))
  {
    var t := sign + digits;
    SignedEnds(sign, digits);
    StrippedOf(left, t, right);
    StrippedReads(left + t + right, sign, digits);
  }

  /** … and nothing else is. */
  lemma PyIntReadsOnly(s: Bytes) returns (left: Bytes, sign: Bytes, digits: Bytes, right: Bytes)
    requires PyInt(s).Some?
    ensures Spaces(left) && IsSign(sign) && Underscored(digits) && Spaces(right)
    ensures s == left + (sign + digits) + right
  {
    left, right := StrippedFrom(s);
    sign, digits := SignOf(Stripped(s));
    PyDigitsIff(digits);
  }

  lemma SignOf(t: Bytes) returns (sign: Bytes, digits: Bytes)
    ensures IsSign(sign) && t == sign + digits
    ensures t != [] && (t[0] == PLUS || t[0] == MINUS) ==> digits == t[1..]
    ensures t == [] || !(t[0] == PLUS || t[0] == MINUS) ==> digits == t
  {
    if t != [] && (t[0] == PLUS || t[0] == MINUS) {
      sign, digits := [t[0]], t[1..];
    } else {
      sign, digits := [], t;
    }
  }

  // ---- Every reply --------------------------------------------------------

  /** The replies a server can send, but for errors. */
  datatype Wire =
    | SimpleString(text: string)
    | BulkString(text: string)
    | Integer(n: int)
    | NullBulk
    | NullArray
    | Array(items: seq<Wire>)

  function Signed(n: int): Bytes {
    if n < 0 then [MINUS] + Numeral(-n) else Numeral(n)
  }

  function Written(w: Wire): Bytes
    decreases w, if w.Array? then |w.items| + 1 else 0
  {
    match w
    case SimpleString(text) => [PLUS] + Encode(text) + CRLF
    case BulkString(text) => Bulk(text)
    case Integer(n) => [COLON] + Signed(n) + CRLF
    case NullBulk => [DOLLAR] + Signed(-1) + CRLF
    case NullArray => [STAR] + Signed(-1) + CRLF
    case Array(items) => Header(STAR, |items|) + WrittenFrom(w, 0)
  }

  /** The items of an array from `i` on. */
  function WrittenFrom(w: Wire, i: nat): Bytes
    requires w.Array? && i <= |w.items|
    decreases w, |w.items| - i
  {
    if i == |w.items| then [] else Written(w.items[i]) + WrittenFrom(w, i + 1)
  }

  /** What the reader's caller gets for it. */
  function Meaning(w: Wire): Reply {
    match w
    case SimpleString(text) => Text(text)
    case BulkString(text) => Text(text)
    case Integer(n) => Number(n)
    case NullBulk => Nil
    case NullArray => Nil
    case Array(items) => List(seq(|items|, i requires 0 <= i < |items| => Meaning(items[i])))
  }

  /** A simple string has no line feed; a bulk string has a length Python can represent. */
  predicate Sendable(w: Wire) {
    match w
    case SimpleString(text) => '\n' !in text
    case BulkString(text) => |Encode(text)| <= SSIZE_MAX
    case Array(items) => forall i | 0 <= i < |items| :: Sendable(items[i])
    case _ => true
  }

  lemma {:induction false} NoLineFeed(text: string)
    requires '\n' !in text
    ensures LF !in Encode(text)
  {
    if text != "" {
      NoLineFeed(text[1..]);
      assert text[0] != '\n' && text[0] in text;
      assert LF !in EncodeChar(text[0]);
    }
  }

  lemma TextLine(text: string, tail: Bytes)
    requires '\n' !in text
    ensures TextLineOf(Encode(text) + CRLF + tail) == Outcome(Ok(text), tail)
  {
    NoLineFeed(text);
    LineOfClean(Encode(text), tail);
    DecodeOfEncode(text);
  }

  lemma PyIntOfNegative(n: nat)
    ensures PyInt([MINUS] + Numeral(n)) == Some(0 - n)
  {
    var digits := Numeral(n);
    var s := [MINUS] + digits;
    assert s[|s| - 1] == digits[|digits| - 1] && IsDigitByte(digits[|digits| - 1]);
    assert StripRight(StripLeft(s)) == s && s[1..] == digits;
    PyDigitsOfAscii(Decimal.Print(n));
    Decimal.ValueOfPrint(n);
  }

  lemma SignedLine(n: int, tail: Bytes)
    ensures IntLineOf(Signed(n) + CRLF + tail) == Outcome(Ok(n), tail)
  {
    if n >= 0 {
      IntLineOfNumeral(n, tail);
    } else {
      PyIntOfNegative(-n);
      LineOfClean(Signed(n), tail);
    }
  }

  /** What follows the type byte of a one-line reply. */
  lemma AfterType(kind: byte, line: Bytes, tail: Bytes)
    ensures ([kind] + line + CRLF + tail)[0] == kind && ([kind] + line + CRLF + tail)[1..] == line + CRLF + tail
  {
  }

  lemma SimpleReply(text: string, tail: Bytes)
    requires '\n' !in text
    ensures ReplyOf([PLUS] + Encode(text) + CRLF + tail) == Outcome(Ok(Text(text)), tail)
  {
    AfterType(PLUS, Encode(text), tail);
    TextLine(text, tail);
  }

  lemma NumberReply(n: int, tail: Bytes)
    ensures ReplyOf([COLON] + Signed(n) + CRLF + tail) == Outcome(Ok(Number(n)), tail)
  {
    AfterType(COLON, Signed(n), tail);
    SignedLine(n, tail);
  }

  lemma NullReply(kind: byte, tail: Bytes)
    requires kind == DOLLAR || kind == STAR
    ensures ReplyOf([kind] + Signed(-1) + CRLF + tail) == Outcome(Ok(Nil), tail)
  {
    AfterType(kind, Signed(-1), tail);
    SignedLine(-1, tail);
  }

  lemma OneLineReplies(w: Wire, tail: Bytes)
    requires Sendable(w) && (w.SimpleString? || w.Integer? || w.NullBulk? || w.NullArray?)
    ensures ReplyOf(Written(w) + tail) == Outcome(Ok(Meaning(w)), tail)
  {
    match w {
      case SimpleString(text) => SimpleReply(text, tail);
      case Integer(n) => NumberReply(n, tail);
      case NullBulk => NullReply(DOLLAR, tail);
      case NullArray => NullReply(STAR, tail);
    }
  }

  function StreamsOf(w: Wire, tail: Bytes): (streams: seq<Bytes>)
    requires w.Array?
    ensures |streams| == |w.items| + 1
  {
    seq(|w.items| + 1, k requires 0 <= k <= |w.items| => WrittenFrom(w, k) + tail)
  }

  lemma ItemLeadsOn(w: Wire, k: nat, tail: Bytes)
    requires w.Array? && k < |w.items|
    requires ReplyOf(Written(w.items[k]) + (WrittenFrom(w, k + 1) + tail))
             == Outcome(Ok(Meaning(w.items[k])), WrittenFrom(w, k + 1) + tail)
    ensures LeadsOn(ReplyOf, StreamsOf(w, tail), Meaning(w).items, k)
  {
    ConcatAssoc(Written(w.items[k]), WrittenFrom(w, k + 1), tail);
  }

  lemma ArrayRead(w: Wire, tail: Bytes)
    requires w.Array?
    requires forall k | 0 <= k < |w.items| :: LeadsOn(ReplyOf, StreamsOf(w, tail), Meaning(w).items, k)
    ensures ReplyOf(Written(w) + tail) == Outcome(Ok(Meaning(w)), tail)
  {
    var n, replies, streams := |w.items|, Meaning(w).items, StreamsOf(w, tail);
    ReadOneByOne(ReplyOf, streams, replies, 0, n);
    RepliesAreMany(streams[0], n);
    assert replies[0..] == replies && streams[n] == [] + tail == tail;
    ConcatAssoc(Header(STAR, n), WrittenFrom(w, 0), tail);
    HeaderLine(STAR, n, streams[0]);
    ArrayReply(Written(w) + tail, streams[0], n, replies, tail);
  }

  /** Whatever a server sends, nested to any depth and followed by anything, is
      read back as what it means, and exactly what followed is left. */
  lemma {:induction false} ReplyRoundTrip(w: Wire, tail: Bytes)
    requires Sendable(w)
    ensures ReplyOf(Written(w) + tail) == Outcome(Ok(Meaning(w)), tail)
    decreases w
  {
    if w.BulkString? {
      ReplyOfBulk(w.text, tail);
    } else if w.Array? {
      forall k | 0 <= k < |w.items| ensures LeadsOn(ReplyOf, StreamsOf(w, tail), Meaning(w).items, k) {
        ReplyRoundTrip(w.items[k], WrittenFrom(w, k + 1) + tail);
        ItemLeadsOn(w, k, tail);
      }
      ArrayRead(w, tail);
    } else {
      OneLineReplies(w, tail);
    }
  }

  /** No reply is the beginning of another with another meaning. */
  lemma RepliesAreUnambiguous(a: Wire, b: Wire, s: Bytes, t: Bytes)
    requires Sendable(a) && Sendable(b) && Written(a) + s == Written(b) + t
    ensures Meaning(a) == Meaning(b) && s == t
  {
    ReplyRoundTrip(a, s);
    ReplyRoundTrip(b, t);
  }

  lemma Digit(n: nat)
    requires n < 10
    ensures Numeral(n) == [0x30 + n]
  {
  }

  lemma EncodedAscii(c: char, rest: string)
    requires c as int < 0x80
    ensures Encode([c] + rest) == [c as int] + Encode(rest)
  {
    assert ([c] + rest)[1..] == rest;
  }

  lemma ExampleTexts()
    ensures Encode("GET") == [0x47, 0x45, 0x54] && Encode("k") == [0x6B]
    ensures Encode("OK") == [0x4F, 0x4B] && Encode("E") == [0x45]
  {
    EncodedAscii('T', "");
    EncodedAscii('E', "T");
    EncodedAscii('G', "ET");
    EncodedAscii('k', "");
    EncodedAscii('K', "");
    EncodedAscii('O', "K");
    EncodedAscii('E', "");
    assert ['G'] + "ET" == "GET" && ['E'] + "T" == "ET" && ['O'] + "K" == "OK";
  }

  lemma BulkExample(text: string, bytes: Bytes)
    requires Encode(text) == bytes && |bytes| < 10
    ensures Bulk(text) == [0x24, 0x30 + |bytes|, 13, 10] + bytes + [13, 10]
  {
    Digit(|bytes|);
  }

  /** On the wire: `GET k` as a command … */
  lemma CommandExample()
    ensures Encoded(["GET", "k"])
         == [0x2A, 0x32, 13, 10, 0x24, 0x33, 13, 10, 0x47, 0x45, 0x54, 13, 10, 0x24, 0x31, 13, 10, 0x6B, 13, 10]
  {
    ExampleTexts();
    BulkExample("GET", [0x47, 0x45, 0x54]);
    BulkExample("k", [0x6B]);
    TwoParts("GET", "k");
    Digit(2);
  }

  lemma TwoParts(a: string, b: string)
    ensures Encoded([a, b]) == Header(STAR, 2) + (Bulk(a) + Bulk(b))
  {
    var parts := [a, b];
    assert Bulks(parts, 2) == [] && Bulks(parts, 1) == Bulk(b) && Bulks(parts, 0) == Bulk(a) + Bulk(b);
  }

  /** … and the one-line replies. */
  lemma ReplyExamples()
    ensures Written(SimpleString("OK")) == [0x2B, 0x4F, 0x4B, 13, 10]
    ensures Written(Integer(-7)) == [0x3A, 0x2D, 0x37, 13, 10]
    ensures Written(NullBulk) == [0x24, 0x2D, 0x31, 13, 10] && Written(NullArray) == [0x2A, 0x2D, 0x31, 13, 10]
    ensures ErrorLine("E") == [0x2D, 0x45, 13, 10]
  {
    ExampleTexts();
    Digit(1);
    Digit(7);
  }

  // ---- Errors -------------------------------------------------------------

  function ErrorLine(message: string): Bytes {
    [MINUS] + Encode(message) + CRLF
  }

  lemma ErrorIsRaised(message: string, tail: Bytes)
    requires '\n' !in message
    ensures ReplyOf(ErrorLine(message) + tail) == Outcome(Err(ErrorReply(message)), tail)
  {
    AfterType(MINUS, Encode(message), tail);
    TextLine(message, tail);
  }

  lemma {:induction false} ReadUpToError(
      read: Bytes -> Outcome<Reply>, streams: seq<Bytes>, replies: seq<Reply>, i: nat, n: nat)
    requires |streams| == |replies| + 1 && i + n > |replies| && i <= |replies|
    requires forall k | 0 <= k < |replies| :: LeadsOn(read, streams, replies, k)
    requires read(streams[|replies|]).result.Err?
    ensures Many(read, streams[i], n)
            == Outcome(Err(read(streams[|replies|]).result.error), read(streams[|replies|]).rest)
    decreases n
  {
    if i < |replies| {
      assert LeadsOn(read, streams, replies, i);
      ReadUpToError(read, streams, replies, i + 1, n - 1);
    }
  }

  /** An error inside an array is raised in place of the array, and what follows
      the error is left on the stream. */
  lemma ErrorEndsArray(items: seq<Wire>, n: nat, message: string, tail: Bytes)
    requires Sendable(Array(items)) && |items| < n && '\n' !in message
    ensures
      ReplyOf(Header(STAR, n) + (WrittenFrom(Array(items), 0) + (ErrorLine(message) + tail)))
      == Outcome(Err(ErrorReply(message)), tail)
  {
    var w, more := Array(items), ErrorLine(message) + tail;
    forall k | 0 <= k < |items| ensures LeadsOn(ReplyOf, StreamsOf(w, more), Meaning(w).items, k) {
      ReplyRoundTrip(items[k], WrittenFrom(w, k + 1) + more);
      ItemLeadsOn(w, k, more);
    }
    ErrorIsRaised(message, tail);
    ItemsThenError(w, n, ErrorReply(message), more, tail);
    ArrayFails(WrittenFrom(w, 0) + more, n, ErrorReply(message), tail);
  }

  lemma ItemsThenError(w: Wire, n: nat, error: RespError, more: Bytes, tail: Bytes)
    requires w.Array? && |w.items| < n && ReplyOf(more) == Outcome(Err(error), tail)
    requires forall k | 0 <= k < |w.items| :: LeadsOn(ReplyOf, StreamsOf(w, more), Meaning(w).items, k)
    ensures RepliesOf(WrittenFrom(w, 0) + more, n) == Outcome(Err(error), tail)
  {
    var streams := StreamsOf(w, more);
    assert streams[|w.items|] == [] + more == more;
    ReadUpToError(ReplyOf, streams, Meaning(w).items, 0, n);
    RepliesAreMany(streams[0], n);
  }

  lemma ArrayFails(body: Bytes, n: nat, error: RespError, tail: Bytes)
    requires RepliesOf(body, n) == Outcome(Err(error), tail)
    ensures ReplyOf(Header(STAR, n) + body) == Outcome(Err(error), tail)
  {
    HeaderLine(STAR, n, body);
    assert ReplyOf(Header(STAR, n) + body) == ArrayOf(body, n);
  }
}
