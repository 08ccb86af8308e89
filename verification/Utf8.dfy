/** UTF-8 (RFC 3629, section 3) over Dafny characters, which like Rust's `char`
    are exactly the Unicode scalar values. */
module Utf8 {
  import opened Options
  import opened Sequences

  type byte = b: int | 0 <= b < 256

  predicate IsContinuation(b: byte) {
    0x80 <= b < 0xC0
  }

  /** The number of bytes of a character. */
  function CharLen(c: char): (n: nat)
    ensures 1 <= n <= 4
  {
    if c as int < 0x80 then 1 else if c as int < 0x800 then 2 else if c as int < 0x10000 then 3 else 4
  }

  /** `str::len` in Rust: the number of bytes of a string. */
  function ByteLen(s: string): nat {
    if s == "" then 0 else CharLen(s[0]) + ByteLen(s[1..])
  }

  function EncodeChar(c: char): (bytes: seq<byte>)
    ensures |bytes| == CharLen(c)
    ensures !IsContinuation(bytes[0])
    ensures forall i :: 1 <= i < |bytes| ==> IsContinuation(bytes[i])
  {
    var n := c as int;
    if n < 0x80 then [n]
    else if n < 0x800 then [0xC0 + n / 0x40, 0x80 + n % 0x40]
    else if n < 0x10000 then [0xE0 + n / 0x1000, 0x80 + n / 0x40 % 0x40, 0x80 + n % 0x40]
    else [0xF0 + n / 0x40000, 0x80 + n / 0x1000 % 0x40, 0x80 + n / 0x40 % 0x40, 0x80 + n % 0x40]
  }

  function Encode(s: string): (bytes: seq<byte>)
    ensures |bytes| == ByteLen(s)
  {
    if s == "" then [] else EncodeChar(s[0]) + Encode(s[1..])
  }

  lemma {:induction false} EncodeConcat(a: string, b: string)
    ensures Encode(a + b) == Encode(a) + Encode(b)
  {
    if a == "" {
      assert a + b == b;
    } else {
      var first := EncodeChar(a[0]);
      EncodeConcat(a[1..], b);
      assert (a + b)[1..] == a[1..] + b;
      EncodeCons(a + b);
      EncodeCons(a);
      ConcatAssoc(first, Encode(a[1..]), Encode(b));
    }
  }

  lemma EncodeCons(s: string)
    requires s != ""
    ensures Encode(s) == EncodeChar(s[0]) + Encode(s[1..])
  {
  }

  lemma {:induction false} ByteLenConcat(a: string, b: string)
    ensures ByteLen(a + b) == ByteLen(a) + ByteLen(b)
  {
    if a == "" {
      assert a + b == b;
    } else {
      ByteLenConcat(a[1..], b);
      assert (a + b)[1..] == a[1..] + b;
    }
  }

  lemma SingletonLen(c: char)
    ensures ByteLen([c]) == CharLen(c)
  {
    assert [c][1..] == "";
  }

  lemma {:induction false} AsciiLen(s: string)
    requires forall i :: 0 <= i < |s| ==> s[i] as int < 0x80
    ensures ByteLen(s) == |s|
  {
    if s != "" {
      AsciiLen(s[1..]);
    }
  }

  lemma {:induction false} ByteLenBounds(s: string)
    ensures |s| <= ByteLen(s)
  {
    if s != "" {
      ByteLenBounds(s[1..]);
    }
  }

  // ---- Decoding -----------------------------------------------------------

  predicate IsScalar(n: int) {
    0 <= n < 0xD800 || 0xE000 <= n < 0x110000
  }

  /** The value carried by the six payload bits of a continuation byte. */
  function Payload(b: byte): int {
    b - 0x80
  }

  /** Decode one character, rejecting truncated, overlong and surrogate
      sequences; the second component is the number of bytes it took. */
  function DecodeChar(b: seq<byte>): (r: Option<(char, nat)>)
    ensures r.Some? ==> 1 <= r.value.1 <= |b|
  {
    if b == [] then None
    else if b[0] < 0x80 then Some((b[0] as char, 1))
    else if 0xC2 <= b[0] < 0xE0 && |b| >= 2 && IsContinuation(b[1]) then
      Some((((b[0] - 0xC0) * 0x40 + Payload(b[1])) as char, 2))
    else if 0xE0 <= b[0] < 0xF0 && |b| >= 3 && IsContinuation(b[1]) && IsContinuation(b[2]) then
      var n := (b[0] - 0xE0) * 0x1000 + Payload(b[1]) * 0x40 + Payload(b[2]);
      if n >= 0x800 && IsScalar(n) then Some((n as char, 3)) else None
    else if 0xF0 <= b[0] < 0xF5 && |b| >= 4
            && IsContinuation(b[1]) && IsContinuation(b[2]) && IsContinuation(b[3]) then
      var n := (b[0] - 0xF0) * 0x40000 + Payload(b[1]) * 0x1000 + Payload(b[2]) * 0x40 + Payload(b[3]);
      if n >= 0x10000 && IsScalar(n) then Some((n as char, 4)) else None
    else None
  }

  function Decode(b: seq<byte>): Option<string> {
    if b == [] then Some("")
    else
      var first := DecodeChar(b);
      if first.None? then None
      else
        var rest := Decode(b[first.value.1..]);
        if rest.None? then None else Some([first.value.0] + rest.value)
  }

  lemma DecodeThree(p: int, q: int, r: int, b: seq<byte>)
    requires 0 <= p < 0x10 && 0 <= q < 0x40 && 0 <= r < 0x40
    requires |b| >= 3 && b[0] == 0xE0 + p && b[1] == 0x80 + q && b[2] == 0x80 + r
    requires var n := p * 0x1000 + q * 0x40 + r; 0x800 <= n && IsScalar(n)
    ensures DecodeChar(b) == Some(((p * 0x1000 + q * 0x40 + r) as char, 3))
  {
  }

  lemma DecodeFour(o: int, p: int, q: int, r: int, b: seq<byte>)
    requires 0 <= o < 5 && 0 <= p < 0x40 && 0 <= q < 0x40 && 0 <= r < 0x40
    requires |b| >= 4 && b[0] == 0xF0 + o && b[1] == 0x80 + p && b[2] == 0x80 + q && b[3] == 0x80 + r
    requires var n := o * 0x40000 + p * 0x1000 + q * 0x40 + r; 0x10000 <= n && IsScalar(n)
    ensures DecodeChar(b) == Some(((o * 0x40000 + p * 0x1000 + q * 0x40 + r) as char, 4))
  {
  }

  /** Base-64 digits of a code point. */
  lemma Digits(n: nat)
    requires n < 0x110000
    ensures n < 0x10000 ==> n == n / 0x1000 * 0x1000 + n / 0x40 % 0x40 * 0x40 + n % 0x40
    ensures n == n / 0x40000 * 0x40000 + n / 0x1000 % 0x40 * 0x1000 + n / 0x40 % 0x40 * 0x40 + n % 0x40
    ensures n / 0x40000 < 5 && (n < 0x10000 ==> n / 0x1000 < 0x10)
  {
  }

  lemma DecodeCharOfEncode(c: char, tail: seq<byte>)
    ensures DecodeChar(EncodeChar(c) + tail) == Some((c, |EncodeChar(c)|))
  {
    var n := c as int;
    var e := EncodeChar(c);
    var b := e + tail;
    assert forall i :: 0 <= i < |e| ==> b[i] == e[i];
    Digits(n);
    if n < 0x800 {
    } else if n < 0x10000 {
      DecodeThree(n / 0x1000, n / 0x40 % 0x40, n % 0x40, b);
    } else {
      DecodeFour(n / 0x40000, n / 0x1000 % 0x40, n / 0x40 % 0x40, n % 0x40, b);
    }
  }

  /** Decoding inverts encoding on every string. */
  lemma {:induction false} DecodeOfEncode(s: string)
    ensures Decode(Encode(s)) == Some(s)
  {
    if s != "" {
      var first, rest := EncodeChar(s[0]), Encode(s[1..]);
      DecodeCharOfEncode(s[0], rest);
      assert (first + rest)[|first|..] == rest;
      DecodeOfEncode(s[1..]);
      assert [s[0]] + s[1..] == s;
    }
  }

  lemma EncodeTwoBytes(p: int, q: int)
    requires 2 <= p < 0x20 && 0 <= q < 0x40
    ensures EncodeChar((p * 0x40 + q) as char) == [0xC0 + p, 0x80 + q]
  {
  }

  lemma EncodeThreeBytes(p: int, q: int, r: int)
    requires 0 <= p < 0x10 && 0 <= q < 0x40 && 0 <= r < 0x40
    requires var n := p * 0x1000 + q * 0x40 + r; 0x800 <= n && IsScalar(n)
    ensures EncodeChar((p * 0x1000 + q * 0x40 + r) as char) == [0xE0 + p, 0x80 + q, 0x80 + r]
  {
    var n := p * 0x1000 + q * 0x40 + r;
    assert n / 0x1000 == p && n / 0x40 == p * 0x40 + q && n % 0x40 == r;
  }

  lemma EncodeFourBytes(o: int, p: int, q: int, r: int)
    requires 0 <= o < 5 && 0 <= p < 0x40 && 0 <= q < 0x40 && 0 <= r < 0x40
    requires var n := o * 0x40000 + p * 0x1000 + q * 0x40 + r; 0x10000 <= n && IsScalar(n)
    ensures EncodeChar((o * 0x40000 + p * 0x1000 + q * 0x40 + r) as char) == [0xF0 + o, 0x80 + p, 0x80 + q, 0x80 + r]
  {
    var n := o * 0x40000 + p * 0x1000 + q * 0x40 + r;
    assert n / 0x40000 == o && n / 0x1000 == o * 0x40 + p && n / 0x40 == o * 0x1000 + p * 0x40 + q && n % 0x40 == r;
  }

  /** Whatever is decoded to a character is that character's encoding: overlong,
      truncated and surrogate forms decode to nothing. */
  lemma DecodeCharIsExact(b: seq<byte>)
    requires DecodeChar(b).Some?
    ensures
      var (c, k) := DecodeChar(b).value;
      k == CharLen(c) && b[..k] == EncodeChar(c)
  {
    if b[0] < 0x80 {
    } else if b[0] < 0xE0 {
      EncodeTwoBytes(b[0] - 0xC0, Payload(b[1]));
    } else if b[0] < 0xF0 {
      EncodeThreeBytes(b[0] - 0xE0, Payload(b[1]), Payload(b[2]));
    } else {
      EncodeFourBytes(b[0] - 0xF0, Payload(b[1]), Payload(b[2]), Payload(b[3]));
    }
  }

  lemma {:induction false} EncodeOfDecode(b: seq<byte>)
    requires Decode(b).Some?
    ensures Encode(Decode(b).value) == b
  {
    if b != [] {
      var (c, k) := DecodeChar(b).value;
      DecodeCharIsExact(b);
      EncodeOfDecode(b[k..]);
      EncodeStep(b, c, k, Decode(b[k..]).value);
    }
  }

  lemma EncodeStep(b: seq<byte>, c: char, k: nat, rest: string)
    requires k <= |b| && b[..k] == EncodeChar(c) && b[k..] == Encode(rest)
    ensures Encode([c] + rest) == b
  {
    EncodeCons([c] + rest);
    assert ([c] + rest)[1..] == rest;
    assert b == b[..k] + b[k..];
  }

  /** A byte string decodes to a text exactly when it is that text's encoding. */
  lemma DecodeIsExact(b: seq<byte>, s: string)
    ensures Decode(b) == Some(s) <==> b == Encode(s)
  {
    DecodeOfEncode(s);
    if Decode(b).Some? {
      EncodeOfDecode(b);
    }
  }

  lemma EncodeTwo(c: char, d: char)
    ensures Encode([c, d]) == EncodeChar(c) + EncodeChar(d)
  {
    EncodeCons([c, d]);
    EncodeCons([d]);
    assert [c, d][1..] == [d] && [d][1..] == "";
  }

  /** Examples from section 7 of RFC 3629: a character of one byte and one of
      three, one of two bytes and one of one, and one of four bytes. */
  lemma StandardExamples()
    ensures Encode("A\U{2262}") == [0x41, 0xE2, 0x89, 0xA2]
    ensures Encode("\U{0391}.") == [0xCE, 0x91, 0x2E]
    ensures EncodeChar('\U{233B4}') == [0xF0, 0xA3, 0x8E, 0xB4]
  {
    EncodeTwo('A', '\U{2262}');
    EncodeTwo('\U{0391}', '.');
  }

  // ---- Character boundaries -----------------------------------------------

  /** `str::is_char_boundary`: the end of the text, or a byte that is not a
      continuation byte. */
  predicate IsCharBoundary(s: string, i: nat) {
    i == ByteLen(s) || (i < ByteLen(s) && !IsContinuation(Encode(s)[i]))
  }

  /** Every character prefix ends on a boundary. */
  lemma BoundaryAfterPrefix(s: string, n: nat)
    requires n <= |s|
    ensures ByteLen(s[..n]) <= ByteLen(s)
    ensures IsCharBoundary(s, ByteLen(s[..n]))
  {
    EncodeConcat(s[..n], s[n..]);
    ByteLenConcat(s[..n], s[n..]);
    assert s == s[..n] + s[n..];
    if n < |s| {
      assert Encode(s[n..])[0] == EncodeChar(s[n])[0];
    } else {
      assert s[..n] == s;
    }
  }

  /** Every boundary is the end of exactly one character prefix. */
  lemma {:induction false} PrefixOfBoundary(s: string, i: nat) returns (n: nat)
    requires i <= ByteLen(s) && IsCharBoundary(s, i)
    ensures n <= |s| && ByteLen(s[..n]) == i
  {
    if i == 0 {
      n := 0;
    } else {
      var w := CharLen(s[0]);
      assert Encode(s) == EncodeChar(s[0]) + Encode(s[1..]);
      assert i >= w;
      var m := PrefixOfBoundary(s[1..], i - w);
      n := m + 1;
      assert s[..n][1..] == s[1..][..m];
    }
  }

  lemma PrefixLenMonotone(s: string, m: nat, n: nat)
    requires m <= n <= |s|
    ensures ByteLen(s[..m]) + (n - m) <= ByteLen(s[..n])
  {
    assert s[..n] == s[..m] + s[m..n];
    ByteLenConcat(s[..m], s[m..n]);
    ByteLenBounds(s[m..n]);
  }

  /** At most three bytes separate any offset from the boundary below it. */
  lemma BoundaryWithinThree(s: string, i: nat)
    requires i < ByteLen(s)
    ensures exists j :: (if i < 3 then 0 else i - 3) <= j <= i && IsCharBoundary(s, j)
  {
    var n := CharAt(s, i);
    BoundaryAfterPrefix(s, n);
  }

  /** The index of the character whose encoding covers byte `i`. */
  lemma {:induction false} CharAt(s: string, i: nat) returns (n: nat)
    requires i < ByteLen(s)
    ensures n < |s| && ByteLen(s[..n]) <= i < ByteLen(s[..n]) + CharLen(s[n])
  {
    var w := CharLen(s[0]);
    if i < w {
      n := 0;
    } else {
      var m := CharAt(s[1..], i - w);
      n := m + 1;
      assert s[..n][1..] == s[1..][..m];
    }
  }
}
