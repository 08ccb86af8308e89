/** Reading back the strings that `Payloads` writes (RFC 8259, section 7). */
module JsonStrings {
  import opened Options
  import opened Utf8
  import opened Payloads
  import Decimal
  import Uuids

  /** The character of a two-character escape. */
  function Short(c: char): Option<char> {
    if c == '"' || c == '\\' || c == '/' then Some(c)
    else if c == 'b' then Some(0x08 as char)
    else if c == 't' then Some(0x09 as char)
    else if c == 'n' then Some(0x0A as char)
    else if c == 'f' then Some(0x0C as char)
    else if c == 'r' then Some(0x0D as char)
    else None
  }

  /** The number written by four hexadecimal digits. */
  function FourHex(t: string): Option<nat>
    requires |t| == 4
  {
    match Uuids.HexValues(t)
    case Some(d) =>
      var o: nat, p: nat, q: nat, r: nat := d[0], d[1], d[2], d[3];
      Some(o * 0x1000 + p * 0x100 + q * 0x10 + r)
    case None => None
  }

  /** The first character that a string body stands for, and how much of it that takes. */
  function FirstChar(t: string): (r: Option<(char, nat)>)
    requires t != ""
    ensures r.Some? ==> 1 <= r.value.1 <= |t|
  {
    if t[0] == '\\' then
      if |t| >= 2 && Short(t[1]).Some? then Some((Short(t[1]).value, 2))
      else if |t| >= 6 && t[1] == 'u' && FourHex(t[2..6]).Some? && IsScalar(FourHex(t[2..6]).value)
      then Some((FourHex(t[2..6]).value as char, 6))
      else None
    else if t[0] == '"' || t[0] as int < 0x20 then None
    else Some((t[0], 1))
  }

  /** The text a string body stands for; nothing for one that is not JSON, or that
      writes a character as a surrogate pair. */
  function Unescaped(t: string): Option<string> {
    if t == "" then Some("")
    else
      match FirstChar(t)
      case None => None
      case Some((c, k)) =>
        var rest := Unescaped(t[k..]);
        if rest.None? then None else Some([c] + rest.value)
  }

  lemma HexOfControl(n: nat)
    requires n < 0x20
    ensures FourHex(['0', '0', Decimal.HexDigit(n / 16), Decimal.HexDigit(n % 16)]) == Some(n)
  {
    Uuids.HexRoundTrip([0, 0, n / 16, n % 16]);
    assert Uuids.HexDigits([0, 0, n / 16, n % 16])
        == ['0', '0', Decimal.HexDigit(n / 16), Decimal.HexDigit(n % 16)];
  }

  lemma FirstOfEscape(c: char, rest: string)
    ensures FirstChar(Escape(c) + rest) == Some((c, |Escape(c)|))
  {
    var t := Escape(c) + rest;
    if |Escape(c)| == 6 {
      HexOfControl(c as int);
      assert t[2..6] == ['0', '0', Decimal.HexDigit(c as int / 16), Decimal.HexDigit(c as int % 16)];
    }
  }

  /** What is written between the quotes stands for exactly the text. */
  lemma {:induction false} UnescapedOfEscaped(s: string)
    ensures Unescaped(EscapeAll(s)) == Some(s)
  {
    if s != "" {
      var first, rest := Escape(s[0]), EscapeAll(s[1..]);
      FirstOfEscape(s[0], rest);
      assert (first + rest)[|first|..] == rest;
      UnescapedOfEscaped(s[1..]);
      assert [s[0]] + s[1..] == s;
    }
  }

  /** So two texts are never written the same. */
  lemma EscapedIsInjective(s: string, t: string)
    requires EscapeAll(s) == EscapeAll(t)
    ensures s == t
  {
    UnescapedOfEscaped(s);
    UnescapedOfEscaped(t);
  }

  /** And no control character is left in it. */
  lemma {:induction false} NoControls(s: string)
    ensures forall i | 0 <= i < |EscapeAll(s)| :: EscapeAll(s)[i] as int >= 0x20
  {
    if s != "" {
      NoControls(s[1..]);
      assert forall i | 0 <= i < |Escape(s[0])| :: Escape(s[0])[i] as int >= 0x20;
    }
  }
}
