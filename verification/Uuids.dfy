/** UUIDs and their textual forms, as the `uuid` crate reads and writes them
    (RFC 9562, section 4). */
module Uuids {
  import opened Options
  import opened Decimal

  type Nibble = n: nat | n < 16

  /** The 32 hexadecimal digits of a UUID, most significant first. */
  type Uuid = u: seq<Nibble> | |u| == 32 witness seq(32, _ => 0)

  function HexDigits(ns: seq<Nibble>): (s: string)
    ensures |s| == |ns| && forall i :: 0 <= i < |s| ==> s[i] == HexDigit(ns[i])
  {
    if ns == [] then "" else [HexDigit(ns[0])] + HexDigits(ns[1..])
  }

  /** `to_string`: lower-case, hyphenated 8-4-4-4-12. */
  function Format(u: Uuid): (s: string)
    ensures |s| == 36
  {
    HexDigits(u[..8]) + "-" + HexDigits(u[8..12]) + "-" + HexDigits(u[12..16])
    + "-" + HexDigits(u[16..20]) + "-" + HexDigits(u[20..])
  }

  /** A digit of either case. */
  function HexValue(c: char): Option<Nibble> {
    if '0' <= c <= '9' then Some(c as int - '0' as int)
    else if 'a' <= c <= 'f' then Some(c as int - 'a' as int + 10)
    else if 'A' <= c <= 'F' then Some(c as int - 'A' as int + 10)
    else None
  }

  function HexValues(s: string): (r: Option<seq<Nibble>>)
    ensures r.Some? ==> |r.value| == |s|
  {
    if s == "" then Some([])
    else
      var first := HexValue(s[0]);
      var rest := HexValues(s[1..]);
      if first.None? || rest.None? then None else Some([first.value] + rest.value)
  }

  predicate Hyphenated(s: string)
    requires |s| == 36
  {
    s[8] == '-' && s[13] == '-' && s[18] == '-' && s[23] == '-'
  }

  function WithoutHyphens(s: string): (r: string)
    requires |s| == 36
    ensures |r| == 32
  {
    s[..8] + s[9..13] + s[14..18] + s[19..23] + s[24..]
  }

  /** `parse::<Uuid>().ok()`: 32 bare digits, hyphenated, in braces, or as a URN. */
  function Parse(s: string): Option<Uuid> {
    if |s| == 32 then ParseDigits(s)
    else if |s| == 36 && Hyphenated(s) then ParseDigits(WithoutHyphens(s))
    else if |s| == 38 && s[0] == '{' && s[37] == '}' && Hyphenated(s[1..37]) then
      ParseDigits(WithoutHyphens(s[1..37]))
    else if |s| == 45 && s[..9] == "urn:uuid:" && Hyphenated(s[9..]) then ParseDigits(WithoutHyphens(s[9..]))
    else None
  }

  function ParseDigits(s: string): Option<Uuid>
    requires |s| == 32
  {
    match HexValues(s)
    case None => None
    case Some(ns) => Some(ns)
  }

  lemma {:induction false} HexRoundTrip(ns: seq<Nibble>)
    ensures HexValues(HexDigits(ns)) == Some(ns)
  {
    if ns != [] {
      HexRoundTrip(ns[1..]);
      assert HexDigits(ns)[1..] == HexDigits(ns[1..]);
      assert [ns[0]] + ns[1..] == ns;
    }
  }

  lemma FiveGroups(a: string, b: string, c: string, d: string, e: string)
    requires |a| == 8 && |b| == 4 && |c| == 4 && |d| == 4 && |e| == 12
    ensures var s := a + "-" + b + "-" + c + "-" + d + "-" + e;
            |s| == 36 && Hyphenated(s) && WithoutHyphens(s) == a + b + c + d + e
  {
    var s := a + "-" + b + "-" + c + "-" + d + "-" + e;
    assert s[..8] == a;
    assert s[9..13] == b;
    assert s[14..18] == c;
    assert s[19..23] == d;
    assert s[24..] == e;
  }

  lemma {:induction false} HexDigitsConcat(a: seq<Nibble>, b: seq<Nibble>)
    ensures HexDigits(a + b) == HexDigits(a) + HexDigits(b)
  {
  }

  lemma FormatDigits(u: Uuid)
    ensures Hyphenated(Format(u)) && WithoutHyphens(Format(u)) == HexDigits(u)
  {
    FiveGroups(HexDigits(u[..8]), HexDigits(u[8..12]), HexDigits(u[12..16]), HexDigits(u[16..20]), HexDigits(u[20..]));
    HexDigitsConcat(u[..8], u[8..12]);
    HexDigitsConcat(u[..12], u[12..16]);
    HexDigitsConcat(u[..16], u[16..20]);
    HexDigitsConcat(u[..20], u[20..]);
    assert u[..8] + u[8..12] == u[..12] && u[..12] + u[12..16] == u[..16];
    assert u[..16] + u[16..20] == u[..20] && u[..20] + u[20..] == u;
  }

  /** Parsing inverts printing. */
  lemma ParseOfFormat(u: Uuid)
    ensures Parse(Format(u)) == Some(u)
  {
    FormatDigits(u);
    HexRoundTrip(u);
  }

  lemma FormatIsInjective(u: Uuid, v: Uuid)
    requires Format(u) == Format(v)
    ensures u == v
  {
    ParseOfFormat(u);
    ParseOfFormat(v);
  }

  // ---- Exactly what parses ------------------------------------------------

  /** The digits of `u`, each in either case. */
  predicate Spells(d: string, u: Uuid) {
    |d| == 32 && forall i | 0 <= i < 32 ::
      d[i] == HexDigit(u[i]) || (u[i] >= 10 && d[i] == ('A' as int + (u[i] - 10)) as char)
  }

  function WithHyphens(d: string): (s: string)
    requires |d| == 32
    ensures |s| == 36
  {
    d[..8] + "-" + d[8..12] + "-" + d[12..16] + "-" + d[16..20] + "-" + d[20..]
  }

  lemma {:induction false} HexValuesIff(s: string, ns: seq<Nibble>)
    requires |s| == |ns|
    ensures HexValues(s) == Some(ns) <==> forall i | 0 <= i < |s| :: HexValue(s[i]) == Some(ns[i])
  {
    if s != "" {
      HexValuesIff(s[1..], ns[1..]);
      assert ns == [ns[0]] + ns[1..];
      assert forall i | 1 <= i < |s| :: s[i] == s[1..][i - 1] && ns[i] == ns[1..][i - 1];
      assert forall i | 0 <= i < |s| - 1 :: s[1..][i] == s[i + 1] && ns[1..][i] == ns[i + 1];
    }
  }

  lemma DigitsIff(d: string, u: Uuid)
    requires |d| == 32
    ensures ParseDigits(d) == Some(u) <==> Spells(d, u)
  {
    HexValuesIff(d, u);
    forall i | 0 <= i < 32
      ensures HexValue(d[i]) == Some(u[i])
              <==> d[i] == HexDigit(u[i]) || (u[i] >= 10 && d[i] == ('A' as int + (u[i] - 10)) as char)
    {
      HexValueIff(d[i], u[i]);
    }
  }

  lemma HexValueIff(c: char, n: Nibble)
    ensures HexValue(c) == Some(n) <==> c == HexDigit(n) || (n >= 10 && c == ('A' as int + (n - 10)) as char)
  {
  }

  lemma HyphensIff(s: string, d: string)
    requires |d| == 32
    ensures |s| == 36 && Hyphenated(s) && WithoutHyphens(s) == d <==> s == WithHyphens(d)
  {
    FiveGroups(d[..8], d[8..12], d[12..16], d[16..20], d[20..]);
    assert d[..8] + d[8..12] + d[12..16] + d[16..20] + d[20..] == d;
    if |s| == 36 && Hyphenated(s) && WithoutHyphens(s) == d {
      assert d[..8] == s[..8] && d[8..12] == s[9..13] && d[12..16] == s[14..18] && d[16..20] == s[19..23]
          && d[20..] == s[24..];
      assert s == s[..8] + "-" + s[9..13] + "-" + s[14..18] + "-" + s[19..23] + "-" + s[24..];
    }
  }

  /** The spellings of a UUID: 32 digits, hyphenated, hyphenated in braces, and as a URN. */
  predicate Spelling(s: string, d: string)
    requires |d| == 32
  {
    s == d || s == WithHyphens(d) || s == "{" + WithHyphens(d) + "}" || s == "urn:uuid:" + WithHyphens(d)
  }

  /** The digits of a text that may be a spelling. */
  function DigitsOf(s: string): (d: string)
    ensures |d| == 32
  {
    if |s| == 32 then s
    else if |s| == 36 then WithoutHyphens(s)
    else if |s| == 38 then WithoutHyphens(s[1..37])
    else if |s| == 45 then WithoutHyphens(s[9..])
    else seq(32, _ => '-')
  }

  lemma SpellingIff(s: string, d: string)
    requires |d| == 32
    ensures Spelling(s, d) <==>
              && d == DigitsOf(s)
              && (|s| == 32
                  || (|s| == 36 && Hyphenated(s))
                  || (|s| == 38 && s[0] == '{' && s[37] == '}' && Hyphenated(s[1..37]))
                  || (|s| == 45 && s[..9] == "urn:uuid:" && Hyphenated(s[9..])))
  {
    if |s| == 36 {
      HyphensIff(s, d);
    } else if |s| == 38 {
      HyphensIff(s[1..37], d);
      assert s == "{" + WithHyphens(d) + "}" <==> s[0] == '{' && s[37] == '}' && s[1..37] == WithHyphens(d);
    } else if |s| == 45 {
      HyphensIff(s[9..], d);
      assert s == "urn:uuid:" + WithHyphens(d) <==> s[..9] == "urn:uuid:" && s[9..] == WithHyphens(d);
    }
  }

  /** A text names a channel exactly when it is one of the spellings of its digits. */
  lemma ParseIff(s: string, u: Uuid)
    ensures Parse(s) == Some(u) <==> exists d :: Spells(d, u) && Spelling(s, d)
  {
    var d := DigitsOf(s);
    SpellingIff(s, d);
    DigitsIff(d, u);
    if e :| Spells(e, u) && Spelling(s, e) {
      SpellingIff(s, e);
    }
  }
}
