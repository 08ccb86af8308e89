/** Eliding the middle of one string leaf of a telemetry payload
    (crates/buzz-acp/src/lib.rs:717-788). */
module Elision {
  import opened Decimal
  import opened Sequences
  import opened Utf8

  /** Bytes of head and of tail that an elided leaf retains. */
  const RETAIN := 3000

  /** `format!("…[elided {removed} bytes]…")`. */
  function Marker(removed: nat): string {
    Opening() + Print(removed) + Closing()
  }

  function Opening(): string {
    "\U{2026}[elided "
  }

  function Closing(): string {
    " bytes]\U{2026}"
  }

  // ---- Where to cut -------------------------------------------------------

  /** The number of characters in the longest prefix of at most `budget` bytes. */
  function HeadChars(s: string, budget: nat): (n: nat)
    ensures n <= |s|
  {
    if s == "" || CharLen(s[0]) > budget then 0
    else 1 + HeadChars(s[1..], budget - CharLen(s[0]))
  }

  /** The start of the longest suffix of at most `budget` bytes. */
  function TailStart(s: string, budget: nat): (n: nat)
    ensures n <= |s|
  {
    if s == "" || CharLen(s[|s| - 1]) > budget then |s|
    else TailStart(s[..|s| - 1], budget - CharLen(s[|s| - 1]))
  }

  lemma {:induction false} HeadCharsIsLongest(s: string, budget: nat)
    ensures ByteLen(s[..HeadChars(s, budget)]) <= budget
    ensures HeadChars(s, budget) < |s| ==>
              budget < ByteLen(s[..HeadChars(s, budget)]) + CharLen(s[HeadChars(s, budget)])
  {
    var n := HeadChars(s, budget);
    if n > 0 {
      HeadCharsIsLongest(s[1..], budget - CharLen(s[0]));
      assert s[..n][1..] == s[1..][..n - 1];
    }
  }

  lemma ByteLenSnoc(s: string)
    requires s != ""
    ensures ByteLen(s) == ByteLen(s[..|s| - 1]) + CharLen(s[|s| - 1])
  {
    ByteLenConcat(s[..|s| - 1], [s[|s| - 1]]);
    assert s == s[..|s| - 1] + [s[|s| - 1]];
    SingletonLen(s[|s| - 1]);
  }

  lemma {:induction false} TailStartIsLongest(s: string, budget: nat)
    ensures ByteLen(s[TailStart(s, budget)..]) <= budget
    ensures TailStart(s, budget) > 0 ==>
              budget < ByteLen(s[TailStart(s, budget)..]) + CharLen(s[TailStart(s, budget) - 1])
  {
    var n := TailStart(s, budget);
    if s != "" && CharLen(s[|s| - 1]) <= budget {
      TailStartIsLongest(s[..|s| - 1], budget - CharLen(s[|s| - 1]));
      assert s[n..][..|s[n..]| - 1] == s[..|s| - 1][n..];
      ByteLenSnoc(s[n..]);
    }
  }

  /** Any prefix that fits is no longer than the longest one. */
  lemma PrefixFitsInHead(s: string, n: nat, budget: nat)
    requires n <= |s| && ByteLen(s[..n]) <= budget
    ensures n <= HeadChars(s, budget)
  {
    var h := HeadChars(s, budget);
    HeadCharsIsLongest(s, budget);
    if h < n {
      assert s[..h + 1][..h] == s[..h];
      ByteLenSnoc(s[..h + 1]);
      PrefixLenMonotone(s, h + 1, n);
    }
  }

  lemma SuffixFitsInTail(s: string, n: nat, budget: nat)
    requires n <= |s| && ByteLen(s[n..]) <= budget
    ensures TailStart(s, budget) <= n
  {
    var t := TailStart(s, budget);
    TailStartIsLongest(s, budget);
    if n < t {
      assert s[n..] == s[n..t - 1] + ([s[t - 1]] + s[t..]);
      ByteLenConcat(s[n..t - 1], [s[t - 1]] + s[t..]);
      ByteLenConcat([s[t - 1]], s[t..]);
      SingletonLen(s[t - 1]);
    }
  }

  lemma HeadCharsUnique(s: string, n: nat, budget: nat)
    requires n <= |s| && ByteLen(s[..n]) <= budget
    requires n < |s| ==> budget < ByteLen(s[..n]) + CharLen(s[n])
    ensures HeadChars(s, budget) == n
  {
    var h := HeadChars(s, budget);
    PrefixFitsInHead(s, n, budget);
    HeadCharsIsLongest(s, budget);
    if n < h {
      assert s[..n + 1][..n] == s[..n];
      ByteLenSnoc(s[..n + 1]);
      PrefixLenMonotone(s, n + 1, h);
    }
  }

  lemma TailStartUnique(s: string, n: nat, budget: nat)
    requires n <= |s| && ByteLen(s[n..]) <= budget
    requires n > 0 ==> budget < ByteLen(s[n..]) + CharLen(s[n - 1])
    ensures TailStart(s, budget) == n
  {
    var t := TailStart(s, budget);
    SuffixFitsInTail(s, n, budget);
    TailStartIsLongest(s, budget);
    if t < n {
      assert s[t..] == s[t..n - 1] + ([s[n - 1]] + s[n..]);
      ByteLenConcat(s[t..n - 1], [s[n - 1]] + s[n..]);
      ByteLenConcat([s[n - 1]], s[n..]);
      SingletonLen(s[n - 1]);
    }
  }

  /** The first and the last-but-retained character of the elided middle. */
  function CutStart(s: string): (n: nat)
    ensures n <= |s|
  {
    HeadChars(s, RETAIN)
  }

  function CutEnd(s: string): (n: nat)
    ensures CutStart(s) <= n <= |s|
  {
    var t := TailStart(s, RETAIN);
    if t < CutStart(s) then CutStart(s) else t
  }

  function Removed(s: string): nat {
    ByteLen(s[CutStart(s)..CutEnd(s)])
  }

  // ---- The byte-offset search of the source -------------------------------

  /** Steps down from `limit` to the nearest character boundary. */
  method FloorCharBoundary(s: string, limit: nat) returns (i: nat)
    requires limit <= ByteLen(s)
    ensures i <= limit && IsCharBoundary(s, i)
    ensures forall j :: i < j <= limit ==> !IsCharBoundary(s, j)
    ensures limit - i <= 3
  {
    i := limit;
    while i > 0 && !IsCharBoundary(s, i)
      invariant i <= limit
      invariant forall j :: i < j <= limit ==> !IsCharBoundary(s, j)
    {
      i := i - 1;
    }
    BoundaryAfterPrefix(s, 0);
    if limit < ByteLen(s) {
      BoundaryWithinThree(s, limit);
      var j :| (if limit < 3 then 0 else limit - 3) <= j <= limit && IsCharBoundary(s, j);
      assert j <= i;
    } else {
      assert IsCharBoundary(s, limit);
    }
  }

  /** Steps up from `limit` to the nearest character boundary. */
  method CeilCharBoundary(s: string, limit: nat) returns (i: nat)
    requires limit <= ByteLen(s)
    ensures limit <= i <= ByteLen(s) && IsCharBoundary(s, i)
    ensures forall j :: limit <= j < i ==> !IsCharBoundary(s, j)
  {
    i := limit;
    while i < ByteLen(s) && !IsCharBoundary(s, i)
      invariant limit <= i <= ByteLen(s)
      invariant forall j :: limit <= j < i ==> !IsCharBoundary(s, j)
    {
      i := i + 1;
    }
  }

  /** The byte offsets the source cuts at are the byte lengths of the longest
      prefix and up to the longest suffix that fit in `RETAIN`. */
  method ElisionBoundaries(s: string) returns (headEnd: nat, tailStart: nat)
    ensures headEnd == ByteLen(s[..CutStart(s)])
    ensures tailStart == ByteLen(s[..CutEnd(s)])
    ensures headEnd <= tailStart <= ByteLen(s)
    ensures IsCharBoundary(s, headEnd) && IsCharBoundary(s, tailStart)
  {
    var len := ByteLen(s);
    headEnd := FloorCharBoundary(s, if RETAIN < len then RETAIN else len);
    tailStart := CeilCharBoundary(s, if len < RETAIN then 0 else len - RETAIN);
    HeadOffset(s, headEnd);
    TailOffset(s, tailStart);
    var t := TailStart(s, RETAIN);
    if tailStart < headEnd {
      if t > CutStart(s) {
        PrefixLenMonotone(s, CutStart(s), t);
      }
      tailStart := headEnd;
    } else if t < CutStart(s) {
      PrefixLenMonotone(s, t, CutStart(s));
    }
    BoundaryAfterPrefix(s, CutEnd(s));
    PrefixLenMonotone(s, CutStart(s), CutEnd(s));
  }

  lemma HeadOffset(s: string, i: nat)
    requires i <= RETAIN && i <= ByteLen(s) && IsCharBoundary(s, i)
    requires forall j :: i < j <= RETAIN && j <= ByteLen(s) ==> !IsCharBoundary(s, j)
    ensures i == ByteLen(s[..CutStart(s)])
  {
    var h := CutStart(s);
    HeadCharsIsLongest(s, RETAIN);
    BoundaryAfterPrefix(s, h);
    var n := PrefixOfBoundary(s, i);
    PrefixFitsInHead(s, n, RETAIN);
    PrefixLenMonotone(s, n, h);
  }

  lemma TailOffset(s: string, i: nat)
    requires i <= ByteLen(s) <= i + RETAIN && IsCharBoundary(s, i)
    requires forall j :: 0 <= j < i && ByteLen(s) <= j + RETAIN ==> !IsCharBoundary(s, j)
    ensures i == ByteLen(s[..TailStart(s, RETAIN)])
  {
    var t := TailStart(s, RETAIN);
    TailStartIsLongest(s, RETAIN);
    BoundaryAfterPrefix(s, t);
    SplitLen(s, t);
    var n := PrefixOfBoundary(s, i);
    SplitLen(s, n);
    SuffixFitsInTail(s, n, RETAIN);
    PrefixLenMonotone(s, t, n);
  }

  lemma SplitLen(s: string, n: nat)
    requires n <= |s|
    ensures ByteLen(s) == ByteLen(s[..n]) + ByteLen(s[n..])
  {
    assert s == s[..n] + s[n..];
    ByteLenConcat(s[..n], s[n..]);
  }

  // ---- Eliding ------------------------------------------------------------

  function Elide(s: string): string {
    s[..CutStart(s)] + Marker(Removed(s)) + s[CutEnd(s)..]
  }

  /** `leaf_shrinks`: eliding yields a strictly shorter raw string. */
  predicate Shrinks(s: string) {
    && CutStart(s) < CutEnd(s)
    && ByteLen(s[..CutStart(s)]) + ByteLen(Marker(Removed(s))) + ByteLen(s[CutEnd(s)..]) < ByteLen(s)
  }

  lemma MarkerLen(n: nat)
    ensures ByteLen(Marker(n)) == 21 + |Print(n)|
  {
    ByteLenConcat(Opening() + Print(n), Closing());
    ByteLenConcat(Opening(), Print(n));
    OpeningLen();
    ClosingLen();
    AsciiLen(Print(n));
  }

  lemma OpeningLen()
    ensures ByteLen(Opening()) == 11
  {
    var rest := Opening()[1..];
    AsciiLen(rest);
    ByteLenConcat(['\U{2026}'], rest);
    SingletonLen('\U{2026}');
    assert Opening() == ['\U{2026}'] + rest;
  }

  lemma ClosingLen()
    ensures ByteLen(Closing()) == 10
  {
    var front := Closing()[..7];
    AsciiLen(front);
    ByteLenConcat(front, ['\U{2026}']);
    SingletonLen('\U{2026}');
    assert Closing() == front + ['\U{2026}'];
  }


  /** The three parts of a leaf add up. */
  lemma PartsLen(s: string)
    ensures ByteLen(s) == ByteLen(s[..CutStart(s)]) + Removed(s) + ByteLen(s[CutEnd(s)..])
    ensures ByteLen(Elide(s))
         == ByteLen(s[..CutStart(s)]) + ByteLen(Marker(Removed(s))) + ByteLen(s[CutEnd(s)..])
  {
    var h, m := CutStart(s), CutEnd(s);
    SplitLen(s, m);
    SplitLen(s[..m], h);
    assert s[..m][..h] == s[..h] && s[..m][h..] == s[h..m];
    ByteLenConcat(s[..h] + Marker(Removed(s)), s[m..]);
    ByteLenConcat(s[..h], Marker(Removed(s)));
  }

  /** A leaf shrinks exactly when its marker is shorter than what it replaces. */
  lemma ShrinksIffMarkerShorter(s: string)
    ensures Shrinks(s) <==> 21 + |Print(Removed(s))| < Removed(s)
    ensures Shrinks(s) <==> ByteLen(Elide(s)) < ByteLen(s)
  {
    PartsLen(s);
    MarkerLen(Removed(s));
    ByteLenBounds(s[CutStart(s)..CutEnd(s)]);
  }

  /** What stands in an elided leaf: its own head and tail, and between them the
      number of bytes left out, as a numeral without leading zeros. */
  lemma ElidedMeaning(s: string) returns (head: string, middle: string, tail: string, numeral: string)
    ensures s == head + middle + tail
    ensures Elide(s) == head + "\U{2026}[elided " + numeral + " bytes]\U{2026}" + tail
    ensures (forall i | 0 <= i < |numeral| :: IsDigit(numeral[i])) && Value(numeral) == ByteLen(middle)
    ensures numeral != "" && (|numeral| > 1 ==> numeral[0] != '0')
    ensures ByteLen(head) <= 3000 && ByteLen(tail) <= 3000
    ensures middle != "" ==> ByteLen(head) >= 2997 && ByteLen(tail) >= 2997
  {
    var h, m := CutStart(s), CutEnd(s);
    head, middle, tail, numeral := s[..h], s[h..m], s[m..], Print(Removed(s));
    ValueOfPrint(Removed(s));
    EndsFit(s);
    ThreeParts(s, h, m);
    ElidedText(head, numeral, tail);
    assert Elide(s) == head + (Opening() + numeral + Closing()) + tail;
  }

  lemma EndsFit(s: string)
    ensures ByteLen(s[..CutStart(s)]) <= 3000 && ByteLen(s[CutEnd(s)..]) <= 3000
    ensures CutStart(s) < CutEnd(s) ==> ByteLen(s[..CutStart(s)]) >= 2997 && ByteLen(s[CutEnd(s)..]) >= 2997
  {
    HeadFits(s, RETAIN);
    TailFits(s, RETAIN);
    ShorterSuffix(s, TailStart(s, RETAIN), CutEnd(s));
  }

  lemma HeadFits(s: string, budget: nat)
    requires budget >= 3
    ensures ByteLen(s[..HeadChars(s, budget)]) <= budget
    ensures HeadChars(s, budget) < |s| ==> ByteLen(s[..HeadChars(s, budget)]) >= budget - 3
  {
    HeadCharsIsLongest(s, budget);
  }

  lemma TailFits(s: string, budget: nat)
    requires budget >= 3
    ensures ByteLen(s[TailStart(s, budget)..]) <= budget
    ensures TailStart(s, budget) > 0 ==> ByteLen(s[TailStart(s, budget)..]) >= budget - 3
  {
    TailStartIsLongest(s, budget);
  }

  lemma ShorterSuffix(s: string, t: nat, m: nat)
    requires t <= m <= |s|
    ensures ByteLen(s[m..]) <= ByteLen(s[t..])
  {
    SplitLen(s[t..], m - t);
    assert s[t..][m - t..] == s[m..];
  }

  lemma ThreeParts(s: string, h: nat, m: nat)
    requires h <= m <= |s|
    ensures s == s[..h] + s[h..m] + s[m..]
  {
  }

  lemma ElidedText(head: string, numeral: string, tail: string)
    ensures head + (Opening() + numeral + Closing()) + tail
            == head + "\U{2026}[elided " + numeral + " bytes]\U{2026}" + tail
  {
  }

  /** A leaf that shrinks keeps at least 2,997 and at most 3,000 bytes of its
      own head and of its own tail. */
  lemma RetainedBytes(s: string)
    requires Shrinks(s)
    ensures RETAIN - 3 <= ByteLen(s[..CutStart(s)]) <= RETAIN
    ensures RETAIN - 3 <= ByteLen(s[CutEnd(s)..]) <= RETAIN
    ensures CutEnd(s) == TailStart(s, RETAIN)
  {
    HeadCharsIsLongest(s, RETAIN);
    TailStartIsLongest(s, RETAIN);
  }

  // ---- Eliding again ------------------------------------------------------

  /** An elided leaf still has all it retained at both ends, so a second elision
      can only cut inside the first marker. */
  lemma SecondCutInsideMarker(s: string)
    requires Shrinks(s)
    ensures |Elide(s)| == CutStart(s) + |Marker(Removed(s))| + (|s| - CutEnd(s))
    ensures CutStart(s) <= CutStart(Elide(s))
    ensures TailStart(Elide(s), RETAIN) <= CutStart(s) + |Marker(Removed(s))|
  {
    var h, m, e := CutStart(s), CutEnd(s), Elide(s);
    var k := |Marker(Removed(s))|;
    RetainedBytes(s);
    assert e[..h] == s[..h];
    assert e[h + k..] == s[m..];
    PrefixFitsInHead(e, h, RETAIN);
    SuffixFitsInTail(e, h + k, RETAIN);
  }


  /** 1 when an end retained 2,997 bytes, leaving room for the 3-byte ellipsis
      of the first marker, else 0. */
  function Slack(retained: nat): nat {
    if retained == RETAIN - 3 then 1 else 0
  }

  lemma MarkerEnds(n: nat)
    ensures |Marker(n)| > 2
    ensures Marker(n)[0] == '\U{2026}' && Marker(n)[1] == '['
    ensures Marker(n)[|Marker(n)| - 1] == '\U{2026}' && Marker(n)[|Marker(n)| - 2] == ']'
    ensures CharLen('\U{2026}') == 3 && CharLen('[') == 1 && CharLen(']') == 1
  {
  }

  /** Where the head of `e` ends when 2,997 to 3,000 bytes of it are followed by
      an ellipsis and a one-byte character. */
  lemma HeadBeforeMarker(e: string, h: nat)
    requires h + 2 <= |e| && RETAIN - 3 <= ByteLen(e[..h]) <= RETAIN
    requires CharLen(e[h]) == 3 && CharLen(e[h + 1]) == 1
    ensures HeadChars(e, RETAIN) == h + Slack(ByteLen(e[..h]))
  {
    if ByteLen(e[..h]) == RETAIN - 3 {
      assert e[..h + 1][..h] == e[..h];
      ByteLenSnoc(e[..h + 1]);
      HeadCharsUnique(e, h + 1, RETAIN);
    } else {
      HeadCharsUnique(e, h, RETAIN);
    }
  }

  /** Where the tail of `e` starts when 2,997 to 3,000 bytes of it are preceded
      by a one-byte character and an ellipsis. */
  lemma TailAfterMarker(e: string, c: nat)
    requires 2 <= c <= |e| && RETAIN - 3 <= ByteLen(e[c..]) <= RETAIN
    requires CharLen(e[c - 1]) == 3 && CharLen(e[c - 2]) == 1
    ensures TailStart(e, RETAIN) == c - Slack(ByteLen(e[c..]))
  {
    if ByteLen(e[c..]) == RETAIN - 3 {
      assert e[c - 1..][1..] == e[c..];
      TailStartUnique(e, c - 1, RETAIN);
    } else {
      TailStartUnique(e, c, RETAIN);
    }
  }

  /** Removing up to one ellipsis from each end of a marker. */
  lemma MarkerWithoutEnds(m: string, i: nat, j: nat)
    requires i <= 1 && j <= 1 && |m| > 2
    requires m[0] == '\U{2026}' && m[|m| - 1] == '\U{2026}'
    ensures ByteLen(m[i..|m| - j]) == ByteLen(m) - 3 * i - 3 * j
  {
    var k := |m| - j;
    SplitLen(m, k);
    SplitLen(m[..k], i);
    assert m[..k][..i] == m[..i] && m[..k][i..] == m[i..k];
    SingletonLen('\U{2026}');
    assert m[..i] == if i == 0 then "" else ['\U{2026}'];
    assert m[k..] == if j == 0 then "" else ['\U{2026}'];
  }

  /** What is removed from a text whose ends, of 2,997 to 3,000 bytes each, stand
      around a marker at characters `h` to `c`. */
  lemma RemovedBetweenEnds(e: string, h: nat, c: nat)
    requires h + 2 < c <= |e|
    requires RETAIN - 3 <= ByteLen(e[..h]) <= RETAIN && RETAIN - 3 <= ByteLen(e[c..]) <= RETAIN
    requires e[h] == '\U{2026}' && CharLen(e[h + 1]) == 1
    requires e[c - 1] == '\U{2026}' && CharLen(e[c - 2]) == 1
    ensures Removed(e) == ByteLen(e[h..c]) - 3 * Slack(ByteLen(e[..h])) - 3 * Slack(ByteLen(e[c..]))
  {
    HeadBeforeMarker(e, h);
    TailAfterMarker(e, c);
    var i, j := Slack(ByteLen(e[..h])), Slack(ByteLen(e[c..]));
    var m := e[h..c];
    assert m[0] == e[h] && m[|m| - 1] == e[c - 1];
    MarkerWithoutEnds(m, i, j);
    SliceOfSlice(e, h, c, i, c - h - j);
  }

  /** A second elision removes the first marker, less an ellipsis at each end
      that had room for it. */
  lemma RemovedAgainExactly(s: string)
    requires Shrinks(s)
    ensures Removed(Elide(s)) == 21 + |Print(Removed(s))|
                               - 3 * Slack(ByteLen(s[..CutStart(s)])) - 3 * Slack(ByteLen(s[CutEnd(s)..]))
  {
    var e, m := Elide(s), Marker(Removed(s));
    var h := CutStart(s);
    var c := h + |m|;
    RetainedBytes(s);
    MarkerEnds(Removed(s));
    MarkerLen(Removed(s));
    Parts(s[..h], m, s[CutEnd(s)..]);
    assert e[h] == m[0] && e[h + 1] == m[1] && e[h + (|m| - 1)] == m[|m| - 1] && e[h + (|m| - 2)] == m[|m| - 2];
    RemovedBetweenEnds(e, h, c);
  }

  /** Lengths fit a 64-bit `usize`. */
  const USIZE_LIMIT := 0x1_0000_0000_0000_0000

  function Pow10(k: nat): nat {
    if k == 0 then 1 else 10 * Pow10(k - 1)
  }

  lemma {:induction false} PrintFitsIn(n: nat, k: nat)
    requires k >= 1 && n < Pow10(k)
    ensures |Print(n)| <= k
  {
    if n >= 10 {
      PrintFitsIn(n / 10, k - 1);
    }
  }

  /** No leaf can be elided a third time. */
  lemma NeverThrice(s: string)
    requires ByteLen(s) < USIZE_LIMIT
    requires Shrinks(s) && Shrinks(Elide(s))
    ensures !Shrinks(Elide(Elide(s)))
  {
    var e := Elide(s);
    PartsLen(s);
    assert Pow10(7) == 10000000 && Pow10(14) == 100000000000000 && Pow10(20) == 100000000000000000000;
    PrintFitsIn(Removed(s), 20);
    RemovedAgainExactly(s);
    ShrinksIffMarkerShorter(e);
    PrintWidth(Removed(e));
    RemovedAgainExactly(e);
    var f := Elide(e);
    ShrinksIffMarkerShorter(f);
    PrintWidth(Removed(f));
  }

  /** The documented claim that an elided leaf is never elided again fails for
      exactly these leaves. */
  lemma ElidedAgainIff(s: string)
    requires ByteLen(s) < USIZE_LIMIT && Shrinks(s)
    ensures Shrinks(Elide(s)) <==>
            |Print(Removed(s))| >= 3 + 3 * Slack(ByteLen(s[..CutStart(s)])) + 3 * Slack(ByteLen(s[CutEnd(s)..]))
  {
    PartsLen(s);
    assert Pow10(7) == 10000000 && Pow10(14) == 100000000000000 && Pow10(20) == 100000000000000000000;
    PrintFitsIn(Removed(s), 20);
    PrintWidth(Removed(s));
    ShrinksIffMarkerShorter(s);
    RemovedAgainExactly(s);
    ShrinksIffMarkerShorter(Elide(s));
    PrintWidth(Removed(Elide(s)));
  }

  predicate IsAscii(s: string) {
    forall i :: 0 <= i < |s| ==> s[i] as int < 0x80
  }

  lemma AsciiCuts(s: string)
    requires IsAscii(s) && |s| >= 2 * RETAIN
    ensures CutStart(s) == RETAIN && CutEnd(s) == |s| - RETAIN && Removed(s) == |s| - 2 * RETAIN
    ensures ByteLen(s[..CutStart(s)]) == RETAIN && ByteLen(s[CutEnd(s)..]) == RETAIN
  {
    AsciiLen(s[..RETAIN]);
    AsciiLen(s[|s| - RETAIN..]);
    AsciiLen(s[RETAIN..|s| - RETAIN]);
    HeadCharsUnique(s, RETAIN, RETAIN);
    TailStartUnique(s, |s| - RETAIN, RETAIN);
  }

  lemma ShortAsciiDoesNotShrink(s: string)
    requires IsAscii(s) && |s| < 2 * RETAIN
    ensures !Shrinks(s)
  {
    var h := if |s| < RETAIN then |s| else RETAIN;
    AsciiLen(s[..h]);
    AsciiLen(s[|s| - h..]);
    HeadCharsUnique(s, h, RETAIN);
    TailStartUnique(s, |s| - h, RETAIN);
  }

  /** For ASCII text it is a plain length: a leaf is elided a second time exactly
      from 6,100 bytes on. */
  lemma AsciiElidedAgainIff(s: string)
    requires IsAscii(s) && ByteLen(s) < USIZE_LIMIT
    ensures Shrinks(s) && Shrinks(Elide(s)) <==> |s| >= 2 * RETAIN + 100
  {
    if |s| < 2 * RETAIN {
      ShortAsciiDoesNotShrink(s);
    } else {
      AsciiCuts(s);
      AsciiLen(s);
      assert Pow10(7) == 10000000 && Pow10(14) == 100000000000000 && Pow10(20) == 100000000000000000000;
      PrintFitsIn(Removed(s), 20);
      PrintWidth(Removed(s));
      ShrinksIffMarkerShorter(s);
      if Shrinks(s) {
        ElidedAgainIff(s);
      }
    }
  }

  /** So 6,100 times the letter a is a leaf elided twice. */
  lemma LeafElidedTwice(s: string)
    requires s == seq(2 * RETAIN + 100, _ => 'a')
    ensures Shrinks(s) && Shrinks(Elide(s))
  {
    AsciiLen(s);
    AsciiElidedAgainIff(s);
  }
}
