/** Streams of keyed text pieces and barriers, and when coalescing pieces leaves
    what a stream says unchanged. The coalescer of observer events is an instance. */
module ChunkStreams {
  import opened Options
  import opened Sequences
  import opened Utf8

  /** A piece of text under a key, stamped with its sequence number and time, or
      an event that no piece may cross. */
  datatype Item<K, E> =
    | Piece(key: K, text: string, seq_: nat, timestamp: string)
    | Barrier(event: E)

  // ---- What a stream says -------------------------------------------------

  function Barriers<K, E>(items: seq<Item<K, E>>): seq<E> {
    if items == [] then []
    else
      var n := |items| - 1;
      Barriers(items[..n]) + (if items[n].Barrier? then [items[n].event] else [])
  }

  /** The text under `key` between barrier `i - 1` and barrier `i`. */
  function TextAt<K(==), E>(items: seq<Item<K, E>>, i: nat, key: K): string {
    if items == [] then ""
    else
      var n := |items| - 1;
      TextAt(items[..n], i, key)
      + (if items[n].Piece? && items[n].key == key && |Barriers(items[..n])| == i then items[n].text else "")
  }

  /** The sequence number and timestamp of the last piece contributing to it. */
  function StampAt<K(==), E>(items: seq<Item<K, E>>, i: nat, key: K): Option<(nat, string)> {
    if items == [] then None
    else
      var n := |items| - 1;
      if items[n].Piece? && items[n].key == key && |Barriers(items[..n])| == i
      then Some((items[n].seq_, items[n].timestamp))
      else StampAt(items[..n], i, key)
  }

  /** The same barriers in the same order, and the same text and last stamp per
      key between any two of them. */
  ghost predicate SameStream<K(!new), E>(a: seq<Item<K, E>>, b: seq<Item<K, E>>) {
    && Barriers(a) == Barriers(b)
    && (forall i: nat, k: K :: TextAt(a, i, k) == TextAt(b, i, k))
    && (forall i: nat, k: K :: StampAt(a, i, k) == StampAt(b, i, k))
  }

  lemma Snoc<K, E>(a: seq<Item<K, E>>, x: Item<K, E>, i: nat, k: K)
    ensures Barriers(a + [x]) == Barriers(a) + (if x.Barrier? then [x.event] else [])
    ensures TextAt(a + [x], i, k)
         == TextAt(a, i, k) + (if x.Piece? && x.key == k && |Barriers(a)| == i then x.text else "")
    ensures StampAt(a + [x], i, k)
         == if x.Piece? && x.key == k && |Barriers(a)| == i then Some((x.seq_, x.timestamp))
            else StampAt(a, i, k)
  {
    assert (a + [x])[..|a|] == a;
  }

  lemma SameStreamSnoc<K(!new), E>(a: seq<Item<K, E>>, b: seq<Item<K, E>>, x: Item<K, E>)
    requires SameStream(a, b)
    ensures SameStream(a + [x], b + [x])
  {
    forall i: nat, k: K
      ensures Barriers(a + [x]) == Barriers(b + [x])
      ensures TextAt(a + [x], i, k) == TextAt(b + [x], i, k)
      ensures StampAt(a + [x], i, k) == StampAt(b + [x], i, k)
    {
      Snoc(a, x, i, k);
      Snoc(b, x, i, k);
    }
    assert Barriers(a + [x]) == Barriers(b + [x]) by {
      assert (a + [x])[..|a|] == a && (b + [x])[..|b|] == b;
    }
  }

  // ---- Coalescing ---------------------------------------------------------

  /** Pieces with distinct keys. */
  ghost predicate DistinctPieces<K, E>(pending: seq<Item<K, E>>) {
    && (forall i :: 0 <= i < |pending| ==> pending[i].Piece?)
    && (forall i, j :: 0 <= i < j < |pending| ==> pending[i].key != pending[j].key)
  }

  /** The position of the first pending piece with the key. */
  function Find<K(==), E>(pending: seq<Item<K, E>>, key: K): (r: Option<nat>)
    requires forall i :: 0 <= i < |pending| ==> pending[i].Piece?
    ensures r.Some? ==> r.value < |pending| && pending[r.value].key == key
    ensures r.Some? ==> forall i :: 0 <= i < r.value ==> pending[i].key != key
    ensures r.None? ==> forall i :: 0 <= i < |pending| ==> pending[i].key != key
  {
    if pending == [] then None
    else if pending[0].key == key then Some(0)
    else
      var r := Find(pending[1..], key);
      if r.None? then None else Some(r.value + 1)
  }

  function Merge<K, E>(p: Item<K, E>, x: Item<K, E>): Item<K, E>
    requires p.Piece? && x.Piece?
  {
    Piece(p.key, p.text + x.text, x.seq_, x.timestamp)
  }

  /** The pending pieces and the released items after ingesting `x`, when texts of
      `limit` bytes or more are not to be built by merging. */
  function Ingested<K(==), E>(pending: seq<Item<K, E>>, x: Item<K, E>, limit: nat)
    : (r: (seq<Item<K, E>>, seq<Item<K, E>>))
    requires DistinctPieces(pending)
    ensures DistinctPieces(r.0)
  {
    if x.Barrier? then ([], pending + [x])
    else
      match Find(pending, x.key)
      case None => (pending + [x], [])
      case Some(i) =>
        if ByteLen(pending[i].text) + ByteLen(x.text) >= limit then ([x], pending)
        else (pending[i := Merge(pending[i], x)], [])
  }

  /** Appending pieces adds no barrier. */
  lemma {:induction false} AppendPiecesBarriers<K, E>(out: seq<Item<K, E>>, pending: seq<Item<K, E>>)
    requires forall i :: 0 <= i < |pending| ==> pending[i].Piece?
    ensures Barriers(out + pending) == Barriers(out)
  {
    if pending == [] {
      assert out + pending == out;
    } else {
      var n := |pending| - 1;
      AppendPiecesBarriers(out, pending[..n]);
      assert (out + pending)[..|out| + n] == out + pending[..n];
    }
  }

  /** Appending pieces with distinct keys adds at most one text per key. */
  lemma {:induction false} AppendPieces<K, E>(out: seq<Item<K, E>>, pending: seq<Item<K, E>>, i: nat, k: K)
    requires DistinctPieces(pending)
    ensures TextAt(out + pending, i, k)
         == TextAt(out, i, k) + (if i == |Barriers(out)| && Find(pending, k).Some?
                                 then pending[Find(pending, k).value].text else "")
    ensures StampAt(out + pending, i, k)
         == if i == |Barriers(out)| && Find(pending, k).Some?
            then Some((pending[Find(pending, k).value].seq_, pending[Find(pending, k).value].timestamp))
            else StampAt(out, i, k)
  {
    if pending == [] {
      assert out + pending == out;
    } else {
      var n := |pending| - 1;
      var front, last := pending[..n], pending[n];
      assert pending == front + [last];
      FindSnoc(front, last, k);
      AppendPieces(out, front, i, k);
      AppendOne(out, front, last, i, k);
    }
  }

  lemma AppendOne<K, E>(out: seq<Item<K, E>>, front: seq<Item<K, E>>, last: Item<K, E>, i: nat, k: K)
    requires last.Piece? && forall j :: 0 <= j < |front| ==> front[j].Piece?
    ensures TextAt(out + (front + [last]), i, k)
         == TextAt(out + front, i, k) + (if last.key == k && |Barriers(out)| == i then last.text else "")
    ensures StampAt(out + (front + [last]), i, k)
         == if last.key == k && |Barriers(out)| == i then Some((last.seq_, last.timestamp))
            else StampAt(out + front, i, k)
  {
    AppendPiecesBarriers(out, front);
    assert out + (front + [last]) == (out + front) + [last];
    Snoc(out + front, last, i, k);
  }

  /** Lookup depends on the keys alone. */
  lemma {:induction false} FindSameKeys<K, E>(a: seq<Item<K, E>>, b: seq<Item<K, E>>, k: K)
    requires |a| == |b| && forall i :: 0 <= i < |a| ==> a[i].Piece? && b[i].Piece? && a[i].key == b[i].key
    ensures Find(a, k) == Find(b, k)
  {
    if a != [] {
      FindSameKeys(a[1..], b[1..], k);
    }
  }

  lemma FindSnoc<K, E>(front: seq<Item<K, E>>, last: Item<K, E>, k: K)
    requires DistinctPieces(front + [last])
    ensures DistinctPieces(front) && last.Piece?
    ensures Find(front + [last], k) ==
              if Find(front, k).Some? then Find(front, k)
              else if last.key == k then Some(|front|) else None
  {
    var all := front + [last];
    assert forall i :: 0 <= i < |front| ==> all[i] == front[i];
    assert all[|front|] == last;
    var q := Find(front, k);
    if q.Some? {
      FindFirst(all, k, q.value);
    } else if last.key == k {
      FindFirst(all, k, |front|);
    }
  }

  lemma FindFirst<K, E>(pending: seq<Item<K, E>>, k: K, at: nat)
    requires forall i :: 0 <= i < |pending| ==> pending[i].Piece?
    requires at < |pending| && pending[at].key == k
    requires forall i :: 0 <= i < at ==> pending[i].key != k
    ensures Find(pending, k) == Some(at)
  {
  }

  lemma MergeOwnKey<K, E>(
    out: seq<Item<K, E>>, pending: seq<Item<K, E>>, x: Item<K, E>, i: nat, j: nat)
    requires DistinctPieces(pending) && x.Piece? && Find(pending, x.key) == Some(i)
    ensures var merged := pending[i := Merge(pending[i], x)];
            && TextAt(out + merged, j, x.key) == TextAt(out + pending, j, x.key)
                 + (if j == |Barriers(out)| then x.text else "")
            && StampAt(out + merged, j, x.key)
                 == if j == |Barriers(out)| then Some((x.seq_, x.timestamp)) else StampAt(out + pending, j, x.key)
  {
    var merged := pending[i := Merge(pending[i], x)];
    FindSameKeys(merged, pending, x.key);
    AppendPieces(out, pending, j, x.key);
    AppendPieces(out, merged, j, x.key);
    var before := TextAt(out, j, x.key);
    if j == |Barriers(out)| {
      assert merged[i].text == pending[i].text + x.text;
      ConcatAssoc(before, pending[i].text, x.text);
    } else {
      assert (before + "") + "" == before + "";
    }
  }

  lemma MergeOtherKey<K, E>(
    out: seq<Item<K, E>>, pending: seq<Item<K, E>>, x: Item<K, E>, i: nat, j: nat, k: K)
    requires DistinctPieces(pending) && x.Piece? && Find(pending, x.key) == Some(i) && k != x.key
    ensures var merged := pending[i := Merge(pending[i], x)];
            && TextAt(out + merged, j, k) == TextAt(out + pending, j, k)
            && StampAt(out + merged, j, k) == StampAt(out + pending, j, k)
  {
    var merged := pending[i := Merge(pending[i], x)];
    FindSameKeys(merged, pending, k);
    AppendPieces(out, pending, j, k);
    AppendPieces(out, merged, j, k);
  }

  lemma MergeSaysTheSameAt<K, E>(
    out: seq<Item<K, E>>, pending: seq<Item<K, E>>, x: Item<K, E>, i: nat, j: nat, k: K)
    requires DistinctPieces(pending) && x.Piece? && Find(pending, x.key) == Some(i)
    ensures var merged := pending[i := Merge(pending[i], x)];
            && TextAt(out + merged, j, k) == TextAt((out + pending) + [x], j, k)
            && StampAt(out + merged, j, k) == StampAt((out + pending) + [x], j, k)
  {
    AppendPiecesBarriers(out, pending);
    Snoc(out + pending, x, j, k);
    if k == x.key {
      MergeOwnKey(out, pending, x, i, j);
    } else {
      MergeOtherKey(out, pending, x, i, j, k);
    }
  }

  /** Merging a piece into its entry says what appending it would. */
  lemma MergeSaysTheSame<K(!new), E>(out: seq<Item<K, E>>, pending: seq<Item<K, E>>, x: Item<K, E>, i: nat)
    requires DistinctPieces(pending) && x.Piece? && Find(pending, x.key) == Some(i)
    ensures SameStream(out + pending[i := Merge(pending[i], x)], (out + pending) + [x])
  {
    var merged := pending[i := Merge(pending[i], x)];
    AppendPiecesBarriers(out, merged);
    AppendPiecesBarriers(out, pending);
    Snoc(out + pending, x, 0, x.key);
    forall j: nat, k: K
      ensures TextAt(out + merged, j, k) == TextAt((out + pending) + [x], j, k)
      ensures StampAt(out + merged, j, k) == StampAt((out + pending) + [x], j, k)
    {
      MergeSaysTheSameAt(out, pending, x, i, j, k);
    }
  }

  lemma IngestKeepsStream<K(!new), E>(
    out: seq<Item<K, E>>, pending: seq<Item<K, E>>, x: Item<K, E>, limit: nat, inputs: seq<Item<K, E>>)
    requires DistinctPieces(pending) && SameStream(out + pending, inputs)
    ensures var (next, released) := Ingested(pending, x, limit);
            SameStream(out + released + next, inputs + [x])
  {
    var (next, released) := Ingested(pending, x, limit);
    SameStreamSnoc(out + pending, inputs, x);
    if x.Piece? && Find(pending, x.key).Some?
       && ByteLen(pending[Find(pending, x.key).value].text) + ByteLen(x.text) < limit {
      MergeSaysTheSame(out, pending, x, Find(pending, x.key).value);
      assert out + released + next == out + next;
    } else {
      assert out + released + next == out + pending + [x];
    }
  }
}
