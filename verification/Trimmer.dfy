/** Trimming an oversized telemetry frame to the plaintext cap
    (crates/buzz-acp/src/lib.rs:659-746). */
module Trimmer {
  import opened Options
  import opened Decimal
  import opened Sequences
  import opened Utf8
  import opened Elision
  import opened Payloads
  import opened ObserverEvents

  type Event = ObserverEvent<Payload>

  /** `OBSERVER_MAX_PLAINTEXT_LEN`. */
  const CAP := 65_535

  // ---- The serialized frame -----------------------------------------------

  function OptionalText(o: Option<string>): Payload {
    match o
    case None => Atom("null")
    case Some(s) => Text(s)
  }

  function OptionalNumber(o: Option<nat>): Payload {
    match o
    case None => Atom("null")
    case Some(n) => Atom(Print(n))
  }

  /** The frame as one JSON object; `startedAt` is omitted when absent. */
  function Frame(e: Event): Payload {
    var started := e.startedAt.Some?;
    Object(
      [Atom(Print(e.seq_)), Text(e.timestamp), Text(e.kind), OptionalNumber(e.agentIndex),
       OptionalText(e.channelId), OptionalText(e.sessionId), OptionalText(e.turnId)]
      + (if started then [OptionalText(e.startedAt)] else [])
      + [e.payload],
      ["seq", "timestamp", "kind", "agentIndex", "channelId", "sessionId", "turnId"]
      + (if started then ["startedAt"] else [])
      + ["payload"])
  }

  /** `serialized_len(event)`. */
  function FrameLen(e: Event): nat {
    SerializedLen(Frame(e))
  }

  /** Only the payload's own length varies while the payload is trimmed. */
  lemma FrameLenDelta(e: Event, v: Payload)
    ensures FrameLen(e.(payload := v)) - FrameLen(e) == Size(v) - Size(e.payload)
  {
    var f := Frame(e);
    var last := |f.items| - 1;
    SizeIsSerializedLen(f);
    SizeIsSerializedLen(Frame(e.(payload := v)));
    assert Frame(e.(payload := v)) == f.(items := f.items[last := v]);
    ItemsSizeUpdate(f.items, f.keys, last, v);
  }

  // ---- Choosing a leaf ----------------------------------------------------

  function Larger(a: Option<nat>, b: Option<nat>): Option<nat> {
    if a.None? then b
    else if b.None? then a
    else if a.value < b.value then b else a
  }

  function MaxShrinkableLen(v: Payload): Option<nat>
    decreases v, 1
  {
    match v
    case Text(s) => if Shrinks(s) then Some(ByteLen(s)) else None
    case Atom(_) => None
    case Array(items) => MaxShrinkableOf(items)
    case Object(items, _) => MaxShrinkableOf(items)
  }

  function MaxShrinkableOf(items: seq<Payload>): Option<nat>
    decreases items, 0
  {
    if items == [] then None else Larger(MaxShrinkableLen(items[0]), MaxShrinkableOf(items[1..]))
  }

  /** The first leaf, in document order, of `target` bytes that can shrink. */
  function FindLeafWithLen(v: Payload, target: nat): Option<Path>
    decreases v, 1
  {
    match v
    case Text(s) => if ByteLen(s) == target && Shrinks(s) then Some([]) else None
    case Atom(_) => None
    case Array(items) => FindLeafIn(items, target, 0)
    case Object(items, _) => FindLeafIn(items, target, 0)
  }

  function FindLeafIn(items: seq<Payload>, target: nat, index: nat): Option<Path>
    decreases items, 0
  {
    if items == [] then None
    else
      match FindLeafWithLen(items[0], target)
      case Some(p) => Some([index] + p)
      case None => FindLeafIn(items[1..], target, index + 1)
  }

  function LargestShrinkableLeaf(v: Payload): Option<Path> {
    match MaxShrinkableLen(v)
    case None => None
    case Some(best) => FindLeafWithLen(v, best)
  }

  ghost predicate CanShrink(v: Payload, p: Path) {
    HasLeaf(v, p) && Shrinks(LeafAt(v, p))
  }

  lemma {:induction false} MaxBounds(v: Payload, p: Path)
    requires CanShrink(v, p)
    ensures MaxShrinkableLen(v).Some? && ByteLen(LeafAt(v, p)) <= MaxShrinkableLen(v).value
    decreases v, 1
  {
    if p != [] {
      MaxOfBounds(v.items, p);
    }
  }

  lemma {:induction false} MaxOfBounds(items: seq<Payload>, p: Path)
    requires p != [] && p[0] < |items| && CanShrink(items[p[0]], p[1..])
    ensures MaxShrinkableOf(items).Some?
    ensures ByteLen(LeafAt(items[p[0]], p[1..])) <= MaxShrinkableOf(items).value
    decreases items, 0
  {
    if p[0] == 0 {
      MaxBounds(items[0], p[1..]);
    } else {
      var q := [p[0] - 1] + p[1..];
      assert q[1..] == p[1..];
      MaxOfBounds(items[1..], q);
    }
  }

  lemma {:induction false} FindFinds(v: Payload, target: nat)
    ensures FindLeafWithLen(v, target).Some? ==>
              && CanShrink(v, FindLeafWithLen(v, target).value)
              && ByteLen(LeafAt(v, FindLeafWithLen(v, target).value)) == target
    decreases v, 1
  {
    match v
    case Text(_) =>
    case Atom(_) =>
    case Array(items) => FindInFinds(items, target, 0);
    case Object(items, _) => FindInFinds(items, target, 0);
  }

  lemma {:induction false} FindInFinds(items: seq<Payload>, target: nat, index: nat)
    ensures match FindLeafIn(items, target, index)
            case None => true
            case Some(p) =>
              && p != [] && index <= p[0] < index + |items|
              && CanShrink(items[p[0] - index], p[1..])
              && ByteLen(LeafAt(items[p[0] - index], p[1..])) == target
    decreases items, 0
  {
    if items != [] {
      FindFinds(items[0], target);
      match FindLeafWithLen(items[0], target)
      case Some(p) => Cons(index, p);
      case None => FindInFinds(items[1..], target, index + 1);
    }
  }

  lemma {:induction false} MaxIsFound(v: Payload)
    ensures MaxShrinkableLen(v).Some? ==> FindLeafWithLen(v, MaxShrinkableLen(v).value).Some?
    decreases v, 1
  {
    match v
    case Text(_) =>
    case Atom(_) =>
    case Array(items) => MaxOfIsFound(items, 0);
    case Object(items, _) => MaxOfIsFound(items, 0);
  }

  lemma {:induction false} MaxOfIsFound(items: seq<Payload>, index: nat)
    ensures MaxShrinkableOf(items).Some? ==> FindLeafIn(items, MaxShrinkableOf(items).value, index).Some?
    decreases items, 0
  {
    if items != [] {
      MaxIsFound(items[0]);
      MaxOfIsFound(items[1..], index + 1);
    }
  }

  /** A leaf is chosen exactly when some leaf can shrink, and then it can shrink
      and no leaf that can shrink is longer. */
  lemma LargestLeafIsChosen(v: Payload)
    ensures LargestShrinkableLeaf(v).Some? ==> CanShrink(v, LargestShrinkableLeaf(v).value)
    ensures forall p :: CanShrink(v, p) ==>
                          && LargestShrinkableLeaf(v).Some?
                          && ByteLen(LeafAt(v, p)) <= ByteLen(LeafAt(v, LargestShrinkableLeaf(v).value))
  {
    MaxIsFound(v);
    if MaxShrinkableLen(v).Some? {
      FindFinds(v, MaxShrinkableLen(v).value);
    }
    forall p | CanShrink(v, p)
      ensures LargestShrinkableLeaf(v).Some?
           && ByteLen(LeafAt(v, p)) <= ByteLen(LeafAt(v, LargestShrinkableLeaf(v).value))
    {
      MaxBounds(v, p);
    }
  }

  /** In document order one leaf comes before another. */
  predicate Earlier(p: Path, q: Path) {
    p != [] && q != [] && (p[0] < q[0] || (p[0] == q[0] && Earlier(p[1..], q[1..])))
  }

  lemma {:induction false} FindIsFirst(v: Payload, target: nat, q: Path)
    requires CanShrink(v, q) && ByteLen(LeafAt(v, q)) == target
    ensures
      var p := FindLeafWithLen(v, target);
      p.Some? && (p.value == q || Earlier(p.value, q))
    decreases v, 1
  {
    if q != [] {
      FindInIsFirst(v.items, target, 0, q);
    }
  }

  lemma {:induction false} FindInIsFirst(items: seq<Payload>, target: nat, index: nat, q: Path)
    requires q != [] && index <= q[0] < index + |items|
    requires CanShrink(items[q[0] - index], q[1..]) && ByteLen(LeafAt(items[q[0] - index], q[1..])) == target
    ensures
      var p := FindLeafIn(items, target, index);
      p.Some? && (p.value == q || Earlier(p.value, q))
    decreases items, 0
  {
    assert q == [q[0]] + q[1..];
    if q[0] == index {
      FindIsFirst(items[0], target, q[1..]);
    } else if FindLeafWithLen(items[0], target).None? {
      FindInIsFirst(items[1..], target, index + 1, q);
    }
  }

  /** Of several longest leaves the first in document order is chosen. */
  lemma FirstOfTheLongest(v: Payload, q: Path)
    requires IsLongest(v, q)
    ensures
      var p := LargestShrinkableLeaf(v);
      p.Some? && (p.value == q || Earlier(p.value, q))
  {
    LargestLeafIsChosen(v);
    FindFinds(v, MaxShrinkableLen(v).value);
    FindIsFirst(v, MaxShrinkableLen(v).value, q);
  }

  // ---- Eliding one leaf ---------------------------------------------------

  function ElideAt(v: Payload, p: Path): Payload
    requires HasLeaf(v, p)
  {
    MapLeaf(v, p, Elide)
  }

  lemma MarkerIsPlain(n: nat)
    ensures EscapedLen(Marker(n)) == ByteLen(Marker(n))
  {
    PlainIsUnescaped(Marker(n));
  }

  /** Shrinking a leaf strictly shrinks its JSON form: the marker needs no
      escapes, and what it replaces can only grow by escaping. */
  lemma ElisionShrinksEscaped(s: string)
    requires Shrinks(s)
    ensures EscapedLen(Elide(s)) < EscapedLen(s)
  {
    var h, m := CutStart(s), CutEnd(s);
    assert s == s[..h] + (s[h..m] + s[m..]);
    EscapedLenConcat(s[..h], s[h..m] + s[m..]);
    EscapedLenConcat(s[h..m], s[m..]);
    EscapedLenConcat(s[..h] + Marker(Removed(s)), s[m..]);
    EscapedLenConcat(s[..h], Marker(Removed(s)));
    MarkerIsPlain(Removed(s));
    MarkerLen(Removed(s));
    ShrinksIffMarkerShorter(s);
    EscapingNeverShortens(s[h..m]);
  }

  lemma ElideAtShrinks(v: Payload, p: Path)
    requires CanShrink(v, p)
    ensures Size(ElideAt(v, p)) < Size(v)
  {
    ElisionShrinksEscaped(LeafAt(v, p));
    SetLeafSize(v, p, Elide(LeafAt(v, p)));
  }

  // ---- The trimming loop --------------------------------------------------

  /** The leaves elided, in order, when the loop starts from `e`. */
  function Passes(e: Event): seq<Path>
    decreases Size(e.payload)
  {
    LargestLeafIsChosen(e.payload);
    match LargestShrinkableLeaf(e.payload)
    case None => []
    case Some(p) =>
      ElideAtShrinks(e.payload, p);
      var next := e.(payload := ElideAt(e.payload, p));
      if FrameLen(next) <= CAP then [p] else [p] + Passes(next)
  }

  /** Every listed leaf can shrink when its turn comes. */
  ghost predicate IsRun(v: Payload, paths: seq<Path>)
    decreases |paths|
  {
    paths == [] || (CanShrink(v, paths[0]) && IsRun(ElideAt(v, paths[0]), paths[1..]))
  }

  lemma {:induction false} RunHasLeaves(v: Payload, paths: seq<Path>)
    requires IsRun(v, paths)
    ensures HasLeaves(v, paths)
    decreases |paths|
  {
    if paths != [] {
      RunHasLeaves(ElideAt(v, paths[0]), paths[1..]);
      forall i | 1 <= i < |paths|
        ensures HasLeaf(v, paths[i])
      {
        assert HasLeaf(ElideAt(v, paths[0]), paths[1..][i - 1]);
        SetLeafAt(v, paths[0], Elide(LeafAt(v, paths[0])), paths[i]);
      }
    }
  }

  function ElideAll(v: Payload, paths: seq<Path>): Payload
    requires HasLeaves(v, paths)
  {
    MapLeaves(v, paths, Elide)
  }

  lemma {:induction false} PassesIsRun(e: Event)
    ensures IsRun(e.payload, Passes(e)) && HasLeaves(e.payload, Passes(e))
    decreases Size(e.payload)
  {
    LargestLeafIsChosen(e.payload);
    if LargestShrinkableLeaf(e.payload).Some? {
      var p := LargestShrinkableLeaf(e.payload).value;
      var next := e.(payload := ElideAt(e.payload, p));
      ElideAtShrinks(e.payload, p);
      if FrameLen(next) > CAP {
        PassesIsRun(next);
        assert Passes(e)[1..] == Passes(next);
      }
    }
    RunHasLeaves(e.payload, Passes(e));
  }

  /** The event after the loop, before the stub is considered. */
  function Trimmed(e: Event): Event {
    PassesIsRun(e);
    e.(payload := ElideAll(e.payload, Passes(e)))
  }

  /** `{"elided": "<kind> payload too large", "originalBytes": <n>}`. */
  function Stub(kind: string, originalBytes: nat): Payload {
    Object([Text(kind + " payload too large"), Atom(Print(originalBytes))], ["elided", "originalBytes"])
  }

  function Fitted(e: Event): Event {
    if FrameLen(e) <= CAP then e
    else if FrameLen(Trimmed(e)) <= CAP then Trimmed(e)
    else e.(payload := Stub(e.kind, SerializedLen(e.payload)))
  }

  lemma TrimmedStep(e: Event, p: Path)
    requires LargestShrinkableLeaf(e.payload) == Some(p) && CanShrink(e.payload, p)
    ensures var next := e.(payload := ElideAt(e.payload, p));
            Trimmed(e) == if FrameLen(next) <= CAP then next else Trimmed(next)
  {
    var next := e.(payload := ElideAt(e.payload, p));
    PassesIsRun(e);
    PassesIsRun(next);
    if FrameLen(next) <= CAP {
      assert Passes(e) == [p] && [p][1..] == [];
      assert ElideAll(next.payload, []) == next.payload;
    } else {
      assert Passes(e) == [p] + Passes(next);
      assert Passes(e)[1..] == Passes(next);
    }
  }

  /** The event handed to the publisher, trimmed in place. */
  class OutgoingFrame {
    var event: Event

    constructor (e: Event)
      ensures event == e
    {
      event := e;
    }

    method FitToBudget()
      modifies this
      ensures event == Fitted(old(event))
    {
      if FrameLen(event) <= CAP {
        return;
      }
      var originalBytes := SerializedLen(event.payload);
      var leaf := LargestShrinkableLeaf(event.payload);
      LargestLeafIsChosen(event.payload);
      while leaf.Some?
        invariant leaf == LargestShrinkableLeaf(event.payload)
        invariant leaf.Some? ==> CanShrink(event.payload, leaf.value)
        invariant FrameLen(event) > CAP
        invariant event == old(event).(payload := event.payload)
        invariant Trimmed(event) == Trimmed(old(event))
        decreases Size(event.payload)
      {
        TrimmedStep(event, leaf.value);
        ElideAtShrinks(event.payload, leaf.value);
        event := event.(payload := ElideAt(event.payload, leaf.value));
        if FrameLen(event) <= CAP {
          return;
        }
        leaf := LargestShrinkableLeaf(event.payload);
        LargestLeafIsChosen(event.payload);
      }
      assert Trimmed(event) == event;
      event := event.(payload := Stub(event.kind, originalBytes));
    }
  }

  // ---- What the loop does to each leaf ------------------------------------

  /** Every leaf is shorter than a 64-bit `usize` can count. */
  ghost predicate Addressable(v: Payload) {
    forall p :: HasLeaf(v, p) ==> ByteLen(LeafAt(v, p)) < USIZE_LIMIT
  }

  /** How often the leaf at `p` can still be elided. */
  function Left(s: string): nat {
    if !Shrinks(s) then 0 else if !Shrinks(Elide(s)) then 1 else 2
  }

  lemma ElidingUsesUpOne(s: string)
    requires ByteLen(s) < USIZE_LIMIT && Shrinks(s)
    ensures Left(Elide(s)) == Left(s) - 1
    ensures ByteLen(Elide(s)) < ByteLen(s)
  {
    ShrinksIffMarkerShorter(s);
    if Shrinks(Elide(s)) {
      NeverThrice(s);
    }
  }

  lemma ElideAtOn(v: Payload, p: Path, q: Path)
    requires CanShrink(v, p) && ByteLen(LeafAt(v, p)) < USIZE_LIMIT
    ensures HasLeaf(ElideAt(v, p), q) <==> HasLeaf(v, q)
    ensures HasLeaf(v, q) ==>
              LeafAt(ElideAt(v, p), q) == if p == q then Elide(LeafAt(v, p)) else LeafAt(v, q)
  {
    SetLeafAt(v, p, Elide(LeafAt(v, p)), q);
  }

  lemma ElideAtAddressable(v: Payload, p: Path)
    requires Addressable(v) && CanShrink(v, p)
    ensures Addressable(ElideAt(v, p))
  {
    ElidingUsesUpOne(LeafAt(v, p));
    forall q | HasLeaf(ElideAt(v, p), q)
      ensures ByteLen(LeafAt(ElideAt(v, p), q)) < USIZE_LIMIT
    {
      ElideAtOn(v, p, q);
    }
  }

  /** No leaf is elided more than twice in a run. */
  lemma {:induction false} RunElidesAtMostTwice(v: Payload, paths: seq<Path>, q: Path)
    requires Addressable(v) && IsRun(v, paths) && HasLeaf(v, q)
    ensures Times(paths, q) <= Left(LeafAt(v, q)) <= 2
    decreases |paths|
  {
    if paths != [] {
      var p := paths[0];
      var w := ElideAt(v, p);
      ElideAtAddressable(v, p);
      ElideAtOn(v, p, q);
      RunElidesAtMostTwice(w, paths[1..], q);
      if p == q {
        ElidingUsesUpOne(LeafAt(v, q));
      }
    }
  }

  // ---- The number of passes -----------------------------------------------

  function LeafCount(v: Payload): nat
    decreases v, 1
  {
    match v
    case Text(_) => 1
    case Atom(_) => 0
    case Array(items) => LeafCountOf(items)
    case Object(items, _) => LeafCountOf(items)
  }

  function LeafCountOf(items: seq<Payload>): nat
    decreases items, 0
  {
    if items == [] then 0 else LeafCount(items[0]) + LeafCountOf(items[1..])
  }

  function Budget(v: Payload): (b: nat)
    decreases v, 1
  {
    match v
    case Text(s) => Left(s)
    case Atom(_) => 0
    case Array(items) => BudgetOf(items)
    case Object(items, _) => BudgetOf(items)
  }

  function BudgetOf(items: seq<Payload>): nat
    decreases items, 0
  {
    if items == [] then 0 else Budget(items[0]) + BudgetOf(items[1..])
  }

  lemma {:induction false} BudgetBound(v: Payload)
    ensures Budget(v) <= 2 * LeafCount(v)
    decreases v, 1
  {
    match v
    case Text(_) =>
    case Atom(_) =>
    case Array(items) => BudgetOfBound(items);
    case Object(items, _) => BudgetOfBound(items);
  }

  lemma {:induction false} BudgetOfBound(items: seq<Payload>)
    ensures BudgetOf(items) <= 2 * LeafCountOf(items)
    decreases items, 0
  {
    if items != [] {
      BudgetBound(items[0]);
      BudgetOfBound(items[1..]);
    }
  }

  lemma {:induction false} BudgetOfUpdate(items: seq<Payload>, i: nat, x: Payload)
    requires i < |items|
    ensures BudgetOf(items[i := x]) - BudgetOf(items) == Budget(x) - Budget(items[i])
  {
    if i == 0 {
      assert items[i := x][1..] == items[1..];
    } else {
      BudgetOfUpdate(items[1..], i - 1, x);
      assert items[i := x][1..] == items[1..][i - 1 := x];
    }
  }

  lemma {:induction false} PassUsesBudget(v: Payload, p: Path)
    requires CanShrink(v, p) && ByteLen(LeafAt(v, p)) < USIZE_LIMIT
    ensures Budget(ElideAt(v, p)) == Budget(v) - 1
  {
    if p == [] {
      ElidingUsesUpOne(v.s);
    } else {
      PassUsesBudget(v.items[p[0]], p[1..]);
      BudgetOfUpdate(v.items, p[0], ElideAt(v.items[p[0]], p[1..]));
    }
  }

  /** There are at most two passes per string leaf. */
  lemma {:induction false} RunLength(v: Payload, paths: seq<Path>)
    requires Addressable(v) && IsRun(v, paths)
    ensures |paths| <= Budget(v) <= 2 * LeafCount(v)
    decreases |paths|
  {
    BudgetBound(v);
    if paths != [] {
      ElideAtAddressable(v, paths[0]);
      PassUsesBudget(v, paths[0]);
      RunLength(ElideAt(v, paths[0]), paths[1..]);
    }
  }

  // ---- Head and tail ------------------------------------------------------

  /** `t` starts with `head` and ends with `tail`. */
  predicate Keeps(t: string, head: string, tail: string) {
    head <= t && |tail| <= |t| && t[|t| - |tail|..] == tail
  }

  lemma ConcatKeeps(head: string, middle: string, tail: string)
    ensures Keeps(head + middle + tail, head, tail)
  {
  }

  lemma KeepsLess(t: string, head: string, tail: string, h: string, z: string)
    requires Keeps(t, head, tail)
    requires h <= head && |z| <= |tail| && tail[|tail| - |z|..] == z
    ensures Keeps(t, h, z)
  {
    assert t[|t| - |z|..] == tail[|tail| - |z|..];
  }

  lemma ElisionKeepsEnds(s: string)
    requires Shrinks(s)
    ensures Keeps(Elide(s), s[..CutStart(s)], s[CutEnd(s)..])
    ensures Shrinks(Elide(s)) ==> Keeps(Elide(Elide(s)), s[..CutStart(s)], s[CutEnd(s)..])
  {
    ConcatKeeps(s[..CutStart(s)], Marker(Removed(s)), s[CutEnd(s)..]);
    if Shrinks(Elide(s)) {
      SecondElisionKeepsEnds(s, Elide(s));
    }
  }

  lemma SecondElisionKeepsEnds(s: string, e: string)
    requires Shrinks(s) && e == Elide(s) && Shrinks(e)
    ensures Keeps(Elide(e), s[..CutStart(s)], s[CutEnd(s)..])
  {
    var head, tail := s[..CutStart(s)], s[CutEnd(s)..];
    var c := CutStart(s) + |Marker(Removed(s))|;
    SecondCutInsideMarker(s);
    RetainedBytes(e);
    Parts(head, Marker(Removed(s)), tail);
    ConcatKeeps(e[..CutStart(e)], Marker(Removed(e)), e[CutEnd(e)..]);
    assert head <= e[..CutStart(e)];
    SliceOfSlice(e, CutEnd(e), |e|, c - CutEnd(e), |e| - CutEnd(e));
    KeepsLess(Elide(e), e[..CutStart(e)], e[CutEnd(e)..], head, tail);
  }

  lemma RepeatKeepsEnds(s: string, n: nat)
    requires 1 <= n <= Left(s)
    ensures Shrinks(s) && Keeps(Repeat(Elide, s, n), s[..CutStart(s)], s[CutEnd(s)..])
  {
    ElisionKeepsEnds(s);
    assert Repeat(Elide, s, n) == Repeat(Elide, Elide(s), n - 1);
    if n == 2 {
      assert Repeat(Elide, Elide(s), 1) == Repeat(Elide, Elide(Elide(s)), 0);
    }
  }

  // ---- The whole trimmer --------------------------------------------------

  /** A payload as trimmed as it can be: every leaf elided until it no longer
      shrinks. */
  function Floor(v: Payload): Payload
    decreases v, 1
  {
    match v
    case Text(s) => Text(Repeat(Elide, s, Left(s)))
    case Atom(_) => v
    case Array(items) => Array(FloorOf(items))
    case Object(items, keys) => Object(FloorOf(items), keys)
  }

  function FloorOf(items: seq<Payload>): (r: seq<Payload>)
    ensures |r| == |items|
    decreases items, 0
  {
    if items == [] then [] else [Floor(items[0])] + FloorOf(items[1..])
  }

  lemma {:induction false} FloorOfUpdate(items: seq<Payload>, i: nat, x: Payload)
    requires i < |items| && Floor(x) == Floor(items[i])
    ensures FloorOf(items[i := x]) == FloorOf(items)
  {
    if i == 0 {
      assert items[i := x][1..] == items[1..];
    } else {
      FloorOfUpdate(items[1..], i - 1, x);
      assert items[i := x][1..] == items[1..][i - 1 := x];
    }
  }

  /** Whichever leaf is elided next, the payload at the end of the road is the
      same. */
  lemma {:induction false} FloorIsConfluent(v: Payload, p: Path)
    requires CanShrink(v, p) && ByteLen(LeafAt(v, p)) < USIZE_LIMIT
    ensures Floor(ElideAt(v, p)) == Floor(v)
  {
    if p == [] {
      ElidingUsesUpOne(v.s);
    } else {
      FloorIsConfluent(v.items[p[0]], p[1..]);
      FloorOfUpdate(v.items, p[0], ElideAt(v.items[p[0]], p[1..]));
    }
  }

  lemma {:induction false} FloorOfNothingToShrink(v: Payload)
    requires MaxShrinkableLen(v).None?
    ensures Floor(v) == v
    decreases v, 1
  {
    match v
    case Text(_) =>
    case Atom(_) =>
    case Array(items) => FloorOfNothingIn(items);
    case Object(items, _) => FloorOfNothingIn(items);
  }

  lemma {:induction false} FloorOfNothingIn(items: seq<Payload>)
    requires MaxShrinkableOf(items).None?
    ensures FloorOf(items) == items
    decreases items, 0
  {
    if items != [] {
      FloorOfNothingToShrink(items[0]);
      FloorOfNothingIn(items[1..]);
      assert items == [items[0]] + items[1..];
    }
  }

  function WithFloor(e: Event): Event {
    e.(payload := Floor(e.payload))
  }

  /** The loop stops at the first payload that fits; it stops with none exactly
      when the floor itself does not fit, and then it has reached the floor. */
  lemma {:induction false} TrimmedFitsIff(e: Event)
    requires Addressable(e.payload) && FrameLen(e) > CAP
    ensures FrameLen(Trimmed(e)) <= CAP <==> FrameLen(WithFloor(e)) <= CAP
    ensures FrameLen(WithFloor(e)) <= FrameLen(e)
    decreases Size(e.payload)
  {
    LargestLeafIsChosen(e.payload);
    match LargestShrinkableLeaf(e.payload)
    case None =>
      MaxIsFound(e.payload);
      FloorOfNothingToShrink(e.payload);
      assert Trimmed(e) == e;
    case Some(p) =>
      var next := e.(payload := ElideAt(e.payload, p));
      ElideAtShrinks(e.payload, p);
      ElideAtAddressable(e.payload, p);
      FloorIsConfluent(e.payload, p);
      TrimmedStep(e, p);
      FrameLenDelta(e, next.payload);
      if FrameLen(next) > CAP {
        TrimmedFitsIff(next);
      } else {
        FloorNeverLonger(next);
      }
  }

  lemma {:induction false} FloorNeverLonger(e: Event)
    requires Addressable(e.payload)
    ensures FrameLen(WithFloor(e)) <= FrameLen(e)
    decreases Size(e.payload)
  {
    LargestLeafIsChosen(e.payload);
    match LargestShrinkableLeaf(e.payload)
    case None =>
      MaxIsFound(e.payload);
      FloorOfNothingToShrink(e.payload);
    case Some(p) =>
      var next := e.(payload := ElideAt(e.payload, p));
      ElideAtShrinks(e.payload, p);
      ElideAtAddressable(e.payload, p);
      FloorIsConfluent(e.payload, p);
      FrameLenDelta(e, next.payload);
      FloorNeverLonger(next);
  }

  /** A leaf that can shrink, and none that can is longer. */
  ghost predicate IsLongest(v: Payload, p: Path) {
    CanShrink(v, p) && forall q | CanShrink(v, q) :: ByteLen(LeafAt(v, q)) <= ByteLen(LeafAt(v, p))
  }

  /** Every pass is needed and elides a longest leaf: before each of them the
      frame still exceeds the cap. */
  lemma {:induction false} NoNeedlessPass(e: Event, k: nat)
    requires FrameLen(e) > CAP && k < |Passes(e)|
    ensures HasLeaves(e.payload, Passes(e)[..k])
    ensures
      var v := ElideAll(e.payload, Passes(e)[..k]);
      FrameLen(e.(payload := v)) > CAP && IsLongest(v, Passes(e)[k])
    decreases k
  {
    LargestLeafIsChosen(e.payload);
    var p := LargestShrinkableLeaf(e.payload).value;
    if k == 0 {
      assert Passes(e)[..0] == [];
    } else {
      var next := e.(payload := ElideAt(e.payload, p));
      LaterPass(e, p, k);
      NoNeedlessPass(next, k - 1);
      FirstPass(e.payload, p, Passes(next)[..k - 1]);
      assert next.(payload := ElideAll(next.payload, Passes(next)[..k - 1]))
          == e.(payload := ElideAll(next.payload, Passes(next)[..k - 1]));
    }
  }

  lemma LaterPass(e: Event, p: Path, k: nat)
    requires LargestShrinkableLeaf(e.payload) == Some(p) && CanShrink(e.payload, p) && 0 < k < |Passes(e)|
    ensures
      var next := e.(payload := ElideAt(e.payload, p));
      && FrameLen(next) > CAP && k - 1 < |Passes(next)| && Passes(e)[k] == Passes(next)[k - 1]
      && Passes(e)[..k] == [p] + Passes(next)[..k - 1]
  {
    assert Passes(e) == [p] + Passes(e.(payload := ElideAt(e.payload, p)));
  }

  lemma FirstPass(v: Payload, p: Path, others: seq<Path>)
    requires HasLeaf(v, p) && HasLeaves(ElideAt(v, p), others)
    ensures HasLeaves(v, [p] + others) && ElideAll(v, [p] + others) == ElideAll(ElideAt(v, p), others)
  {
    var paths := [p] + others;
    assert paths[1..] == others;
    forall i | 0 <= i < |paths| ensures HasLeaf(v, paths[i]) {
      if i > 0 {
        assert paths[i] == others[i - 1];
        SetLeafAt(v, p, Elide(LeafAt(v, p)), paths[i]);
      }
    }
  }

  /** And the passes go on as long as they help: if the frame exceeds the cap in
      the end, there is no leaf left that can shrink. */
  lemma {:induction false} NoPassLeft(e: Event, p: Path)
    requires FrameLen(e) > CAP && FrameLen(Trimmed(e)) > CAP
    ensures !CanShrink(Trimmed(e).payload, p)
    decreases Size(e.payload)
  {
    LargestLeafIsChosen(e.payload);
    if LargestShrinkableLeaf(e.payload).Some? {
      var q := LargestShrinkableLeaf(e.payload).value;
      var next := e.(payload := ElideAt(e.payload, q));
      ElideAtShrinks(e.payload, q);
      TrimmedStep(e, q);
      if FrameLen(next) > CAP {
        NoPassLeft(next, p);
      }
    } else {
      assert Trimmed(e) == e;
    }
  }

  /** The result in all cases: a frame under the cap is untouched; otherwise the
      payload keeps its shape and the frame fits, exactly when the floor fits,
      and else the payload is the stub. */
  lemma FittedMeaning(e: Event)
    requires Addressable(e.payload)
    ensures FrameLen(e) <= CAP ==> Fitted(e) == e
    ensures FrameLen(e) > CAP && FrameLen(WithFloor(e)) <= CAP ==>
              && FrameLen(Fitted(e)) <= CAP
              && Skeleton(Fitted(e).payload) == Skeleton(e.payload)
              && |Passes(e)| <= 2 * LeafCount(e.payload)
    ensures FrameLen(WithFloor(e)) > CAP ==> Fitted(e).payload == Stub(e.kind, SerializedLen(e.payload))
    ensures Fitted(e) == e.(payload := Fitted(e).payload)
  {
    PassesIsRun(e);
    if FrameLen(e) <= CAP {
      FloorNeverLonger(e);
    } else {
      TrimmedFitsIff(e);
      MapLeavesKeepsSkeleton(e.payload, Passes(e), Elide);
      RunLength(e.payload, Passes(e));
    }
  }

  /** The stub names the event's kind and the length of what it stands for. */
  lemma StubSays(e: Event)
    requires Addressable(e.payload) && FrameLen(WithFloor(e)) > CAP
    ensures
      var stub := Fitted(e).payload;
      && stub.Object? && stub.keys == ["elided", "originalBytes"] && |stub.items| == 2
      && stub.items[0] == Text(e.kind + " payload too large")
      && stub.items[1].Atom? && (forall i | 0 <= i < |stub.items[1].json| :: IsDigit(stub.items[1].json[i]))
      && Value(stub.items[1].json) == SerializedLen(e.payload)
  {
    FittedMeaning(e);
    ValueOfPrint(SerializedLen(e.payload));
  }

  /** A leaf of a trimmed payload is the original, or keeps 2,997 to 3,000 bytes
      of the original's head and as much of its tail. */
  lemma FittedLeaves(e: Event, q: Path)
    requires Addressable(e.payload) && HasLeaf(e.payload, q)
    requires FrameLen(WithFloor(e)) <= CAP
    ensures HasLeaf(Fitted(e).payload, q)
    ensures var s, t := LeafAt(e.payload, q), LeafAt(Fitted(e).payload, q);
            t == s || (&& Shrinks(s)
                       && Keeps(t, s[..CutStart(s)], s[CutEnd(s)..])
                       && RETAIN - 3 <= ByteLen(s[..CutStart(s)]) <= RETAIN
                       && RETAIN - 3 <= ByteLen(s[CutEnd(s)..]) <= RETAIN)
  {
    if FrameLen(e) > CAP {
      var s := LeafAt(e.payload, q);
      TrimmedFitsIff(e);
      PassesIsRun(e);
      MapLeavesAt(e.payload, Passes(e), Elide, q);
      RunElidesAtMostTwice(e.payload, Passes(e), q);
      var n := Times(Passes(e), q);
      if n > 0 {
        RepeatKeepsEnds(s, n);
        RetainedBytes(s);
      }
    }
  }

  // ---- Whether the stub fits ----------------------------------------------

  /** Printable ASCII without quotes and backslashes. */
  predicate Plain(s: string) {
    forall i :: 0 <= i < |s| ==> 0x20 <= s[i] as int < 0x80 && s[i] != '"' && s[i] != '\\'
  }

  lemma PlainLen(s: string)
    requires Plain(s)
    ensures EscapedLen(s) == |s|
  {
    PlainIsUnescaped(s);
    AsciiLen(s);
  }

  lemma TwoMembersSize(text: string, suffix: string, atom: string, ka: string, kb: string)
    requires Plain(suffix) && Plain(atom) && Plain(ka) && Plain(kb)
    ensures Size(Object([Text(text + suffix), Atom(atom)], [ka, kb]))
         == 11 + |ka| + EscapedLen(text) + |suffix| + |kb| + |atom|
  {
    var a, b := Text(text + suffix), Atom(atom);
    EscapedLenConcat(text, suffix);
    PlainLen(suffix);
    AsciiLen(atom);
    PlainLen(ka);
    PlainLen(kb);
    assert [a, b][1..] == [b] && [ka, kb][1..] == [kb] && [b][1..] == [];
    assert ItemsSize([b], [kb]) == 3 + EscapedLen(kb) + Size(b);
    assert ItemsSize([a, b], [ka, kb]) == 3 + EscapedLen(ka) + Size(a) + 1 + ItemsSize([b], [kb]);
  }

  lemma StubSize(kind: string, n: nat)
    ensures Size(Stub(kind, n)) == 48 + EscapedLen(kind) + |Print(n)|
  {
    TwoMembersSize(kind, " payload too large", Print(n), "elided", "originalBytes");
  }

  /** The documentation calls the stub trivially small. It fits exactly when the
      envelope and the event kind leave room for it. */
  lemma StubFitsIff(e: Event)
    ensures FrameLen(e.(payload := Stub(e.kind, SerializedLen(e.payload)))) <= CAP <==>
            FrameLen(e.(payload := Atom("null"))) + 44 + EscapedLen(e.kind)
              + |Print(SerializedLen(e.payload))| <= CAP
  {
    var bare := e.(payload := Atom("null"));
    var stub := Stub(e.kind, SerializedLen(e.payload));
    FrameLenDelta(bare, stub);
    StubSize(e.kind, SerializedLen(e.payload));
    AsciiLen("null");
  }

  /** The trimmed frame exceeds the cap exactly when neither the floor nor the
      stub fits. */
  lemma FittedFitsIff(e: Event)
    requires Addressable(e.payload)
    ensures FrameLen(Fitted(e)) <= CAP <==>
            || FrameLen(WithFloor(e)) <= CAP
            || FrameLen(e.(payload := Stub(e.kind, SerializedLen(e.payload)))) <= CAP
  {
    FittedMeaning(e);
    FloorNeverLonger(e);
  }

  lemma {:induction false} ItemNoLongerThanAll(items: seq<Payload>, keys: seq<string>, i: nat)
    requires i < |items|
    ensures Size(items[i]) <= ItemsSize(items, keys)
  {
    if i > 0 {
      ItemNoLongerThanAll(items[1..], if keys == [] then [] else keys[1..], i - 1);
    }
  }

  lemma OversizedFrame(e: Event, i: nat, text: string)
    requires i < |Frame(e).items| && Frame(e).items[i] == Text(text) && ByteLen(text) > CAP
    ensures FrameLen(e) > CAP
  {
    var f := Frame(e);
    SizeIsSerializedLen(f);
    EscapingNeverShortens(text);
    ItemNoLongerThanAll(f.items, f.keys, i);
  }

  /** A frame with one envelope field over the cap stays over it, stub or not:
      only the payload is ever replaced. */
  lemma OversizedFieldNeverFits(e: Event, i: nat, text: string)
    requires i < |Frame(e).items| - 1 && Frame(e).items[i] == Text(text) && ByteLen(text) > CAP
    ensures FrameLen(Fitted(e)) > CAP
  {
    assert Frame(Fitted(e)).items[i] == Text(text);
    OversizedFrame(Fitted(e), i, text);
  }

  /** The envelope field an agent controls: the session id it answered `session/new` with. */
  lemma OversizedSessionNeverFits(e: Event)
    requires e.sessionId.Some? && ByteLen(e.sessionId.value) > CAP
    ensures FrameLen(Fitted(e)) > CAP
  {
    OversizedFieldNeverFits(e, 5, e.sessionId.value);
  }

  /** Two passes over one leaf: the number of leaves does not bound the passes. */
  lemma PassesOutnumberLeaves(e: Event, s: string)
    requires s == seq(2 * RETAIN + 100, _ => 'a') && e.payload == Text(s)
    requires e.sessionId.Some? && ByteLen(e.sessionId.value) > CAP
    ensures LeafCount(e.payload) == 1 && Passes(e) == [[], []]
  {
    AsciiLen(s);
    LeafElidedTwice(s);
    NeverThrice(s);
    var once := e.(payload := Text(Elide(s)));
    var twice := e.(payload := Text(Elide(Elide(s))));
    OversizedFrame(once, 5, e.sessionId.value);
    OversizedFrame(twice, 5, e.sessionId.value);
    assert Passes(twice) == [];
    assert ElideAt(once.payload, []) == twice.payload;
    assert Passes(once) == [[]] + Passes(twice);
    assert ElideAt(e.payload, []) == once.payload;
    assert Passes(e) == [[]] + Passes(once);
  }
}
