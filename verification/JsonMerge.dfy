/** The recursive merge of JSON objects (crates/buzz-acp/src/acp.rs:216-239),
    described by path lookup. */
module JsonMerge {
  import opened Options
  import opened Json

  type Members = map<string, Value>

  /** What one key of the merge holds. */
  function MergedAt(base: Members, overlay: Members, k: string): Value
    requires k in base || k in overlay
    decreases Object(overlay), 0
  {
    if k !in overlay then base[k]
    else if k in base && base[k].Object? && overlay[k].Object? then
      Object(Merged(base[k].members, overlay[k].members))
    else overlay[k]
  }

  function Merged(base: Members, overlay: Members): (m: Members)
    ensures m.Keys == base.Keys + overlay.Keys
    decreases Object(overlay), 1
  {
    map k | k in base.Keys + overlay.Keys :: MergedAt(base, overlay, k)
  }

  /** `deep_merge`: entry by entry, in whatever order the overlay yields them. */
  method DeepMerge(base: Members, overlay: Members) returns (merged: Members)
    ensures merged == Merged(base, overlay)
    decreases Object(overlay)
  {
    merged := base;
    var todo := overlay.Keys;
    while todo != {}
      invariant todo <= overlay.Keys
      invariant merged.Keys == base.Keys + (overlay.Keys - todo)
      invariant forall k | k in todo && k in base :: merged[k] == base[k]
      invariant forall k | k in merged && k !in todo :: merged[k] == MergedAt(base, overlay, k)
    {
      var k :| k in todo;
      if k in merged && merged[k].Object? && overlay[k].Object? {
        var inner := DeepMerge(merged[k].members, overlay[k].members);
        merged := merged[k := Object(inner)];
      } else {
        merged := merged[k := overlay[k]];
      }
      todo := todo - {k};
    }
  }

  // ---- The merge by path lookup -------------------------------------------

  predicate IsObject(v: Option<Value>) {
    v.Some? && v.value.Object?
  }

  /** At prefix `n` of the path the overlay has a value that does not merge with the base's. */
  predicate CollidesAt(base: Members, overlay: Members, path: seq<string>, n: nat)
    requires n <= |path|
  {
    && GetPath(Object(overlay), path[..n]).Some?
    && !(IsObject(GetPath(Object(base), path[..n])) && IsObject(GetPath(Object(overlay), path[..n])))
  }

  predicate Collides(base: Members, overlay: Members, path: seq<string>) {
    exists n | 1 <= n <= |path| :: CollidesAt(base, overlay, path, n)
  }

  /** What looking up `path` in the merge gives: the overlay's answer past a
      collision; otherwise the merge of both objects, or the base's answer. */
  function Answer(base: Members, overlay: Members, path: seq<string>): Option<Value> {
    var b, o := GetPath(Object(base), path), GetPath(Object(overlay), path);
    if Collides(base, overlay, path) then o
    else if IsObject(b) && IsObject(o) then Some(Object(Merged(b.value.members, o.value.members)))
    else b
  }

  lemma GetPathStep(m: Members, path: seq<string>, n: nat)
    requires 1 <= n <= |path| && path[0] in m
    ensures GetPath(Object(m), path[..n]) == GetPath(m[path[0]], path[1..][..n - 1])
  {
    assert path[..n][1..] == path[1..][..n - 1];
  }

  lemma GetPathAbsent(m: Members, path: seq<string>, n: nat)
    requires 1 <= n <= |path| && path[0] !in m
    ensures GetPath(Object(m), path[..n]).None?
  {
  }

  lemma GetPathFirst(m: Members, path: seq<string>)
    requires path != []
    ensures GetPath(Object(m), path[..1]) == if path[0] in m then Some(m[path[0]]) else None
  {
    assert path[..1][1..] == [];
  }

  lemma CollidesBelow(base: Members, overlay: Members, path: seq<string>)
    requires path != [] && path[0] in base && path[0] in overlay
    requires base[path[0]].Object? && overlay[path[0]].Object?
    ensures Collides(base, overlay, path)
            <==> Collides(base[path[0]].members, overlay[path[0]].members, path[1..])
  {
    var b, o, q := base[path[0]].members, overlay[path[0]].members, path[1..];
    forall n | 1 <= n <= |path| ensures CollidesAt(base, overlay, path, n) <==> CollidesAt(b, o, q, n - 1) {
      GetPathStep(base, path, n);
      GetPathStep(overlay, path, n);
    }
    if Collides(b, o, q) {
      var n :| 1 <= n <= |q| && CollidesAt(b, o, q, n);
      assert CollidesAt(base, overlay, path, n + 1);
    }
  }

  lemma CollidesHere(base: Members, overlay: Members, path: seq<string>)
    requires path != [] && path[0] in overlay
    requires !(path[0] in base && base[path[0]].Object? && overlay[path[0]].Object?)
    ensures Collides(base, overlay, path)
  {
    GetPathFirst(base, path);
    GetPathFirst(overlay, path);
    assert CollidesAt(base, overlay, path, 1);
  }

  lemma NoCollisionWithout(base: Members, overlay: Members, path: seq<string>)
    requires path != [] && path[0] !in overlay
    ensures !Collides(base, overlay, path)
  {
    forall n | 1 <= n <= |path| ensures !CollidesAt(base, overlay, path, n) {
      GetPathAbsent(overlay, path, n);
    }
  }

  /** The merge is described by path lookup, on every path. */
  lemma {:induction false} LookupMerged(base: Members, overlay: Members, path: seq<string>)
    ensures GetPath(Object(Merged(base, overlay)), path) == Answer(base, overlay, path)
    decreases |path|
  {
    if path != [] {
      var k := path[0];
      if k !in overlay {
        NoCollisionWithout(base, overlay, path);
      } else if k in base && base[k].Object? && overlay[k].Object? {
        CollidesBelow(base, overlay, path);
        LookupMerged(base[k].members, overlay[k].members, path[1..]);
      } else {
        CollidesHere(base, overlay, path);
      }
    }
  }

  /** Overlay leaves win. */
  lemma OverlayLeafWins(base: Members, overlay: Members, path: seq<string>, leaf: Value)
    requires !leaf.Object? && GetPath(Object(overlay), path) == Some(leaf)
    ensures GetPath(Object(Merged(base, overlay)), path) == Some(leaf)
  {
    LookupMerged(base, overlay, path);
    assert path[..|path|] == path;
    assert CollidesAt(base, overlay, path, |path|);
  }

  /** Objects of the overlay stay objects. */
  lemma OverlayObjectStays(base: Members, overlay: Members, path: seq<string>)
    requires IsObject(GetPath(Object(overlay), path))
    ensures IsObject(GetPath(Object(Merged(base, overlay)), path))
  {
    LookupMerged(base, overlay, path);
    assert path[..|path|] == path;
    if path != [] && !Collides(base, overlay, path) {
      assert !CollidesAt(base, overlay, path, |path|);
    }
  }

  /** The overlay leaves a path alone: on it there are at most objects, and nothing at its end. */
  ghost predicate Clears(overlay: Members, path: seq<string>) {
    forall n | 1 <= n <= |path| ::
      var at := GetPath(Object(overlay), path[..n]);
      at.None? || (n < |path| && at.value.Object?)
  }

  /** Base leaves that the overlay leaves alone survive. */
  lemma BaseLeafSurvives(base: Members, overlay: Members, path: seq<string>, leaf: Value)
    requires !leaf.Object? && GetPath(Object(base), path) == Some(leaf) && Clears(overlay, path)
    ensures GetPath(Object(Merged(base, overlay)), path) == Some(leaf)
  {
    LookupMerged(base, overlay, path);
    forall n | 1 <= n <= |path| ensures !CollidesAt(base, overlay, path, n) {
      if n < |path| {
        PrefixOfLeafIsObject(Object(base), path, n);
      }
    }
    assert path[..|path|] == path;
  }

  lemma {:induction false} PrefixOfLeafIsObject(v: Value, path: seq<string>, n: nat)
    requires n < |path| && GetPath(v, path).Some?
    ensures IsObject(GetPath(v, path[..n]))
  {
    if n > 0 {
      PrefixOfLeafIsObject(v.members[path[0]], path[1..], n - 1);
      assert path[..n][1..] == path[1..][..n - 1];
    }
  }

  // ---- Laws ---------------------------------------------------------------

  lemma MergeNothing(m: Members)
    ensures Merged(m, map[]) == m && Merged(map[], m) == m
  {
  }

  /** Merging the same overlay again changes nothing. */
  lemma {:induction false} MergeAgain(base: Members, overlay: Members)
    ensures Merged(Merged(base, overlay), overlay) == Merged(base, overlay)
    decreases Object(overlay)
  {
    var m := Merged(base, overlay);
    forall k | k in m ensures MergedAt(m, overlay, k) == m[k] {
      assert m[k] == MergedAt(base, overlay, k);
      if k in overlay && overlay[k].Object? {
        var o := overlay[k].members;
        var b := if k in base && base[k].Object? then base[k].members else map[];
        MergeNothing(o);
        MergeAgain(b, o);
        assert m[k] == Object(Merged(b, o));
      }
    }
  }

  /** Merging is not associative: a scalar between two objects erases the first. */
  lemma NotAssociative(k: string, i: string, j: string)
    requires i != j
    ensures
      var a: Members := map[k := Object(map[i := Null])];
      var b: Members := map[k := Null];
      var c: Members := map[k := Object(map[j := Null])];
      Merged(Merged(a, b), c) != Merged(a, Merged(b, c))
  {
    var a: Members := map[k := Object(map[i := Null])];
    var b: Members := map[k := Null];
    var c: Members := map[k := Object(map[j := Null])];
    assert MergedAt(a, b, k) == Null && MergedAt(b, c, k) == c[k];
    assert MergedAt(Merged(a, b), c, k) == c[k];
    var d := Merged(b, c);
    assert d[k] == c[k];
    assert MergedAt(a, d, k) == Object(Merged(a[k].members, c[k].members));
    assert i in Merged(a[k].members, c[k].members);
    assert Merged(Merged(a, b), c)[k] != Merged(a, d)[k];
  }

  // ---- Several layers -----------------------------------------------------

  /** The first `n` layers merged, each over the ones before. */
  function Layered(layers: seq<Members>, n: nat): Members
    requires n <= |layers|
  {
    if n == 0 then map[] else Merged(Layered(layers, n - 1), layers[n - 1])
  }

  /** A leaf is read from the last layer that touches its path. */
  lemma {:induction false} LastWriterWins(layers: seq<Members>, i: nat, n: nat, path: seq<string>, leaf: Value)
    requires i < n <= |layers|
    requires !leaf.Object? && GetPath(Object(layers[i]), path) == Some(leaf)
    requires forall j | i < j < n :: Clears(layers[j], path)
    ensures GetPath(Object(Layered(layers, n)), path) == Some(leaf)
  {
    if i == n - 1 {
      OverlayLeafWins(Layered(layers, n - 1), layers[i], path, leaf);
    } else {
      LastWriterWins(layers, i, n - 1, path, leaf);
      BaseLeafSurvives(Layered(layers, n - 1), layers[n - 1], path, leaf);
    }
  }

  /** Layer `i` is the last of the first `n` that has key `k`. */
  ghost predicate LastWith(layers: seq<Members>, n: nat, k: string, i: nat)
    requires n <= |layers|
  {
    i < n && k in layers[i] && forall j | i < j < n :: k !in layers[j]
  }

  /** A key holds a value that is no object exactly when the last layer with the key does. */
  lemma {:induction false} LeafOfKey(layers: seq<Members>, n: nat, k: string, leaf: Value)
    requires n <= |layers|
    ensures k in Layered(layers, n) && Layered(layers, n)[k] == leaf && !leaf.Object?
            <==> !leaf.Object? && exists i: nat :: LastWith(layers, n, k, i) && layers[i][k] == leaf
  {
    if n > 0 {
      LeafOfKey(layers, n - 1, k, leaf);
      var m := Layered(layers, n - 1);
      assert k in Layered(layers, n) ==> Layered(layers, n)[k] == MergedAt(m, layers[n - 1], k);
      if k in layers[n - 1] {
        assert LastWith(layers, n, k, n - 1);
        assert forall i: nat :: LastWith(layers, n, k, i) ==> i == n - 1;
      } else {
        assert forall i: nat :: LastWith(layers, n, k, i) <==> LastWith(layers, n - 1, k, i);
        assert k in Layered(layers, n) <==> k in m;
      }
    }
  }

  /** A top-level key ends up absent or an object exactly when its last layer gives it an object. */
  lemma ShapeOfKey(layers: seq<Members>, n: nat, k: string)
    requires n <= |layers|
    ensures k in Layered(layers, n) && !Layered(layers, n)[k].Object?
            <==> exists i: nat :: LastWith(layers, n, k, i) && !layers[i][k].Object?
  {
    if k in Layered(layers, n) {
      LeafOfKey(layers, n, k, Layered(layers, n)[k]);
    }
    if i: nat :| LastWith(layers, n, k, i) && !layers[i][k].Object? {
      LeafOfKey(layers, n, k, layers[i][k]);
    }
  }
}
