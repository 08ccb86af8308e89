/** The merged `CODEX_CONFIG` value for a Codex agent
    (crates/buzz-acp/src/acp.rs:241-356). Parsing JSON text is a parameter; the
    result is the JSON object before it is printed. */
module CodexConfig {
  import opened Options
  import opened Json
  import opened JsonMerge

  datatype Source = Persona | Generated | Parent

  datatype CodexError =
    | NotJson(source: Source)
    | NotAnObject(source: Source)
    | SandboxNotAnObject(found: Value)

  type Parser = string -> Option<Value>

  const CODEX_CONFIG := "CODEX_CONFIG"
  const SANDBOX := "sandbox_workspace_write"
  const NETWORK := "network_access"

  // ---- What is built ------------------------------------------------------

  /** The `CODEX_CONFIG` values of the first `n` variables, in order. */
  function Entries(env: seq<(string, string)>, n: nat): seq<string>
    requires n <= |env|
  {
    if n == 0 then []
    else if env[n - 1].0 == CODEX_CONFIG then Entries(env, n - 1) + [env[n - 1].1]
    else Entries(env, n - 1)
  }

  /** Every layer's text, lowest precedence first: the entries, then the parent environment. */
  function Texts(env: seq<(string, string)>, parent: Option<string>): seq<string> {
    Entries(env, |env|) + (if parent.Some? then [parent.value] else [])
  }

  predicate HoldsObject(parse: Parser, text: string) {
    parse(text).Some? && parse(text).value.Object?
  }

  /** The first layer from `i` on that is not a JSON object. */
  function FirstBad(parse: Parser, texts: seq<string>, i: nat): (bad: nat)
    requires i <= |texts|
    ensures i <= bad <= |texts|
    ensures forall j | i <= j < bad :: HoldsObject(parse, texts[j])
    ensures bad < |texts| ==> !HoldsObject(parse, texts[bad])
    decreases |texts| - i
  {
    if i == |texts| || !HoldsObject(parse, texts[i]) then i else FirstBad(parse, texts, i + 1)
  }

  function ErrorOf(parse: Parser, text: string, source: Source): CodexError {
    if parse(text).None? then NotJson(source) else NotAnObject(source)
  }

  function SourceOf(i: nat, entries: nat): Source {
    if i == entries then Parent else if i == 0 then Persona else Generated
  }

  function LayerOf(parse: Parser, text: string): Members
    requires HoldsObject(parse, text)
  {
    parse(text).value.members
  }

  /** Every text holds a JSON object. */
  predicate AllObjects(parse: Parser, texts: seq<string>) {
    forall i | 0 <= i < |texts| :: HoldsObject(parse, texts[i])
  }

  function Layers(parse: Parser, texts: seq<string>): (layers: seq<Members>)
    requires AllObjects(parse, texts)
    ensures |layers| == |texts|
    ensures forall i | 0 <= i < |texts| :: layers[i] == LayerOf(parse, texts[i])
  {
    seq(|texts|, i requires 0 <= i < |texts| => LayerOf(parse, texts[i]))
  }

  /** Network access is switched on in the sandbox table, which is added if missing. */
  function Forced(m: Members): Result<Members, CodexError> {
    if SANDBOX !in m then Ok(m[SANDBOX := Object(map[NETWORK := Bool(true)])])
    else if m[SANDBOX].Object? then Ok(m[SANDBOX := Object(m[SANDBOX].members[NETWORK := Bool(true)])])
    else Err(SandboxNotAnObject(m[SANDBOX]))
  }

  function Built(env: seq<(string, string)>, parent: Option<string>, hasGenerated: bool, parse: Parser)
    : Result<Option<Members>, CodexError>
  {
    var entries := Entries(env, |env|);
    if !hasGenerated || entries == [] then Ok(None)
    else
      var texts := Texts(env, parent);
      var bad := FirstBad(parse, texts, 0);
      if bad < |texts| then Err(ErrorOf(parse, texts[bad], SourceOf(bad, |entries|)))
      else
        match Forced(Layered(Layers(parse, texts), |texts|))
        case Ok(m) => Ok(Some(m))
        case Err(e) => Err(e)
  }

  // ---- The operation ------------------------------------------------------

  /** The values of the `CODEX_CONFIG` entries. */
  method CollectEntries(env: seq<(string, string)>) returns (entries: seq<string>)
    ensures entries == Entries(env, |env|)
  {
    entries := [];
    for i := 0 to |env|
      invariant entries == Entries(env, i)
    {
      if env[i].0 == CODEX_CONFIG {
        entries := entries + [env[i].1];
      }
    }
  }

  method ParseLayer(parse: Parser, text: string, source: Source) returns (r: Result<Members, CodexError>)
    ensures r == if HoldsObject(parse, text) then Ok(LayerOf(parse, text)) else Err(ErrorOf(parse, text, source))
  {
    match parse(text) {
      case Some(Object(members)) => r := Ok(members);
      case Some(_) => r := Err(NotAnObject(source));
      case None => r := Err(NotJson(source));
    }
  }

  /** Parses the entries up to the first that is not an object. */
  method ParseEntries(parse: Parser, entries: seq<string>) returns (r: Result<seq<Members>, CodexError>)
    ensures
      var bad := FirstBad(parse, entries, 0);
      r == if bad < |entries| then Err(ErrorOf(parse, entries[bad], if bad == 0 then Persona else Generated))
           else Ok(Layers(parse, entries))
  {
    var parsed: seq<Members> := [];
    for i := 0 to |entries|
      invariant |parsed| == i <= FirstBad(parse, entries, 0)
      invariant forall j | 0 <= j < i :: parsed[j] == LayerOf(parse, entries[j])
    {
      var layer := ParseLayer(parse, entries[i], if i == 0 then Persona else Generated);
      if layer.Err? {
        return Err(layer.error);
      }
      parsed := parsed + [layer.value];
    }
    assert parsed == Layers(parse, entries);
    r := Ok(parsed);
  }

  /** Merges each layer over the ones before it. */
  method MergeAll(layers: seq<Members>) returns (base: Members)
    requires layers != []
    ensures base == Layered(layers, |layers|)
  {
    base := layers[0];
    MergeNothing(base);
    assert Layered(layers, 1) == Merged(Layered(layers, 0), base);
    for i := 1 to |layers|
      invariant base == Layered(layers, i)
    {
      base := DeepMerge(base, layers[i]);
    }
  }

  /** The sandbox entry, inserted if missing, gets its network setting. */
  method ForceNetwork(merged: Members) returns (r: Result<Members, CodexError>)
    ensures r == Forced(merged)
  {
    var base := merged;
    if SANDBOX !in base {
      base := base[SANDBOX := Object(map[])];
    }
    match base[SANDBOX] {
      case Object(members) =>
        base := base[SANDBOX := Object(members[NETWORK := Bool(true)])];
        assert base == merged[SANDBOX := Object(members[NETWORK := Bool(true)])];
        r := Ok(base);
      case other =>
        r := Err(SandboxNotAnObject(other));
    }
  }

  /** `build_codex_config_env`. */
  method BuildCodexConfigEnv(env: seq<(string, string)>, parent: Option<string>, hasGenerated: bool, parse: Parser)
    returns (r: Result<Option<Members>, CodexError>)
    ensures r == Built(env, parent, hasGenerated, parse)
  {
    if !hasGenerated {
      return Ok(None);
    }
    var entries := CollectEntries(env);
    if entries == [] {
      return Ok(None);
    }
    ghost var texts := Texts(env, parent);
    BadAmongEntries(parse, entries, parent);
    var parsed := ParseEntries(parse, entries);
    if parsed.Err? {
      return Err(parsed.error);
    }
    var base := MergeAll(parsed.value);
    if parent.Some? {
      var layer := ParseLayer(parse, parent.value, Parent);
      if layer.Err? {
        return Err(layer.error);
      }
      LayersPush(parse, entries, parent.value);
      base := DeepMerge(base, layer.value);
    } else {
      assert texts == entries;
    }
    assert base == Layered(Layers(parse, texts), |texts|);
    var forced := ForceNetwork(base);
    match forced {
      case Ok(m) => r := Ok(Some(m));
      case Err(e) => r := Err(e);
    }
  }

  /** The parent layer is looked at only when all entries are objects. */
  lemma BadAmongEntries(parse: Parser, entries: seq<string>, parent: Option<string>)
    ensures
      var texts := entries + (if parent.Some? then [parent.value] else []);
      var bad := FirstBad(parse, entries, 0);
      FirstBad(parse, texts, 0) ==
        if bad < |entries| || parent.None? || !HoldsObject(parse, parent.value) then bad else bad + 1
  {
    var texts := entries + (if parent.Some? then [parent.value] else []);
    var a, b := FirstBad(parse, entries, 0), FirstBad(parse, texts, 0);
    assert a < |entries| ==> texts[a] == entries[a];
    assert b < |entries| ==> texts[b] == entries[b];
    assert parent.Some? ==> texts[|entries|] == parent.value;
  }

  lemma LayeredPush(layers: seq<Members>, top: Members)
    ensures Layered(layers + [top], |layers| + 1) == Merged(Layered(layers, |layers|), top)
  {
    LayeredPrefix(layers, layers + [top], |layers|);
  }

  lemma LayersPush(parse: Parser, entries: seq<string>, parent: string)
    requires AllObjects(parse, entries) && HoldsObject(parse, parent)
    ensures AllObjects(parse, entries + [parent])
    ensures Layered(Layers(parse, entries + [parent]), |entries| + 1)
            == Merged(Layered(Layers(parse, entries), |entries|), LayerOf(parse, parent))
  {
    var texts := entries + [parent];
    forall i | 0 <= i < |texts| ensures HoldsObject(parse, texts[i]) {
      assert texts[i] == if i < |entries| then entries[i] else parent;
    }
    var few, all := Layers(parse, entries), Layers(parse, texts);
    assert all == few + [LayerOf(parse, parent)];
    LayeredPush(few, LayerOf(parse, parent));
  }

  lemma NoneBad(parse: Parser, texts: seq<string>)
    requires AllObjects(parse, texts)
    ensures FirstBad(parse, texts, 0) == |texts|
  {
  }

  lemma {:induction false} LayeredPrefix(a: seq<Members>, b: seq<Members>, n: nat)
    requires n <= |a| <= |b| && b[..|a|] == a
    ensures Layered(a, n) == Layered(b, n)
  {
    if n > 0 {
      LayeredPrefix(a, b, n - 1);
      assert a[n - 1] == b[..|a|][n - 1];
    }
  }

  // ---- What is guaranteed -------------------------------------------------

  /** Among the layers that have a sandbox entry, the last one has an object there. */
  ghost predicate SandboxMerges(layers: seq<Members>) {
    forall i: nat | LastWith(layers, |layers|, SANDBOX, i) :: layers[i][SANDBOX].Object?
  }

  /** Exactly when a value is built: Buzz injected an entry, every layer is a
      JSON object and the layer that decides the sandbox entry has an object there. */
  lemma BuiltIff(env: seq<(string, string)>, parent: Option<string>, hasGenerated: bool, parse: Parser)
    ensures
      var texts := Texts(env, parent);
      (Built(env, parent, hasGenerated, parse).Ok? && Built(env, parent, hasGenerated, parse).value.Some?)
      <==> (hasGenerated && Entries(env, |env|) != [] && AllObjects(parse, texts) && SandboxMerges(Layers(parse, texts)))
  {
    var texts := Texts(env, parent);
    if AllObjects(parse, texts) {
      NoneBad(parse, texts);
      ShapeOfKey(Layers(parse, texts), |texts|, SANDBOX);
    }
  }

  /** The entries are the values of exactly the `CODEX_CONFIG` variables, in the order they are set. */
  ghost predicate AreAt(env: seq<(string, string)>, n: nat, entries: seq<string>, at: seq<nat>) {
    && n <= |env| && |at| == |entries|
    && (forall k | 0 <= k < |at| :: at[k] < n && env[at[k]] == ("CODEX_CONFIG", entries[k]))
    && (forall j, k | 0 <= j < k < |at| :: at[j] < at[k])
    && (forall i | 0 <= i < n && env[i].0 == "CODEX_CONFIG" :: i in at)
  }

  lemma {:induction false} EntriesAreAt(env: seq<(string, string)>, n: nat) returns (at: seq<nat>)
    requires n <= |env|
    ensures AreAt(env, n, Entries(env, n), at)
  {
    at := [];
    if n > 0 {
      at := EntriesAreAt(env, n - 1);
      if env[n - 1].0 == CODEX_CONFIG {
        at := at + [n - 1];
      }
    }
  }

  /** Layer `i` is not a JSON object, and the first of which that is true. */
  predicate IsFirstBad(parse: Parser, texts: seq<string>, i: nat) {
    i < |texts| && !HoldsObject(parse, texts[i]) && forall j | 0 <= j < i :: HoldsObject(parse, texts[j])
  }

  /** The error names layer `i`: the first entry is the persona's, later ones are
      generated, and after the entries comes the parent environment. */
  predicate Names(e: CodexError, parse: Parser, text: string, i: nat, entries: nat) {
    var source := if i == entries then Parent else if i == 0 then Persona else Generated;
    e == if parse(text).None? then NotJson(source) else NotAnObject(source)
  }

  /** A layer is reported exactly when it is the first that is not a JSON object. */
  lemma LayerErrorIff(
      env: seq<(string, string)>, parent: Option<string>, hasGenerated: bool, parse: Parser, e: CodexError)
    requires !e.SandboxNotAnObject?
    ensures
      var texts, entries := Texts(env, parent), Entries(env, |env|);
      Built(env, parent, hasGenerated, parse) == Err(e) <==>
        hasGenerated && entries != [] && exists i: nat :: IsFirstBad(parse, texts, i) && Names(e, parse, texts[i], i, |entries|)
  {
    var texts := Texts(env, parent);
    var bad := FirstBad(parse, texts, 0);
    if i: nat :| IsFirstBad(parse, texts, i) {
      assert i == bad;
    }
    if bad < |texts| {
      assert IsFirstBad(parse, texts, bad);
    }
  }

  /** The sandbox entry is reported exactly when all layers are objects and the
      last one that has it has no object there; the error shows that value. */
  lemma SandboxErrorIff(
      env: seq<(string, string)>, parent: Option<string>, hasGenerated: bool, parse: Parser, found: Value)
    ensures
      var texts := Texts(env, parent);
      Built(env, parent, hasGenerated, parse) == Err(SandboxNotAnObject(found)) <==>
        && hasGenerated && Entries(env, |env|) != [] && AllObjects(parse, texts) && !found.Object?
        && (var layers := Layers(parse, texts);
            exists i: nat :: LastWith(layers, |layers|, SANDBOX, i) && layers[i][SANDBOX] == found)
  {
    var texts := Texts(env, parent);
    if AllObjects(parse, texts) {
      NoneBad(parse, texts);
      LeafOfKey(Layers(parse, texts), |texts|, SANDBOX, found);
    }
  }

  /** Nothing is built, and nothing is an error, without an injected entry. */
  lemma NothingBuiltIff(env: seq<(string, string)>, parent: Option<string>, hasGenerated: bool, parse: Parser)
    ensures Built(env, parent, hasGenerated, parse) == Ok(None)
            <==> !hasGenerated || forall i | 0 <= i < |env| :: env[i].0 != CODEX_CONFIG
  {
    NoEntriesIff(env, |env|);
  }

  lemma {:induction false} NoEntriesIff(env: seq<(string, string)>, n: nat)
    requires n <= |env|
    ensures Entries(env, n) == [] <==> forall i | 0 <= i < n :: env[i].0 != CODEX_CONFIG
  {
    if n > 0 {
      NoEntriesIff(env, n - 1);
    }
  }

  /** Buzz's own requirement as a layer. */
  function NetworkLayer(): Members {
    map[SANDBOX := Object(map[NETWORK := Bool(true)])]
  }

  /** Forcing network access is one more merge, on top of all others. */
  lemma ForcedIsMerge(m: Members)
    requires Forced(m).Ok?
    ensures Forced(m).value == Merged(m, NetworkLayer())
  {
    var top := NetworkLayer();
    var forced := Forced(m).value;
    forall k | k in forced ensures forced[k] == MergedAt(m, top, k) {
      if k == SANDBOX && k in m {
        var inner := top[SANDBOX].members;
        assert Merged(m[SANDBOX].members, inner) == m[SANDBOX].members[NETWORK := Bool(true)];
      }
    }
  }

  /** The built value is its layers and the network layer, merged in order. */
  lemma BuiltIsLayered(env: seq<(string, string)>, parent: Option<string>, parse: Parser, m: Members)
    requires Built(env, parent, true, parse) == Ok(Some(m))
    ensures AllObjects(parse, Texts(env, parent))
    ensures m == Merged(Layered(Layers(parse, Texts(env, parent)), |Texts(env, parent)|), NetworkLayer())
  {
    ForcedIsMerge(Layered(Layers(parse, Texts(env, parent)), |Texts(env, parent)|));
  }

  /** Relay access is on in every value built. */
  lemma NetworkIsOn(env: seq<(string, string)>, parent: Option<string>, hasGenerated: bool, parse: Parser, m: Members)
    requires Built(env, parent, hasGenerated, parse) == Ok(Some(m))
    ensures GetPath(Object(m), [SANDBOX, NETWORK]) == Some(Bool(true))
  {
    var top := NetworkLayer();
    BuiltIsLayered(env, parent, parse, m);
    var path := [SANDBOX, NETWORK];
    assert path[1..] == [NETWORK] && path[1..][1..] == [];
    assert GetPath(top[SANDBOX], [NETWORK]) == Some(Bool(true));
    assert GetPath(Object(top), path) == GetPath(top[SANDBOX], [NETWORK]);
    OverlayLeafWins(Layered(Layers(parse, Texts(env, parent)), |Texts(env, parent)|), top, path, Bool(true));
  }

  /** The network layer touches a path only below its own leaf, or at the sandbox table itself. */
  lemma NetworkLayerClears(path: seq<string>)
    requires !([SANDBOX, NETWORK] <= path) && path != [SANDBOX]
    ensures Clears(NetworkLayer(), path)
  {
    var top := NetworkLayer();
    forall n | 1 <= n <= |path|
      ensures var at := GetPath(Object(top), path[..n]); at.None? || (n < |path| && at.value.Object?)
    {
      if path[0] != SANDBOX {
        GetPathAbsent(top, path, n);
      } else {
        GetPathStep(top, path, n);
        if n > 1 {
          var q := path[1..][..n - 1];
          assert q[0] == path[1];
          assert path[1] == NETWORK ==> [SANDBOX, NETWORK] <= path;
          assert GetPath(top[SANDBOX], q).None?;
        }
      }
    }
  }

  /** A leaf of any layer is kept when no later layer touches its path, unless
      it lies at or below the forced network setting. */
  lemma LeafKept(
      env: seq<(string, string)>, parent: Option<string>, parse: Parser, m: Members,
      i: nat, path: seq<string>, leaf: Value)
    requires Built(env, parent, true, parse) == Ok(Some(m))
    requires i < |Texts(env, parent)| && AllObjects(parse, Texts(env, parent))
    requires
      var layers := Layers(parse, Texts(env, parent));
      && GetPath(Object(layers[i]), path) == Some(leaf)
      && forall j | i < j < |layers| :: Clears(layers[j], path)
    requires !leaf.Object? && !([SANDBOX, NETWORK] <= path)
    ensures GetPath(Object(m), path) == Some(leaf)
  {
    var layers := Layers(parse, Texts(env, parent));
    var merged := Layered(layers, |layers|);
    BuiltIsLayered(env, parent, parse, m);
    LastWriterWins(layers, i, |layers|, path, leaf);
    if path == [SANDBOX] {
      assert false;
    } else {
      NetworkLayerClears(path);
      BaseLeafSurvives(merged, NetworkLayer(), path, leaf);
    }
  }

  /** The parent environment has precedence: all its leaves are in the built
      value, except at the forced network setting. */
  lemma ParentLeafKept(
      env: seq<(string, string)>, parent: string, parse: Parser, m: Members,
      path: seq<string>, leaf: Value)
    requires Built(env, Some(parent), true, parse) == Ok(Some(m))
    requires parse(parent).Some? && GetPath(parse(parent).value, path) == Some(leaf)
    requires !leaf.Object? && !([SANDBOX, NETWORK] <= path)
    ensures GetPath(Object(m), path) == Some(leaf)
  {
    var texts := Texts(env, Some(parent));
    BuiltIsLayered(env, Some(parent), parse, m);
    assert texts[|texts| - 1] == parent;
    LeafKept(env, Some(parent), parse, m, |texts| - 1, path, leaf);
  }
}
