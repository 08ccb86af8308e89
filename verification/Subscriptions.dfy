/** Relay-side channel filters merged from the local rules
    (crates/buzz-acp/src/config.rs:1240-1432), and how they relate to the exact
    local matching of `Filters`. Relay filters follow NIP-01: a kind list, or no
    list for every kind, and an optional mention tag. */
module Subscriptions {
  import opened Options
  import opened Filters
  import Uuids

  /** `kinds` absent asks for every kind. */
  datatype ChannelFilter = ChannelFilter(kinds: Option<seq<nat>>, requireMention: bool)

  datatype SubscribeMode = MentionsMode | AllMode | ConfigMode

  datatype Config = Config(
    mode: SubscribeMode,
    channelsOverride: Option<seq<string>>,
    kindsOverride: Option<seq<nat>>,
    noMentionFilter: bool)

  const KIND_STREAM_MESSAGE: nat := 9
  const KIND_STREAM_REMINDER: nat := 40007
  const KIND_WORKFLOW_APPROVAL_REQUESTED: nat := 46010

  const DEFAULT_KINDS: seq<nat> := [KIND_STREAM_MESSAGE, KIND_WORKFLOW_APPROVAL_REQUESTED, KIND_STREAM_REMINDER]

  /** What the relay delivers under a filter. */
  predicate Admits(f: ChannelFilter, kind: nat, mentioned: bool) {
    && (f.kinds.None? || kind in f.kinds.value)
    && (f.requireMention ==> mentioned)
  }

  predicate SomeParsesTo(ids: seq<string>, ch: Channel) {
    exists i | 0 <= i < |ids| :: Uuids.Parse(ids[i]) == Some(ch)
  }

  /** `rule_applies_to_channel`: the relay-side scope test compares parsed UUIDs. */
  predicate Applies(r: Rule, ch: Channel) {
    match r.channels
    case All(s) => s == ALL
    case List(ids) => SomeParsesTo(ids, ch)
  }

  // ---- What the merge should be -------------------------------------------

  /** The kinds listed by the first `n` rules that apply, in order. */
  function KindsListed(rules: seq<Rule>, ch: Channel, n: nat): seq<nat>
    requires n <= |rules|
  {
    if n == 0 then []
    else if Applies(rules[n - 1], ch) then KindsListed(rules, ch, n - 1) + rules[n - 1].kinds
    else KindsListed(rules, ch, n - 1)
  }

  /** First occurrences only, in order. */
  function Distinct(ks: seq<nat>): seq<nat> {
    if ks == [] then []
    else
      var init := ks[..|ks| - 1];
      var k := ks[|ks| - 1];
      if k in init then Distinct(init) else Distinct(init) + [k]
  }

  ghost predicate SomeApplies(rules: seq<Rule>, ch: Channel, n: nat)
    requires n <= |rules|
  {
    exists i | 0 <= i < n :: Applies(rules[i], ch)
  }

  ghost predicate SomeWildcard(rules: seq<Rule>, ch: Channel, n: nat)
    requires n <= |rules|
  {
    exists i | 0 <= i < n :: Applies(rules[i], ch) && rules[i].kinds == []
  }

  ghost predicate AllMention(rules: seq<Rule>, ch: Channel, n: nat)
    requires n <= |rules|
  {
    forall i | 0 <= i < n :: Applies(rules[i], ch) ==> rules[i].requireMention
  }

  ghost function MergedKinds(rules: seq<Rule>, ch: Channel, n: nat): Option<seq<nat>>
    requires n <= |rules|
  {
    if SomeWildcard(rules, ch, n) then None else Some(Distinct(KindsListed(rules, ch, n)))
  }

  /** The merged filter of a channel: every kind if some applicable rule is a
      wildcard, otherwise all listed kinds once each in order of first
      appearance; mention required when every applicable rule requires it. */
  ghost function Merged(rules: seq<Rule>, ch: Channel): Option<ChannelFilter> {
    if SomeApplies(rules, ch, |rules|)
    then Some(ChannelFilter(MergedKinds(rules, ch, |rules|), AllMention(rules, ch, |rules|)))
    else None
  }

  function MentionsFilter(config: Config): ChannelFilter {
    ChannelFilter(Some(if config.kindsOverride.Some? then config.kindsOverride.value else DEFAULT_KINDS),
                  !config.noMentionFilter)
  }

  predicate Allowed(config: Config, ch: Channel) {
    config.channelsOverride.Some? ==> SomeParsesTo(config.channelsOverride.value, ch)
  }

  /** The filter a channel is due under a configuration. */
  ghost function Due(config: Config, rules: seq<Rule>, ch: Channel): Option<ChannelFilter> {
    match config.mode
    case MentionsMode => if Allowed(config, ch) then Some(MentionsFilter(config)) else None
    case AllMode => if Allowed(config, ch) then Some(ChannelFilter(config.kindsOverride, false)) else None
    case ConfigMode => Merged(rules, ch)
  }

  // ---- Distinct -----------------------------------------------------------

  lemma {:induction false} DistinctMembers(ks: seq<nat>, k: nat)
    ensures k in Distinct(ks) <==> k in ks
  {
    if ks != [] {
      var init := ks[..|ks| - 1];
      assert ks == init + [ks[|ks| - 1]];
      DistinctMembers(init, k);
    }
  }

  ghost predicate NoDuplicates(ks: seq<nat>) {
    forall i, j | 0 <= i < j < |ks| :: ks[i] != ks[j]
  }

  lemma {:induction false} DistinctHasNoDuplicates(ks: seq<nat>)
    ensures NoDuplicates(Distinct(ks))
  {
    if ks != [] {
      var init := ks[..|ks| - 1];
      DistinctHasNoDuplicates(init);
      DistinctMembers(init, ks[|ks| - 1]);
    }
  }

  lemma DistinctPush(ks: seq<nat>, k: nat)
    ensures Distinct(ks + [k]) == if k in Distinct(ks) then Distinct(ks) else Distinct(ks) + [k]
  {
    assert (ks + [k])[..|ks + [k]| - 1] == ks;
    DistinctMembers(ks, k);
  }

  lemma DistinctNext(listed: seq<nat>, more: seq<nat>, i: nat)
    requires i < |more|
    ensures
      var seen := Distinct(listed + more[..i]);
      Distinct(listed + more[..i + 1]) == if more[i] in seen then seen else seen + [more[i]]
  {
    DistinctPush(listed + more[..i], more[i]);
    assert (listed + more[..i]) + [more[i]] == listed + more[..i + 1];
  }

  /** `kinds`, and then each of the first `n` of `more` that is not there yet. */
  function Added(kinds: seq<nat>, more: seq<nat>, n: nat): seq<nat>
    requires n <= |more|
  {
    if n == 0 then kinds
    else
      var seen := Added(kinds, more, n - 1);
      if more[n - 1] in seen then seen else seen + [more[n - 1]]
  }

  /** `d` takes up element `i` of `more` unless it has it already. */
  ghost predicate TakesUp(d: nat -> seq<nat>, more: seq<nat>, i: nat)
    requires i < |more|
  {
    d(i + 1) == if more[i] in d(i) then d(i) else d(i) + [more[i]]
  }

  lemma {:induction false} AddedFollows(d: nat -> seq<nat>, more: seq<nat>, n: nat)
    requires n <= |more| && forall i | 0 <= i < |more| :: TakesUp(d, more, i)
    ensures Added(d(0), more, n) == d(n)
  {
    if n > 0 {
      AddedFollows(d, more, n - 1);
      assert TakesUp(d, more, n - 1);
    }
  }

  lemma AddedIsDistinct(listed: seq<nat>, more: seq<nat>)
    ensures Added(Distinct(listed), more, |more|) == Distinct(listed + more)
  {
    var d := (n: nat) => Distinct(listed + more[..if n <= |more| then n else 0]);
    forall i | 0 <= i < |more| ensures TakesUp(d, more, i) {
      DistinctNext(listed, more, i);
    }
    AddedFollows(d, more, |more|);
    assert listed + more[..0] == listed && more[..|more|] == more;
  }

  // ---- The resolvers ------------------------------------------------------

  /** Adds to `kinds` what `more` lists and it lacks, in order. */
  method AddKinds(kinds: seq<nat>, more: seq<nat>, ghost listed: seq<nat>) returns (r: seq<nat>)
    requires kinds == Distinct(listed)
    ensures r == Distinct(listed + more)
  {
    r := kinds;
    for i := 0 to |more|
      invariant r == Added(kinds, more, i)
    {
      if more[i] !in r {
        r := r + [more[i]];
      }
    }
    AddedIsDistinct(listed, more);
  }

  /** The loop over the rules that both resolvers repeat. */
  method MergeRules(rules: seq<Rule>, ch: Channel) returns (r: Option<ChannelFilter>)
    ensures r == Merged(rules, ch)
  {
    var mergedKinds: Option<seq<nat>> := Some([]);
    var requireMention := true;
    var hasRule := false;
    for i := 0 to |rules|
      invariant hasRule <==> SomeApplies(rules, ch, i)
      invariant requireMention <==> AllMention(rules, ch, i)
      invariant mergedKinds == MergedKinds(rules, ch, i)
    {
      var rule := rules[i];
      assert SomeWildcard(rules, ch, i + 1) <==> SomeWildcard(rules, ch, i) || (Applies(rule, ch) && rule.kinds == []);
      if Applies(rule, ch) {
        hasRule := true;
        if rule.kinds == [] {
          mergedKinds := None;
        } else if mergedKinds.Some? {
          var kinds := AddKinds(mergedKinds.value, rule.kinds, KindsListed(rules, ch, i));
          mergedKinds := Some(kinds);
        }
        if !rule.requireMention {
          requireMention := false;
        }
      }
    }
    r := if hasRule then Some(ChannelFilter(mergedKinds, requireMention)) else None;
  }

  /** The override entries that parse to a discovered channel, or every discovered channel. */
  method TargetChannels(config: Config, discovered: seq<Channel>) returns (targets: seq<Channel>)
    ensures forall ch :: ch in targets <==> ch in discovered && Allowed(config, ch)
  {
    if config.channelsOverride.None? {
      return discovered;
    }
    var overrides := config.channelsOverride.value;
    targets := [];
    for i := 0 to |overrides|
      invariant forall ch :: ch in targets <==> ch in discovered && SomeParsesTo(overrides[..i], ch)
    {
      var id := Uuids.Parse(overrides[i]);
      forall ch ensures SomeParsesTo(overrides[..i + 1], ch) <==> SomeParsesTo(overrides[..i], ch) || id == Some(ch) {
        ParsesToPush(overrides, i, ch);
      }
      if id.Some? && id.value in discovered {
        targets := targets + [id.value];
      }
    }
    assert overrides[..|overrides|] == overrides;
  }

  lemma ParsesToPush(ids: seq<string>, i: nat, ch: Channel)
    requires i < |ids|
    ensures SomeParsesTo(ids[..i + 1], ch) <==> SomeParsesTo(ids[..i], ch) || Uuids.Parse(ids[i]) == Some(ch)
  {
    var more, less := ids[..i + 1], ids[..i];
    assert forall k | 0 <= k < i :: more[k] == less[k];
    assert more[i] == ids[i];
    if SomeParsesTo(less, ch) {
      var k :| 0 <= k < |less| && Uuids.Parse(less[k]) == Some(ch);
      assert Uuids.Parse(more[k]) == Some(ch);
    }
  }

  /** `resolve_channel_filters`: the filters to subscribe with at start-up. */
  method ResolveChannelFilters(config: Config, discovered: seq<Channel>, rules: seq<Rule>)
    returns (result: map<Channel, ChannelFilter>)
    ensures forall ch :: ch in result <==> ch in discovered && Due(config, rules, ch).Some?
    ensures forall ch | ch in result :: Due(config, rules, ch) == Some(result[ch])
  {
    var targets := TargetChannels(config, discovered);
    result := map[];
    match config.mode {
      case MentionsMode =>
        for i := 0 to |targets|
          invariant forall ch :: ch in result <==> ch in targets[..i]
          invariant forall ch | ch in result :: result[ch] == MentionsFilter(config)
        {
          result := result[targets[i] := MentionsFilter(config)];
        }
      case AllMode =>
        for i := 0 to |targets|
          invariant forall ch :: ch in result <==> ch in targets[..i]
          invariant forall ch | ch in result :: result[ch] == ChannelFilter(config.kindsOverride, false)
        {
          result := result[targets[i] := ChannelFilter(config.kindsOverride, false)];
        }
      case ConfigMode =>
        for i := 0 to |discovered|
          invariant forall ch :: ch in result <==> ch in discovered[..i] && Merged(rules, ch).Some?
          invariant forall ch | ch in result :: Merged(rules, ch) == Some(result[ch])
        {
          var merged := MergeRules(rules, discovered[i]);
          if merged.Some? {
            result := result[discovered[i] := merged.value];
          }
        }
    }
  }

  /** `resolve_dynamic_channel_filter`: the filter for one channel joined later. */
  method ResolveDynamicChannelFilter(config: Config, ch: Channel, rules: seq<Rule>) returns (r: Option<ChannelFilter>)
    ensures r == Due(config, rules, ch)
  {
    if config.mode != ConfigMode && config.channelsOverride.Some? {
      var allowed := SomeParsesTo(config.channelsOverride.value, ch);
      if !allowed {
        return None;
      }
    }
    match config.mode {
      case MentionsMode => r := Some(MentionsFilter(config));
      case AllMode => r := Some(ChannelFilter(config.kindsOverride, false));
      case ConfigMode => r := MergeRules(rules, ch);
    }
  }

  /** The two resolvers agree: on a discovered channel the start-up map holds
      exactly what the dynamic resolver answers, in every mode. */
  method StaticEqualsDynamic(config: Config, discovered: seq<Channel>, rules: seq<Rule>, ch: Channel) returns (same: bool)
    requires ch in discovered
    ensures same
  {
    var all := ResolveChannelFilters(config, discovered, rules);
    var one := ResolveDynamicChannelFilter(config, ch, rules);
    same := one == if ch in all then Some(all[ch]) else None;
  }

  // ---- What the merged filter means ---------------------------------------

  /** A rule taken by itself, as the relay would be asked for it. */
  function RuleFilter(r: Rule): ChannelFilter {
    ChannelFilter(if r.kinds == [] then None else Some(r.kinds), r.requireMention)
  }

  lemma {:induction false} KindsListedIff(rules: seq<Rule>, ch: Channel, n: nat, k: nat)
    requires n <= |rules|
    ensures k in KindsListed(rules, ch, n)
            <==> exists i | 0 <= i < n :: Applies(rules[i], ch) && k in rules[i].kinds
  {
    if n > 0 {
      KindsListedIff(rules, ch, n - 1, k);
    }
  }

  /** The kind side of the merge: asked for exactly when some applicable rule takes the kind. */
  lemma MergedKindIff(rules: seq<Rule>, ch: Channel, kind: nat)
    requires Merged(rules, ch).Some?
    ensures Merged(rules, ch).value.kinds.None? || kind in Merged(rules, ch).value.kinds.value
            <==> exists i | 0 <= i < |rules| :: Applies(rules[i], ch) && KindListed(rules[i].kinds, kind)
  {
    KindsListedIff(rules, ch, |rules|, kind);
    DistinctMembers(KindsListed(rules, ch, |rules|), kind);
  }

  /** No channel is subscribed with an empty or repeating kind list. */
  lemma MergedKindsAreProper(rules: seq<Rule>, ch: Channel)
    requires Merged(rules, ch).Some? && Merged(rules, ch).value.kinds.Some?
    ensures Merged(rules, ch).value.kinds.value != [] && NoDuplicates(Merged(rules, ch).value.kinds.value)
  {
    DistinctHasNoDuplicates(KindsListed(rules, ch, |rules|));
    var i :| 0 <= i < |rules| && Applies(rules[i], ch);
    assert rules[i].kinds != [];
    MergedKindIff(rules, ch, rules[i].kinds[0]);
    assert KindListed(rules[i].kinds, rules[i].kinds[0]);
  }

  /** The merged filter admits all that an applicable rule admits … */
  lemma MergedCovers(rules: seq<Rule>, ch: Channel, i: nat, kind: nat, mentioned: bool)
    requires i < |rules| && Applies(rules[i], ch) && Admits(RuleFilter(rules[i]), kind, mentioned)
    ensures Merged(rules, ch).Some? && Admits(Merged(rules, ch).value, kind, mentioned)
  {
    assert SomeApplies(rules, ch, |rules|);
    MergedKindIff(rules, ch, kind);
    assert KindListed(rules[i].kinds, kind);
  }

  ghost predicate Covers(f: ChannelFilter, r: Rule) {
    forall kind: nat, mentioned: bool :: Admits(RuleFilter(r), kind, mentioned) ==> Admits(f, kind, mentioned)
  }

  /** … and is the least relay filter that does. */
  lemma MergedIsLeast(rules: seq<Rule>, ch: Channel, f: ChannelFilter, kind: nat, mentioned: bool)
    requires forall i | 0 <= i < |rules| && Applies(rules[i], ch) :: Covers(f, rules[i])
    requires Merged(rules, ch).Some? && Admits(Merged(rules, ch).value, kind, mentioned)
    ensures Admits(f, kind, mentioned)
  {
    MergedKindIff(rules, ch, kind);
    var i :| 0 <= i < |rules| && Applies(rules[i], ch) && KindListed(rules[i].kinds, kind);
    assert Admits(RuleFilter(rules[i]), kind, true);
    assert Admits(f, kind, true);
    if f.requireMention && !mentioned {
      assert !AllMention(rules, ch, |rules|);
      var j :| 0 <= j < |rules| && Applies(rules[j], ch) && !rules[j].requireMention;
      var k := if rules[j].kinds == [] then 0 else rules[j].kinds[0];
      assert Admits(RuleFilter(rules[j]), k, false);
      assert false;
    }
  }

  /** When a channel is subscribed: in config mode if some rule applies to it, in
      the other modes unless an override lists channels and none parses to it. */
  lemma DueIff(config: Config, rules: seq<Rule>, ch: Channel)
    ensures
      Due(config, rules, ch).Some? <==>
        if config.mode == ConfigMode then exists i | 0 <= i < |rules| :: Applies(rules[i], ch)
        else config.channelsOverride.None?
             || exists i | 0 <= i < |config.channelsOverride.value| ::
                  Uuids.Parse(config.channelsOverride.value[i]) == Some(ch)
  {
  }

  /** What is asked for outside config mode: the kinds of the override, without
      one the three defaults in mentions mode and every kind in all mode; and only
      mentions in mentions mode, unless that filter is turned off. */
  lemma DueAdmits(config: Config, rules: seq<Rule>, ch: Channel, kind: nat, mentioned: bool)
    requires config.mode != ConfigMode && Due(config, rules, ch).Some?
    ensures
      Admits(Due(config, rules, ch).value, kind, mentioned) <==>
        && (match config.kindsOverride
            case Some(kinds) => kind in kinds
            case None => config.mode == AllMode || kind == 9 || kind == 46010 || kind == 40007)
        && (config.mode == AllMode || config.noMentionFilter || mentioned)
  {
  }

  // ---- Coarse and exact agree in one direction ----------------------------

  /** String equality with the printed id is the stricter scope test. */
  lemma ScopeMatchesApplies(r: Rule, ch: Channel)
    requires ScopeMatches(r.channels, ch)
    ensures Applies(r, ch)
  {
    if r.channels.List? {
      var i :| 0 <= i < |r.channels.ids| && r.channels.ids[i] == Uuids.Format(ch);
      Uuids.ParseOfFormat(ch);
    }
  }

  /** The coarse local tests are the scope test and the rule's own relay filter,
      the event being a mention if some `p` tag of it names the agent. */
  lemma CoarseIsRelayFilter(r: Rule, c: Call)
    ensures PassesCoarse(r, c) <==>
              && (match r.channels case All(s) => s == "all" case List(ids) => Uuids.Format(c.channel) in ids)
              && Admits(RuleFilter(r), c.event.kind,
                        exists tag | tag in c.event.tags :: |tag| >= 2 && tag[0] == "p" && tag[1] == c.agent)
  {
  }

  /** Config mode loses nothing at the relay: an event that matches locally is
      one the relay was asked to deliver for that channel. */
  lemma NothingLostAtRelay(config: Config, rules: seq<Rule>, timeouts: seq<nat>, c: Call, i: nat)
    requires config.mode == ConfigMode
    requires Fits(rules, timeouts, c) && Wins(Steps(rules, timeouts, c), i)
    ensures Due(config, rules, c.channel).Some?
    ensures Admits(Due(config, rules, c.channel).value, c.event.kind, Mentions(c.event, c.agent))
  {
    ScopeMatchesApplies(rules[i], c.channel);
    MergedCovers(rules, c.channel, i, c.event.kind, Mentions(c.event, c.agent));
  }

  /** Every entry that names a channel has its canonical spelling in the list too. */
  ghost predicate Canonical(ids: seq<string>) {
    forall i | 0 <= i < |ids| :: Uuids.Parse(ids[i]).Some? ==> Uuids.Format(Uuids.Parse(ids[i]).value) in ids
  }

  /** The two scope tests agree on every channel exactly for lists in canonical spelling. */
  lemma ScopesAgreeIff(r: Rule)
    requires r.channels.List?
    ensures (forall ch: Channel :: ScopeMatches(r.channels, ch) <==> Applies(r, ch)) <==> Canonical(r.channels.ids)
  {
    var ids := r.channels.ids;
    forall ch: Channel ensures ScopeMatches(r.channels, ch) ==> Applies(r, ch) {
      if ScopeMatches(r.channels, ch) {
        ScopeMatchesApplies(r, ch);
      }
    }
    if forall ch: Channel :: ScopeMatches(r.channels, ch) <==> Applies(r, ch) {
      forall i | 0 <= i < |ids| && Uuids.Parse(ids[i]).Some?
        ensures Uuids.Format(Uuids.Parse(ids[i]).value) in ids
      {
        assert SomeParsesTo(ids, Uuids.Parse(ids[i]).value);
        assert ScopeMatches(r.channels, Uuids.Parse(ids[i]).value);
      }
    }
  }

  /** A rule in another spelling is subscribed at the relay but never matches locally. */
  lemma UnlistedSpellingIsDead(rules: seq<Rule>, timeouts: seq<nat>, c: Call, i: nat, j: nat)
    requires Fits(rules, timeouts, c) && i < |rules| && rules[i].channels.List?
    requires j < |rules[i].channels.ids| && Uuids.Parse(rules[i].channels.ids[j]) == Some(c.channel)
    requires Uuids.Format(c.channel) !in rules[i].channels.ids
    ensures Merged(rules, c.channel).Some? && !Wins(Steps(rules, timeouts, c), i)
  {
    assert SomeParsesTo(rules[i].channels.ids, c.channel);
    assert Applies(rules[i], c.channel);
  }

  /** Such a spelling exists: 32 upper-case digits name a channel they do not print as. */
  lemma UpperCaseWitness(spelling: string, ch: Channel)
    requires spelling == seq(32, _ => 'A') && ch == seq(32, _ => 10)
    ensures Uuids.Parse(spelling) == Some(ch) && Uuids.Format(ch) != spelling
  {
    AllAs(spelling);
    assert Uuids.HexValues(spelling).value == ch;
    assert |Uuids.Format(ch)| == 36;
  }

  lemma {:induction false} AllAs(s: string)
    requires forall i | 0 <= i < |s| :: s[i] == 'A'
    ensures Uuids.HexValues(s).Some?
    ensures forall i | 0 <= i < |s| :: Uuids.HexValues(s).value[i] == 10
  {
    if s != "" {
      AllAs(s[1..]);
    }
  }
}
