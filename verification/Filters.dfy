/** Local rule matching: first match wins, and anything that goes wrong fails
    closed (crates/buzz-acp/src/filter.rs). Evaluating an expression is an
    oracle: each call brings the outcome every rule's expression would have. */
module Filters {
  import opened Options
  import Utf8
  import Uuids

  type Channel = Uuids.Uuid

  datatype ChannelScope = All(scope: string) | List(ids: seq<string>)

  datatype Rule = Rule(
    name: string,
    channels: ChannelScope,
    kinds: seq<nat>,
    requireMention: bool,
    filter: Option<string>,
    promptTag: Option<string>)

  datatype Event = Event(kind: nat, tags: seq<seq<string>>)

  /** What `evaluate_filter` answers: a boolean, a timeout or an error. */
  datatype Outcome = Holds | Fails | TimedOut | Errored

  datatype Call = Call(event: Event, channel: Channel, agent: string, outcomes: seq<Outcome>)

  datatype MatchedRule = MatchedRule(ruleIndex: nat, promptTag: string)

  const MAX_EXPR_LEN := 4096
  const MAX_CONSECUTIVE_TIMEOUTS := 5
  const ALL := "all"

  /** The local scope test compares strings. */
  predicate ScopeMatches(scope: ChannelScope, ch: Channel) {
    match scope
    case All(s) => s == ALL
    case List(ids) => Uuids.Format(ch) in ids
  }

  predicate KindListed(kinds: seq<nat>, kind: nat) {
    kinds == [] || kind in kinds
  }

  /** Some tag is `["p", agent, …]`. */
  predicate Mentions(e: Event, agent: string) {
    exists i | 0 <= i < |e.tags| :: |e.tags[i]| >= 2 && e.tags[i][0] == "p" && e.tags[i][1] == agent
  }

  /** The three tests made before any expression is evaluated. */
  predicate PassesCoarse(r: Rule, c: Call) {
    && ScopeMatches(r.channels, c.channel)
    && KindListed(r.kinds, c.event.kind)
    && (r.requireMention ==> Mentions(c.event, c.agent))
  }

  /** The length cap is checked before the expression is evaluated. */
  function Evaluate(expr: string, oracle: Outcome): Outcome {
    if Utf8.ByteLen(expr) > MAX_EXPR_LEN then Errored else oracle
  }

  /** The evaluation of one rule reached with `timeouts` on its counter, if there is one. */
  function Evaluation(r: Rule, timeouts: nat, c: Call, oracle: Outcome): Option<Outcome> {
    if PassesCoarse(r, c) && r.filter.Some? && timeouts < MAX_CONSECUTIVE_TIMEOUTS
    then Some(Evaluate(r.filter.value, oracle))
    else None
  }

  datatype Step = Skip | Take | Block

  /** What the scan does at one rule: pass on, match, or give up on the event. */
  function StepOf(r: Rule, timeouts: nat, c: Call, oracle: Outcome): Step {
    if !PassesCoarse(r, c) then Skip
    else if r.filter.None? then Take
    else
      match Evaluation(r, timeouts, c, oracle)
      case Some(Holds) => Take
      case Some(Fails) => Skip
      case _ => Block
  }

  function Counted(timeouts: nat, evaluation: Option<Outcome>): nat {
    match evaluation
    case Some(Holds) => 0
    case Some(Fails) => 0
    case Some(TimedOut) => timeouts + 1
    case _ => timeouts
  }

  /** One counter per rule, and one oracle outcome per rule. */
  predicate Fits(rules: seq<Rule>, timeouts: seq<nat>, c: Call) {
    |timeouts| == |rules| == |c.outcomes|
  }

  function Steps(rules: seq<Rule>, timeouts: seq<nat>, c: Call): (steps: seq<Step>)
    requires Fits(rules, timeouts, c)
    ensures |steps| == |rules|
    ensures forall i {:trigger steps[i]} | 0 <= i < |rules| :: steps[i] == StepOf(rules[i], timeouts[i], c, c.outcomes[i])
  {
    seq(|rules|, i requires 0 <= i < |rules| => StepOf(rules[i], timeouts[i], c, c.outcomes[i]))
  }

  /** The scan comes to rule `i`: every earlier rule was rejected, coarsely or by a false filter. */
  predicate Reaches(steps: seq<Step>, i: nat)
    requires i <= |steps|
  {
    forall j | 0 <= j < i :: steps[j].Skip?
  }

  /** Rule `i` wins: it passes and every earlier one was rejected. */
  predicate Wins(steps: seq<Step>, i: nat) {
    i < |steps| && Reaches(steps, i) && steps[i].Take?
  }

  function PromptTag(r: Rule): string {
    if r.promptTag.Some? then r.promptTag.value else r.name
  }

  /** The evaluation of rule `i` in a call, if the scan gets that far. */
  function EvaluationAt(rules: seq<Rule>, timeouts: seq<nat>, c: Call, i: nat): Option<Outcome>
    requires Fits(rules, timeouts, c) && i < |rules|
  {
    if Reaches(Steps(rules, timeouts, c), i) then Evaluation(rules[i], timeouts[i], c, c.outcomes[i]) else None
  }

  function Evaluations(rules: seq<Rule>, timeouts: seq<nat>, c: Call): (es: seq<Option<Outcome>>)
    requires Fits(rules, timeouts, c)
    ensures |es| == |rules|
  {
    seq(|rules|, i requires 0 <= i < |rules| => EvaluationAt(rules, timeouts, c, i))
  }

  function CountAll(timeouts: seq<nat>, es: seq<Option<Outcome>>): (after: seq<nat>)
    requires |timeouts| == |es|
    ensures |after| == |es|
    ensures forall i {:trigger after[i]} | 0 <= i < |es| :: after[i] == Counted(timeouts[i], es[i])
  {
    seq(|es|, i requires 0 <= i < |es| => Counted(timeouts[i], es[i]))
  }

  /** The counters after a call. */
  function Next(rules: seq<Rule>, timeouts: seq<nat>, c: Call): (after: seq<nat>)
    requires Fits(rules, timeouts, c)
    ensures |after| == |rules|
  {
    CountAll(timeouts, Evaluations(rules, timeouts, c))
  }

  /** The configured rules and their shared timeout counters. */
  class RuleTable {
    const rules: seq<Rule>
    var timeouts: seq<nat>

    predicate Valid()
      reads this
    {
      |timeouts| == |rules| && forall i | 0 <= i < |rules| :: timeouts[i] <= MAX_CONSECUTIVE_TIMEOUTS
    }

    constructor (rules: seq<Rule>)
      ensures Valid() && this.rules == rules && timeouts == seq(|rules|, _ => 0)
    {
      this.rules := rules;
      timeouts := seq(|rules|, _ => 0);
    }

    /** `match_event`. */
    method MatchEvent(c: Call) returns (m: Option<MatchedRule>)
      requires Valid() && |c.outcomes| == |rules|
      modifies this
      ensures Valid()
      ensures timeouts == Next(rules, old(timeouts), c)
      ensures m.Some? ==>
                && Wins(Steps(rules, old(timeouts), c), m.value.ruleIndex)
                && m.value.promptTag == (match rules[m.value.ruleIndex].promptTag
                                         case Some(tag) => tag
                                         case None => rules[m.value.ruleIndex].name)
      ensures m.None? ==> forall i: nat :: !Wins(Steps(rules, old(timeouts), c), i)
    {
      ghost var steps := Steps(rules, timeouts, c);
      ghost var was := timeouts;
      var index := 0;
      while index < |rules|
        invariant 0 <= index <= |rules| && Valid()
        invariant Reaches(steps, index)
        invariant forall i | 0 <= i < index :: timeouts[i] == Counted(was[i], EvaluationAt(rules, was, c, i))
        invariant forall i | index <= i < |rules| :: timeouts[i] == was[i]
      {
        var rule := rules[index];
        if !PassesCoarse(rule, c) {
          index := index + 1;
          continue;
        }
        if rule.filter.Some? {
          if timeouts[index] >= MAX_CONSECUTIVE_TIMEOUTS {
            StoppedAt(rules, was, c, index);
            return None;
          }
          match Evaluate(rule.filter.value, c.outcomes[index]) {
            case Holds =>
              timeouts := timeouts[index := 0];
            case Fails =>
              timeouts := timeouts[index := 0];
              index := index + 1;
              continue;
            case TimedOut =>
              timeouts := timeouts[index := timeouts[index] + 1];
              StoppedAt(rules, was, c, index);
              return None;
            case Errored =>
              StoppedAt(rules, was, c, index);
              return None;
          }
        }
        StoppedAt(rules, was, c, index);
        return Some(MatchedRule(index, PromptTag(rule)));
      }
      return None;
    }
  }

  /** No rule after the one that ends the scan is evaluated, or wins. */
  lemma StoppedAt(rules: seq<Rule>, timeouts: seq<nat>, c: Call, at: nat)
    requires Fits(rules, timeouts, c) && at < |rules|
    requires !Steps(rules, timeouts, c)[at].Skip?
    ensures forall i | at < i < |rules| :: EvaluationAt(rules, timeouts, c, i).None?
    ensures forall i: nat | i > at :: !Wins(Steps(rules, timeouts, c), i)
  {
  }

  /** At most one rule wins, so the answer is determined. */
  lemma OneWinner(steps: seq<Step>, i: nat, j: nat)
    requires Wins(steps, i) && Wins(steps, j)
    ensures i == j
  {
  }

  /** What a match means: every earlier rule was rejected by a coarse test or
      was evaluated to false; none was disabled, timed out or failed. */
  lemma MatchIsFirst(rules: seq<Rule>, timeouts: seq<nat>, c: Call, i: nat, j: nat)
    requires Fits(rules, timeouts, c) && Wins(Steps(rules, timeouts, c), i) && j < i
    ensures PassesCoarse(rules[i], c)
    ensures rules[i].filter.Some? ==> EvaluationAt(rules, timeouts, c, i) == Some(Holds)
    ensures !PassesCoarse(rules[j], c) || EvaluationAt(rules, timeouts, c, j) == Some(Fails)
  {
    assert Steps(rules, timeouts, c)[j].Skip?;
  }

  /** Fail closed: a rule that is reached, passes the coarse tests and does not
      get an answer ends the call without a match, whatever rules follow it. */
  lemma FailsClosed(rules: seq<Rule>, timeouts: seq<nat>, c: Call, i: nat)
    requires Fits(rules, timeouts, c) && i < |rules| && Reaches(Steps(rules, timeouts, c), i)
    requires PassesCoarse(rules[i], c) && rules[i].filter.Some?
    requires
      || timeouts[i] >= MAX_CONSECUTIVE_TIMEOUTS
      || EvaluationAt(rules, timeouts, c, i) in {Some(TimedOut), Some(Errored)}
    ensures forall k: nat :: !Wins(Steps(rules, timeouts, c), k)
  {
    StoppedAt(rules, timeouts, c, i);
  }

  // ---- Exactly when a rule is the answer ----------------------------------

  /** The rule would answer this event: it passes the coarse tests, and its
      expression, if it has one, is evaluated to true. */
  predicate Accepts(r: Rule, timeouts: nat, c: Call, oracle: Outcome) {
    && PassesCoarse(r, c)
    && (r.filter.None? || (timeouts < 5 && Utf8.ByteLen(r.filter.value) <= 4096 && oracle.Holds?))
  }

  /** The event is none of the rule's business: it fails a coarse test, or its
      expression is evaluated to false. */
  predicate Rejects(r: Rule, timeouts: nat, c: Call, oracle: Outcome) {
    || !PassesCoarse(r, c)
    || (r.filter.Some? && timeouts < 5 && Utf8.ByteLen(r.filter.value) <= 4096 && oracle.Fails?)
  }

  /** A rule is the answer exactly when it accepts and every earlier one rejects. */
  lemma WinsIff(rules: seq<Rule>, timeouts: seq<nat>, c: Call, i: nat)
    requires Fits(rules, timeouts, c) && i < |rules|
    ensures
      Wins(Steps(rules, timeouts, c), i) <==>
        && Accepts(rules[i], timeouts[i], c, c.outcomes[i])
        && (forall j | 0 <= j < i :: Rejects(rules[j], timeouts[j], c, c.outcomes[j]))
  {
    var steps := Steps(rules, timeouts, c);
    forall j | 0 <= j < |rules|
      ensures steps[j].Skip? <==> Rejects(rules[j], timeouts[j], c, c.outcomes[j])
      ensures steps[j].Take? <==> Accepts(rules[j], timeouts[j], c, c.outcomes[j])
    {
    }
  }

  /** So an event whose first coarsely passing rule has no expression always
      matches that rule, whatever the counters say. */
  lemma UnconditionalRuleMatches(rules: seq<Rule>, timeouts: seq<nat>, c: Call, i: nat)
    requires Fits(rules, timeouts, c) && i < |rules| && PassesCoarse(rules[i], c) && rules[i].filter.None?
    requires forall j | 0 <= j < i :: !PassesCoarse(rules[j], c)
    ensures Wins(Steps(rules, timeouts, c), i)
  {
    WinsIff(rules, timeouts, c, i);
  }

  /** And an event no rule passes coarsely matches nothing, and counts nothing. */
  lemma NothingPasses(rules: seq<Rule>, timeouts: seq<nat>, c: Call)
    requires Fits(rules, timeouts, c) && forall j | 0 <= j < |rules| :: !PassesCoarse(rules[j], c)
    ensures forall i: nat :: !Wins(Steps(rules, timeouts, c), i)
    ensures Next(rules, timeouts, c) == timeouts
  {
    forall i: nat | i < |rules| ensures !Wins(Steps(rules, timeouts, c), i) {
      WinsIff(rules, timeouts, c, i);
    }
  }

  /** The counters, exactly: that of a rule the scan reaches and evaluates is
      cleared by an answer and raised by a timeout; all others stay. */
  lemma CountedIff(rules: seq<Rule>, timeouts: seq<nat>, c: Call, i: nat)
    requires Fits(rules, timeouts, c) && i < |rules|
    ensures
      var (r, o, after) := (rules[i], c.outcomes[i], Next(rules, timeouts, c)[i]);
      var evaluated :=
        && (forall j | 0 <= j < i :: Rejects(rules[j], timeouts[j], c, c.outcomes[j]))
        && PassesCoarse(r, c) && r.filter.Some? && timeouts[i] < 5 && Utf8.ByteLen(r.filter.value) <= 4096;
      after == if evaluated && (o.Holds? || o.Fails?) then 0 else if evaluated && o.TimedOut? then timeouts[i] + 1 else timeouts[i]
  {
    var steps := Steps(rules, timeouts, c);
    forall j | 0 <= j < |rules|
      ensures steps[j].Skip? <==> Rejects(rules[j], timeouts[j], c, c.outcomes[j])
    {
    }
  }

  // ---- Runs of calls ------------------------------------------------------

  ghost predicate AllFit(rules: seq<Rule>, calls: seq<Call>) {
    forall k | 0 <= k < |calls| :: |calls[k].outcomes| == |rules|
  }

  /** The counters before call `k` of a sequential run. */
  function Before(rules: seq<Rule>, calls: seq<Call>, k: nat): (timeouts: seq<nat>)
    requires AllFit(rules, calls) && k <= |calls|
    ensures |timeouts| == |rules|
  {
    if k == 0 then seq(|rules|, _ => 0) else Next(rules, Before(rules, calls, k - 1), calls[k - 1])
  }

  /** How the expression of rule `i` fared in each call: not evaluated, or its outcome. */
  function Trace(rules: seq<Rule>, calls: seq<Call>, i: nat): (es: seq<Option<Outcome>>)
    requires AllFit(rules, calls) && i < |rules|
    ensures |es| == |calls|
  {
    seq(|calls|, k requires 0 <= k < |calls| => Evaluations(rules, Before(rules, calls, k), calls[k])[i])
  }

  /** The counter a trace leaves after its first `k` entries. */
  function CountAfter(es: seq<Option<Outcome>>, k: nat): nat
    requires k <= |es|
  {
    if k == 0 then 0 else Counted(CountAfter(es, k - 1), es[k - 1])
  }

  lemma CounterStep(rules: seq<Rule>, calls: seq<Call>, i: nat, k: nat)
    requires AllFit(rules, calls) && k < |calls| && i < |rules|
    ensures Before(rules, calls, k + 1)[i] == Counted(Before(rules, calls, k)[i], Trace(rules, calls, i)[k])
  {
  }

  /** Call `k` moves the counter of rule `i` as entry `k` of `es` says. */
  ghost predicate MovesBy(rules: seq<Rule>, calls: seq<Call>, i: nat, es: seq<Option<Outcome>>, k: nat)
    requires AllFit(rules, calls) && i < |rules| && k < |calls| == |es|
  {
    Before(rules, calls, k + 1)[i] == Counted(Before(rules, calls, k)[i], es[k])
  }

  lemma {:induction false} CounterFollows(rules: seq<Rule>, calls: seq<Call>, i: nat, es: seq<Option<Outcome>>, k: nat)
    requires AllFit(rules, calls) && i < |rules| && k <= |calls| == |es|
    requires forall j | 0 <= j < |calls| :: MovesBy(rules, calls, i, es, j)
    ensures Before(rules, calls, k)[i] == CountAfter(es, k)
  {
    if k > 0 {
      CounterFollows(rules, calls, i, es, k - 1);
      assert MovesBy(rules, calls, i, es, k - 1);
    }
  }

  lemma CounterFollowsTrace(rules: seq<Rule>, calls: seq<Call>, i: nat, k: nat)
    requires AllFit(rules, calls) && k <= |calls| && i < |rules|
    ensures Before(rules, calls, k)[i] == CountAfter(Trace(rules, calls, i), k)
  {
    var es := Trace(rules, calls, i);
    forall j | 0 <= j < |calls| ensures MovesBy(rules, calls, i, es, j) {
      CounterStep(rules, calls, i, j);
    }
    CounterFollows(rules, calls, i, es, k);
  }

  /** A rule at the cap is not evaluated. */
  ghost predicate Capped(es: seq<Option<Outcome>>) {
    forall k {:trigger es[k]} | 0 <= k < |es| && CountAfter(es, k) >= MAX_CONSECUTIVE_TIMEOUTS :: es[k].None?
  }

  lemma TraceIsCapped(rules: seq<Rule>, calls: seq<Call>, i: nat)
    requires AllFit(rules, calls) && i < |rules|
    ensures Capped(Trace(rules, calls, i))
  {
    var es := Trace(rules, calls, i);
    forall k | 0 <= k < |es| && CountAfter(es, k) >= MAX_CONSECUTIVE_TIMEOUTS ensures es[k].None? {
      CounterFollowsTrace(rules, calls, i, k);
    }
  }

  lemma {:induction false} CountWithinCap(es: seq<Option<Outcome>>, k: nat)
    requires Capped(es) && k <= |es|
    ensures CountAfter(es, k) <= MAX_CONSECUTIVE_TIMEOUTS
  {
    if k > 0 {
      CountWithinCap(es, k - 1);
    }
  }

  lemma {:induction false} StuckAtCap(es: seq<Option<Outcome>>, j: nat, k: nat)
    requires Capped(es) && j <= k <= |es| && CountAfter(es, j) == MAX_CONSECUTIVE_TIMEOUTS
    ensures CountAfter(es, k) == MAX_CONSECUTIVE_TIMEOUTS
  {
    if j < k {
      StuckAtCap(es, j, k - 1);
    }
  }

  predicate Answered(e: Option<Outcome>) {
    e == Some(Holds) || e == Some(Fails)
  }

  /** `ps` are timeouts before position `k`, in order, with no answer from the first of them on. */
  ghost predicate Straight(es: seq<Option<Outcome>>, ps: seq<nat>, k: nat)
    requires k <= |es|
  {
    && (forall n | 0 <= n < |ps| :: ps[n] < k && es[ps[n]] == Some(TimedOut))
    && (forall n, m | 0 <= n < m < |ps| :: ps[n] < ps[m])
    && (ps != [] ==> forall p | ps[0] <= p < k :: !Answered(es[p]))
  }

  lemma {:induction false} CountHasTimeouts(es: seq<Option<Outcome>>, k: nat) returns (ps: seq<nat>)
    requires k <= |es|
    ensures |ps| == CountAfter(es, k) && Straight(es, ps, k)
  {
    if k == 0 {
      return [];
    }
    var qs := CountHasTimeouts(es, k - 1);
    if Answered(es[k - 1]) {
      ps := [];
    } else if es[k - 1] == Some(TimedOut) {
      ps := qs + [k - 1];
    } else {
      ps := qs;
    }
  }

  lemma {:induction false} TimeoutsAreCounted(es: seq<Option<Outcome>>, ps: seq<nat>, k: nat)
    requires k <= |es| && Straight(es, ps, k)
    ensures CountAfter(es, k) >= |ps|
  {
    if ps != [] {
      var last := |ps| - 1;
      assert ps[0] <= ps[last] < k;
      assert !Answered(es[k - 1]);
      if ps[last] == k - 1 {
        TimeoutsAreCounted(es, ps[..last], k - 1);
      } else {
        TimeoutsAreCounted(es, ps, k - 1);
      }
    }
  }

  /** A rule is disabled exactly when its expression timed out five times with no answer in between or since. */
  lemma DisabledIff(rules: seq<Rule>, calls: seq<Call>, i: nat, k: nat)
    requires AllFit(rules, calls) && k <= |calls| && i < |rules|
    ensures Before(rules, calls, k)[i] == MAX_CONSECUTIVE_TIMEOUTS
            <==> exists ps :: |ps| == MAX_CONSECUTIVE_TIMEOUTS && Straight(Trace(rules, calls, i), ps, k)
  {
    var es := Trace(rules, calls, i);
    TraceIsCapped(rules, calls, i);
    CountWithinCap(es, k);
    CounterFollowsTrace(rules, calls, i, k);
    var ps := CountHasTimeouts(es, k);
    if qs :| |qs| == MAX_CONSECUTIVE_TIMEOUTS && Straight(es, qs, k) {
      TimeoutsAreCounted(es, qs, k);
    }
  }

  /** A disabled rule stays disabled, with its counter at five. */
  lemma DisabledForever(rules: seq<Rule>, calls: seq<Call>, i: nat, j: nat, k: nat)
    requires AllFit(rules, calls) && j <= k <= |calls| && i < |rules|
    requires Before(rules, calls, j)[i] == MAX_CONSECUTIVE_TIMEOUTS
    ensures Before(rules, calls, k)[i] == MAX_CONSECUTIVE_TIMEOUTS
  {
    TraceIsCapped(rules, calls, i);
    CounterFollowsTrace(rules, calls, i, j);
    CounterFollowsTrace(rules, calls, i, k);
    StuckAtCap(Trace(rules, calls, i), j, k);
  }

  /** From then on every event that reaches the rule and passes its coarse tests matches nothing. */
  lemma DisabledBlocks(rules: seq<Rule>, calls: seq<Call>, i: nat, j: nat, k: nat)
    requires AllFit(rules, calls) && j <= k < |calls| && i < |rules|
    requires Before(rules, calls, j)[i] == MAX_CONSECUTIVE_TIMEOUTS
    requires Reaches(Steps(rules, Before(rules, calls, k), calls[k]), i)
    requires PassesCoarse(rules[i], calls[k]) && rules[i].filter.Some?
    ensures forall w: nat :: !Wins(Steps(rules, Before(rules, calls, k), calls[k]), w)
  {
    DisabledForever(rules, calls, i, j, k);
    FailsClosed(rules, Before(rules, calls, k), calls[k], i);
  }
}
