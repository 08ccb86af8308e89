/** Carrying a property along a run, one step at a time. */
module Runs {
  import opened Options

  lemma {:induction false} Carry(holds: nat -> bool, from: nat, to: nat)
    requires from <= to && holds(from)
    requires forall k | from <= k < to && holds(k) :: holds(k + 1)
    ensures holds(to)
  {
    if from < to {
      Carry(holds, from, to - 1);
    }
  }

  lemma {:induction false} Grow(value: nat -> int, from: nat, to: nat)
    requires from <= to
    requires forall k | from <= k < to :: value(k) <= value(k + 1)
    ensures value(from) <= value(to)
  {
    if from < to {
      Grow(value, from, to - 1);
    }
  }

  /** The last step that changed the value, if any did. */
  lemma {:induction false} LastChange(value: nat -> int, to: nat) returns (at: Option<nat>)
    ensures at.None? ==> value(to) == value(0)
    ensures at.Some? ==> at.value < to && value(at.value) != value(at.value + 1) == value(to)
  {
    if to == 0 {
      return None;
    }
    if value(to - 1) != value(to) {
      return Some(to - 1);
    }
    at := LastChange(value, to - 1);
  }

  /** What is held was written at some step, if it starts out empty and is only
      ever kept, cleared or replaced by what the step writes. */
  lemma {:induction false} Origin<T>(held: nat -> Option<T>, wrote: nat -> Option<T>, k: nat) returns (w: nat)
    requires held(0).None? && held(k).Some?
    requires forall j | 0 <= j < k && held(j + 1).Some? :: held(j + 1) == held(j) || held(j + 1) == wrote(j)
    ensures w < k && wrote(w) == held(k)
  {
    var j := k - 1;
    assert held(j + 1) == held(j) || held(j + 1) == wrote(j);
    if held(k) == wrote(j) {
      return j;
    }
    w := Origin(held, wrote, j);
  }

  /** Each output is `f` of the state and the input at its place. */
  ghost predicate Links<S, I, O>(f: (S, I) -> O, run: seq<S>, inputs: seq<I>, outs: seq<O>) {
    |outs| == |inputs| <= |run| && forall k {:trigger outs[k]} | 0 <= k < |inputs| :: outs[k] == f(run[k], inputs[k])
  }

  lemma LinksSnoc<S, I, O>(f: (S, I) -> O, run: seq<S>, inputs: seq<I>, outs: seq<O>, s: S, i: I)
    requires |run| == |inputs| + 1 && Links(f, run, inputs, outs)
    ensures Links(f, run + [s], inputs + [i], outs + [f(run[|inputs|], i)])
  {
  }
}
