/** Why the splice needs serialized emits: a run of two concurrent ones that
    loses an event (crates/buzz-acp/src/observer.rs:111-128,
    crates/buzz-acp/src/lib.rs:419-477). */
module SkippedEvents {
  import opened Options
  import opened ObserverBus
  import opened ObserverSplice
  import opened ObserverDelivery

  lemma Extend(run: seq<State>, steps: seq<Step>, step: Step) returns (run': seq<State>, steps': seq<Step>)
    requires IsRun(run, steps) && Enabled(run[|steps|], step)
    ensures IsRun(run', steps') && run'[|steps'|] == Next(run[|steps|], step)
  {
    run' := run + [Next(run[|steps|], step)];
    steps' := steps + [step];
  }

  /** Two emits have their numbers and neither has pushed. */
  lemma BothNumbered(e: Event, f: Event) returns (run: seq<State>, steps: seq<Step>)
    requires e.seq_ == 1 && f.seq_ == 2
    ensures IsRun(run, steps)
    ensures run[|steps|] == State(Bus(3, [], None), {e, f}, {}, None, [], [], [], 0, 0, 0)
  {
    run, steps := [START], [];
    run, steps := Extend(run, steps, Draw(e));
    run, steps := Extend(run, steps, Draw(f));
  }

  /** Only the second has pushed when the publisher subscribes. */
  lemma SecondPushed(e: Event, f: Event) returns (run: seq<State>, steps: seq<Step>)
    requires e.seq_ == 1 && f.seq_ == 2
    ensures IsRun(run, steps)
    ensures run[|steps|] == State(Bus(3, [f], Some([])), {e}, {f}, None, [], [f], [], 0, 0, 0)
  {
    run, steps := BothNumbered(e, f);
    assert {e, f} - {f} == {e};
    run, steps := Extend(run, steps, Push(f));
    run, steps := Extend(run, steps, Subscribe);
  }

  /** And when the snapshot is taken. */
  lemma SnapshotBetween(e: Event, f: Event) returns (run: seq<State>, steps: seq<Step>)
    requires e.seq_ == 1 && f.seq_ == 2
    ensures IsRun(run, steps)
    ensures run[|steps|] == State(Bus(3, [f], Some([])), {e}, {f}, Some(2), [f], [f], [], 0, 1, 0)
  {
    run, steps := SecondPushed(e, f);
    assert MaxSeq([f]) == 2;
    run, steps := Extend(run, steps, TakeSnapshot);
  }

  /** So the publisher may never pass on the first. */
  lemma SkippedEvent(e: Event, f: Event) returns (run: seq<State>, steps: seq<Step>)
    requires e.seq_ == 1 && f.seq_ == 2
    ensures IsRun(run, steps) && CaughtUp(run[|steps|])
    ensures e in run[|steps|].log && e !in run[|steps|].delivered
  {
    run, steps := SnapshotBetween(e, f);
    run, steps := Extend(run, steps, Send(f));
    assert run[|steps|].unsent == {} && run[|steps|].bus.live.value == [f];
    run, steps := Extend(run, steps, Push(e));
    run, steps := Extend(run, steps, Send(e));
    assert run[|steps|].unsent == {} && run[|steps|].bus.live.value == [f, e];
    run, steps := Extend(run, steps, Receive);
    run, steps := Extend(run, steps, Receive);
    assert run[|steps|].bus.live.value == [];
    assert run[|steps|].log == [f, e] && run[|steps|].delivered == [f];
  }
}
