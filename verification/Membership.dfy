/** Membership notifications: two-generation deduplication and the per-channel
    timestamp watermark (crates/buzz-acp/src/lib.rs:1712-1751 and 1980-2095). */
module Membership {
  import Uuids

  type Channel = Uuids.Uuid

  datatype Notification = Notification(id: string, channel: Channel, ts: nat, added: bool)

  /** A generation rotates when it holds this many ids. */
  const GENERATION := 1000

  datatype State = State(
    current: set<string>,
    previous: set<string>,
    newest: map<Channel, nat>,
    removed: set<Channel>)

  const EMPTY := State({}, {}, map[], {})

  predicate Seen(s: State, id: string) {
    id in s.current || id in s.previous
  }

  function Remember(s: State, id: string): State {
    var current := s.current + {id};
    if |current| >= GENERATION then s.(current := {}, previous := current) else s.(current := current)
  }

  function Apply(s: State, n: Notification): State {
    s.(newest := s.newest[n.channel := n.ts],
       removed := if n.added then s.removed - {n.channel} else s.removed + {n.channel})
  }

  function Next(s: State, n: Notification): State {
    if Seen(s, n.id) then s
    else
      var t := Remember(s, n.id);
      if n.channel in t.newest && n.ts < t.newest[n.channel] then t else Apply(t, n)
  }

  class MembershipTracker {
    var seenCurrent: set<string>
    var seenPrevious: set<string>
    var newestTs: map<Channel, nat>
    var removedChannels: set<Channel>

    function Value(): State
      reads this
    {
      State(seenCurrent, seenPrevious, newestTs, removedChannels)
    }

    constructor ()
      ensures Value() == EMPTY
    {
      seenCurrent, seenPrevious, newestTs, removedChannels := {}, {}, map[], {};
    }

    /** Handles one notification; tells whether it took effect. */
    method Notify(n: Notification) returns (applied: bool)
      modifies this
      ensures Value() == Next(old(Value()), n)
      ensures !applied ==> newestTs == old(newestTs) && removedChannels == old(removedChannels)
      ensures applied ==> newestTs == old(newestTs)[n.channel := n.ts]
    {
      if n.id in seenCurrent || n.id in seenPrevious {
        return false;
      }
      seenCurrent := seenCurrent + {n.id};
      if |seenCurrent| >= GENERATION {
        seenPrevious, seenCurrent := seenCurrent, {};
      }
      if n.channel in newestTs && n.ts < newestTs[n.channel] {
        return false;
      }
      newestTs := newestTs[n.channel := n.ts];
      if n.added {
        removedChannels := removedChannels - {n.channel};
      } else {
        removedChannels := removedChannels + {n.channel};
      }
      applied := true;
    }
  }

  // ---- Every run ----------------------------------------------------------

  function Before(ns: seq<Notification>, k: nat): State
    requires k <= |ns|
  {
    if k == 0 then EMPTY else Next(Before(ns, k - 1), ns[k - 1])
  }

  /** Notification `i` passes the first layer: its id is not remembered. */
  predicate IsNew(ns: seq<Notification>, i: nat)
    requires i < |ns|
  {
    !Seen(Before(ns, i), ns[i].id)
  }

  /** The ids that passed the first layer before notification `k`, in order. */
  function NewIds(ns: seq<Notification>, k: nat): seq<string>
    requires k <= |ns|
  {
    if k == 0 then []
    else NewIds(ns, k - 1) + (if IsNew(ns, k - 1) then [ns[k - 1].id] else [])
  }

  // ---- The two generations ------------------------------------------------

  function AsSet(ids: seq<string>): set<string> {
    set id | id in ids
  }

  /** Where the current generation starts among `n` new ids. */
  function CurrentStart(n: nat): (c: nat)
    ensures c <= n < c + GENERATION
    ensures n >= GENERATION ==> c >= GENERATION
  {
    if n < GENERATION then 0 else GENERATION + CurrentStart(n - GENERATION)
  }

  function PreviousStart(n: nat): (p: nat)
    ensures p <= CurrentStart(n)
  {
    if CurrentStart(n) < GENERATION then 0 else CurrentStart(n) - GENERATION
  }

  /** The two sets are the two last generations of new ids, exactly. */
  ghost predicate Generations(s: State, ids: seq<string>) {
    GenerationsAt(s, ids, PreviousStart(|ids|), CurrentStart(|ids|))
  }

  /** The current generation starts at id `c`, the previous one at `p`. */
  ghost predicate GenerationsAt(s: State, ids: seq<string>, p: nat, c: nat)
    requires p <= c <= |ids|
  {
    && s.current == AsSet(ids[c..]) && |s.current| == |ids| - c
    && s.previous == AsSet(ids[p..c]) && |s.previous| == c - p
  }

  lemma {:induction false} CurrentStartNext(n: nat)
    ensures n + 1 == CurrentStart(n) + GENERATION ==>
              CurrentStart(n + 1) == n + 1 && PreviousStart(n + 1) == CurrentStart(n)
    ensures n + 1 < CurrentStart(n) + GENERATION ==>
              CurrentStart(n + 1) == CurrentStart(n) && PreviousStart(n + 1) == PreviousStart(n)
  {
    if n >= GENERATION {
      CurrentStartNext(n - GENERATION);
    }
  }

  lemma AsSetSnoc(ids: seq<string>, id: string)
    ensures AsSet(ids + [id]) == AsSet(ids) + {id}
  {
  }

  lemma RememberGrows(s: State, ids: seq<string>, id: string, p: nat, c: nat)
    requires p <= c <= |ids| && |ids| + 1 < c + GENERATION && GenerationsAt(s, ids, p, c) && !Seen(s, id)
    ensures GenerationsAt(Remember(s, id), ids + [id], p, c)
  {
    assert (ids + [id])[c..] == ids[c..] + [id] && (ids + [id])[p..c] == ids[p..c];
    AsSetSnoc(ids[c..], id);
    assert Remember(s, id) == s.(current := s.current + {id});
  }

  lemma RememberRotates(s: State, ids: seq<string>, id: string, p: nat, c: nat)
    requires p <= c <= |ids| && |ids| + 1 == c + GENERATION && GenerationsAt(s, ids, p, c) && !Seen(s, id)
    ensures GenerationsAt(Remember(s, id), ids + [id], c, |ids| + 1)
  {
    var more := ids + [id];
    assert more[c..|ids| + 1] == ids[c..] + [id] && more[|ids| + 1..] == [];
    AsSetSnoc(ids[c..], id);
    assert Remember(s, id) == s.(current := {}, previous := s.current + {id});
  }

  lemma RememberGenerations(s: State, ids: seq<string>, id: string)
    requires Generations(s, ids) && !Seen(s, id)
    ensures Generations(Remember(s, id), ids + [id])
  {
    CurrentStartNext(|ids|);
    var p, c := PreviousStart(|ids|), CurrentStart(|ids|);
    assert |ids + [id]| == |ids| + 1;
    if |ids| + 1 == c + GENERATION {
      RememberRotates(s, ids, id, p, c);
      assert PreviousStart(|ids + [id]|) == c && CurrentStart(|ids + [id]|) == |ids| + 1;
    } else {
      RememberGrows(s, ids, id, p, c);
      assert PreviousStart(|ids + [id]|) == p && CurrentStart(|ids + [id]|) == c;
    }
  }

  lemma {:induction false} RunGenerations(ns: seq<Notification>, k: nat)
    requires k <= |ns|
    ensures Generations(Before(ns, k), NewIds(ns, k))
  {
    if k > 0 {
      RunGenerations(ns, k - 1);
      assert NewIds(ns, k - 1) + [] == NewIds(ns, k - 1);
      if IsNew(ns, k - 1) {
        RememberGenerations(Before(ns, k - 1), NewIds(ns, k - 1), ns[k - 1].id);
      }
    }
  }

  /** At most 1,999 ids are ever held. */
  lemma AtMost1999Ids(ns: seq<Notification>, k: nat)
    requires k <= |ns|
    ensures |Before(ns, k).current| + |Before(ns, k).previous| <= 2 * GENERATION - 1
  {
    RunGenerations(ns, k);
  }

  /** An id is remembered exactly while it is among the new ids of the last two
      generations. */
  lemma SeenIff(ns: seq<Notification>, k: nat, id: string)
    requires k <= |ns|
    ensures Seen(Before(ns, k), id) <==> id in NewIds(ns, k)[PreviousStart(|NewIds(ns, k)|)..]
  {
    RunGenerations(ns, k);
    var ids := NewIds(ns, k);
    var p, c := PreviousStart(|ids|), CurrentStart(|ids|);
    assert ids[p..] == ids[p..c] + ids[c..];
  }

  /** A repeat is caught within the next 999 distinct new ids. */
  lemma RepeatIsCaught(ns: seq<Notification>, k: nat, p: nat)
    requires k < |ns| && p < |NewIds(ns, k)| && NewIds(ns, k)[p] == ns[k].id
    requires |NewIds(ns, k)| - 1 - p <= GENERATION - 1
    ensures !IsNew(ns, k) && Before(ns, k + 1) == Before(ns, k)
  {
    SeenIff(ns, k, ns[k].id);
    var ids := NewIds(ns, k);
    assert ids[PreviousStart(|ids|)..][p - PreviousStart(|ids|)] == ids[p];
  }

  // ---- Which notification decides -----------------------------------------

  /** An id identifies one notification. */
  ghost predicate Consistent(ns: seq<Notification>) {
    forall i, j :: 0 <= i < |ns| && 0 <= j < |ns| && ns[i].id == ns[j].id ==> ns[i] == ns[j]
  }

  lemma {:induction false} NewIdOccurred(ns: seq<Notification>, k: nat, id: string)
    requires k <= |ns| && id in NewIds(ns, k)
    ensures exists i :: 0 <= i < k && ns[i].id == id
  {
    if id in NewIds(ns, k - 1) {
      NewIdOccurred(ns, k - 1, id);
    } else {
      assert ns[k - 1].id == id;
    }
  }

  /** Of the notifications for `ch` before `k`, number `j` is the newest. */
  ghost predicate IsNewest(ns: seq<Notification>, k: nat, ch: Channel, j: nat)
    requires k <= |ns|
  {
    && j < k && ns[j].channel == ch
    && forall i :: 0 <= i < k && ns[i].channel == ch ==> ns[i].ts <= ns[j].ts
  }

  /** For each notification before `k`, whether it passed the first layer. */
  function Flags(ns: seq<Notification>, k: nat): (flags: seq<bool>)
    requires k <= |ns|
    ensures |flags| == k
  {
    if k == 0 then [] else Flags(ns, k - 1) + [IsNew(ns, k - 1)]
  }

  /** Number `j` is the newest, decided the membership, and whatever came after it
      with the same timestamp was caught as a repeat. */
  ghost predicate Decided(s: State, ns: seq<Notification>, flags: seq<bool>, ch: Channel, j: nat)
    requires |flags| <= |ns|
  {
    && IsNewest(ns, |flags|, ch, j) && flags[j]
    && ch in s.newest && s.newest[ch] == ns[j].ts
    && (ch in s.removed <==> !ns[j].added)
    && forall i :: j < i < |flags| && ns[i].channel == ch && ns[i].ts == ns[j].ts ==> !flags[i]
  }

  ghost predicate Untouched(s: State, ns: seq<Notification>, k: nat, ch: Channel)
    requires k <= |ns|
  {
    && (forall i :: 0 <= i < k ==> ns[i].channel != ch)
    && ch !in s.newest && ch !in s.removed
  }

  ghost predicate Settled(s: State, ns: seq<Notification>, flags: seq<bool>, ch: Channel)
    requires |flags| <= |ns|
  {
    Untouched(s, ns, |flags|, ch) || exists j :: Decided(s, ns, flags, ch, j)
  }

  lemma RepeatKeepsSettled(s: State, ns: seq<Notification>, flags: seq<bool>, ch: Channel, h: nat)
    requires |flags| < |ns| && Settled(s, ns, flags, ch)
    requires h < |flags| && ns[h] == ns[|flags|]
    ensures Settled(s, ns, flags + [false], ch)
  {
    var k := |flags|;
    if !Untouched(s, ns, k, ch) {
      var j :| Decided(s, ns, flags, ch, j);
      assert Decided(s, ns, flags + [false], ch, j);
    } else {
      assert Untouched(s, ns, k + 1, ch);
    }
  }

  lemma OtherKeepsSettled(s: State, t: State, ns: seq<Notification>, flags: seq<bool>, ch: Channel)
    requires |flags| < |ns| && Settled(s, ns, flags, ch)
    requires var n := ns[|flags|]; n.channel != ch || (ch in s.newest && n.ts < s.newest[ch])
    requires (ch in t.newest <==> ch in s.newest) && (ch in s.newest ==> t.newest[ch] == s.newest[ch])
    requires ch in t.removed <==> ch in s.removed
    ensures Settled(t, ns, flags + [true], ch)
  {
    var k := |flags|;
    if !Untouched(s, ns, k, ch) {
      var j :| Decided(s, ns, flags, ch, j);
      assert Decided(t, ns, flags + [true], ch, j);
    } else {
      assert Untouched(t, ns, k + 1, ch);
    }
  }

  lemma ApplySettles(s: State, ns: seq<Notification>, flags: seq<bool>)
    requires |flags| < |ns| && Settled(s, ns, flags, ns[|flags|].channel)
    requires var n := ns[|flags|]; n.channel in s.newest ==> n.ts >= s.newest[n.channel]
    ensures Settled(Apply(s, ns[|flags|]), ns, flags + [true], ns[|flags|].channel)
  {
    var k := |flags|;
    var ch := ns[k].channel;
    if !Untouched(s, ns, k, ch) {
      var j :| Decided(s, ns, flags, ch, j);
      assert IsNewest(ns, k + 1, ch, k);
    }
    assert Decided(Apply(s, ns[k]), ns, flags + [true], ch, k);
  }

  lemma NextSettles(s: State, ns: seq<Notification>, flags: seq<bool>, ch: Channel)
    requires |flags| < |ns| && Settled(s, ns, flags, ch) && !Seen(s, ns[|flags|].id)
    ensures Settled(Next(s, ns[|flags|]), ns, flags + [true], ch)
  {
    var n := ns[|flags|];
    var t := Remember(s, n.id);
    if n.channel == ch && !(ch in s.newest && n.ts < s.newest[ch]) {
      assert Settled(t, ns, flags, ch) by {
        if !Untouched(s, ns, |flags|, ch) {
          var j :| Decided(s, ns, flags, ch, j);
          assert Decided(t, ns, flags, ch, j);
        }
      }
      ApplySettles(t, ns, flags);
    } else {
      OtherKeepsSettled(s, Next(s, n), ns, flags, ch);
    }
  }

  lemma {:induction false} NewestDecides(ns: seq<Notification>, k: nat, ch: Channel)
    requires Consistent(ns) && k <= |ns|
    ensures Settled(Before(ns, k), ns, Flags(ns, k), ch)
  {
    if k > 0 {
      var m := k - 1;
      NewestDecides(ns, m, ch);
      if IsNew(ns, m) {
        NextSettles(Before(ns, m), ns, Flags(ns, m), ch);
      } else {
        SeenIff(ns, m, ns[m].id);
        NewIdOccurred(ns, m, ns[m].id);
        var h :| 0 <= h < m && ns[h].id == ns[m].id;
        RepeatKeepsSettled(Before(ns, m), ns, Flags(ns, m), ch, h);
      }
    }
  }

  lemma {:induction false} FlagsAre(ns: seq<Notification>, k: nat, i: nat)
    requires i < k <= |ns|
    ensures Flags(ns, k)[i] == IsNew(ns, i)
  {
    if i < k - 1 {
      FlagsAre(ns, k - 1, i);
    }
  }

  /** Notifications of one channel in the same second are the same one. */
  ghost predicate DistinctTimes(ns: seq<Notification>, ch: Channel) {
    forall a, b :: 0 <= a < |ns| && 0 <= b < |ns| && ns[a].channel == ch && ns[b].channel == ch ==>
                     ns[a].ts == ns[b].ts ==> ns[a].id == ns[b].id
  }

  lemma SameTimeIsSame(ns: seq<Notification>, ch: Channel, a: nat, b: nat)
    requires Consistent(ns) && DistinctTimes(ns, ch) && a < |ns| && b < |ns|
    requires ns[a].channel == ch && ns[b].channel == ch && ns[a].ts == ns[b].ts
    ensures ns[a] == ns[b]
  {
  }

  /** In whatever order and however often one channel's notifications arrive, if
      their timestamps differ the newest one decides the final membership. */
  lemma NewestNotificationWins(ns: seq<Notification>, ch: Channel, j: nat)
    requires Consistent(ns) && DistinctTimes(ns, ch) && IsNewest(ns, |ns|, ch, j)
    ensures ch in Before(ns, |ns|).removed <==> !ns[j].added
  {
    NewestDecides(ns, |ns|, ch);
    var d := Decider(Before(ns, |ns|), ns, Flags(ns, |ns|), ch, j);
    SameTimeIsSame(ns, ch, d, j);
  }

  lemma Decider(s: State, ns: seq<Notification>, flags: seq<bool>, ch: Channel, j: nat) returns (d: nat)
    requires |flags| == |ns| && Settled(s, ns, flags, ch) && IsNewest(ns, |ns|, ch, j)
    ensures Decided(s, ns, flags, ch, d) && ns[d].ts == ns[j].ts
  {
    d :| Decided(s, ns, flags, ch, d);
  }

  /** The first notification with its id. */
  ghost predicate FirstArrival(ns: seq<Notification>, i: nat)
    requires i < |ns|
  {
    forall h :: 0 <= h < i ==> ns[h].id != ns[i].id
  }

  lemma FirstArrivalIsNew(ns: seq<Notification>, i: nat)
    requires i < |ns| && FirstArrival(ns, i)
    ensures IsNew(ns, i)
  {
    SeenIff(ns, i, ns[i].id);
    if !IsNew(ns, i) {
      NewIdOccurred(ns, i, ns[i].id);
    }
  }

  /** Every repeat so far was caught by the first layer. */
  ghost predicate NothingForgotten(ns: seq<Notification>) {
    forall i :: 0 <= i < |ns| && IsNew(ns, i) ==> FirstArrival(ns, i)
  }

  /** No notification of the channel first arrives after `j` with its timestamp. */
  ghost predicate LastInItsSecond(ns: seq<Notification>, ch: Channel, j: nat)
    requires j < |ns|
  {
    forall i :: j < i < |ns| && ns[i].channel == ch && FirstArrival(ns, i) ==> ns[i].ts != ns[j].ts
  }

  lemma DeciderIsLast(s: State, ns: seq<Notification>, flags: seq<bool>, ch: Channel, j: nat, d: nat)
    requires |flags| == |ns| && Decided(s, ns, flags, ch, d) && j < |ns| && ns[j].channel == ch
    requires ns[d].ts == ns[j].ts && flags[j] && FirstArrival(ns, d) && LastInItsSecond(ns, ch, j)
    ensures d == j
  {
  }

  /** Within one second, while no repeat has been forgotten, the last first arrival
      decides: both halves of an add and remove take effect. */
  lemma LastFirstArrivalWins(ns: seq<Notification>, ch: Channel, j: nat)
    requires Consistent(ns) && IsNewest(ns, |ns|, ch, j) && FirstArrival(ns, j)
    requires NothingForgotten(ns) && LastInItsSecond(ns, ch, j)
    ensures ch in Before(ns, |ns|).removed <==> !ns[j].added
  {
    var s, flags := Before(ns, |ns|), Flags(ns, |ns|);
    NewestDecides(ns, |ns|, ch);
    var d := Decider(s, ns, flags, ch, j);
    FirstArrivalIsNew(ns, j);
    FlagsAre(ns, |ns|, j);
    FlagsAre(ns, |ns|, d);
    DeciderIsLast(s, ns, flags, ch, j, d);
  }
}
