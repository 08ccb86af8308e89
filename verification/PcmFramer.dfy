/** The microphone tap of the huddle worklet: 960-sample frames cut from blocks
    of samples, with push-to-talk (desktop/public/worklet.js:18-64). */
module PcmFramer {
  import opened Options
  import opened Sequences

  type Sample = real
  type Samples = seq<Sample>

  const FRAME := 960

  /** `frames` posted so far, and the live part of the buffer. */
  datatype State = State(frames: seq<Samples>, partial: Samples, transmitting: bool)

  const START := State([], [], true)

  datatype Event = Block(input: Option<Samples>) | Ptt(active: bool)

  /** `TypedArray.set` throws when the leftover does not fit a fresh buffer. */
  predicate Overruns(s: State, e: Event) {
    e.Block? && e.input.Some? && s.transmitting && |s.partial| + |e.input.value| > 2 * FRAME
  }

  function Next(s: State, e: Event): State {
    match e
    case Ptt(active) => s.(transmitting := active)
    case Block(None) => s
    case Block(Some(input)) =>
      if !s.transmitting then s.(partial := [])
      else
        var all := s.partial + input;
        if |all| < FRAME then s.(partial := all)
        else
          s.(frames := s.frames + [all[..FRAME]],
             partial := if Overruns(s, e) then [] else all[FRAME..])
  }

  class SttTapProcessor {
    var buffer: array<Sample>
    var offset: nat
    var transmitting: bool
    /** What `postMessage` has handed to the main thread. */
    var posted: seq<Samples>

    predicate Valid()
      reads this
    {
      buffer.Length == FRAME && offset <= FRAME
    }

    function Value(): State
      requires Valid()
      reads this, buffer
    {
      State(posted, buffer[..offset], transmitting)
    }

    constructor ()
      ensures Valid() && fresh(buffer) && Value() == START
    {
      buffer := new Sample[FRAME](_ => 0.0);
      offset, transmitting, posted := 0, true, [];
    }

    /** `buffer.set(samples, at)`. */
    method Set(samples: Samples, at: nat)
      requires Valid() && at + |samples| <= FRAME
      modifies buffer
      ensures buffer[at..at + |samples|] == samples
      ensures buffer[..at] == old(buffer[..at])
    {
      forall i | 0 <= i < |samples| {
        buffer[at + i] := samples[i];
      }
    }

    /** `process`; `threw` when `buffer.set` raised a RangeError. */
    method Process(input: Option<Samples>) returns (threw: bool)
      requires Valid()
      modifies this, buffer
      ensures Valid() && (buffer == old(buffer) || fresh(buffer))
      ensures Value() == Next(old(Value()), Block(input))
      ensures threw <==> Overruns(old(Value()), Block(input))
    {
      if input.None? {
        return false;
      }
      if !transmitting {
        offset := 0;
        return false;
      }
      ghost var all := buffer[..offset] + input.value;
      var remaining := buffer.Length - offset;
      var toCopy := if |input.value| < remaining then |input.value| else remaining;
      Set(input.value[..toCopy], offset);
      offset := offset + toCopy;
      assert buffer[..offset] == all[..offset];

      if offset >= buffer.Length {
        posted := posted + [buffer[..]];
        assert buffer[..] == all[..FRAME];
        buffer := new Sample[FRAME](_ => 0.0);
        offset := 0;
        if toCopy < |input.value| {
          var leftover := input.value[toCopy..];
          assert leftover == all[FRAME..];
          if |leftover| > FRAME {
            return true;
          }
          Set(leftover, 0);
          offset := |leftover|;
        }
      }
      threw := false;
    }

    /** The `ptt` message. */
    method OnMessage(active: bool)
      requires Valid()
      modifies this
      ensures Valid() && buffer == old(buffer)
      ensures Value() == Next(old(Value()), Ptt(active))
    {
      transmitting := active;
    }
  }

  // ---- Runs ---------------------------------------------------------------

  function Before(es: seq<Event>, k: nat): State
    requires k <= |es|
  {
    if k == 0 then START else Next(Before(es, k - 1), es[k - 1])
  }

  /** No block is longer than a frame; the Web Audio render quantum is 128 samples. */
  ghost predicate ShortBlocks(es: seq<Event>) {
    forall i | 0 <= i < |es| :: es[i].Block? && es[i].input.Some? ==> |es[i].input.value| <= FRAME
  }

  /** The whole frames of an uninterrupted recording. */
  function Frames(audio: Samples): (fs: seq<Samples>)
    ensures forall i | 0 <= i < |fs| :: |fs[i]| == FRAME
  {
    if |audio| < FRAME then [] else [audio[..FRAME]] + Frames(audio[FRAME..])
  }

  /** What is left over after its whole frames. */
  function Tail(audio: Samples): (t: Samples)
    ensures |t| < FRAME
  {
    if |audio| < FRAME then audio else Tail(audio[FRAME..])
  }

  function Flat(fs: seq<Samples>): Samples {
    if fs == [] then [] else fs[0] + Flat(fs[1..])
  }

  /** Cutting a recording loses and reorders nothing. */
  lemma {:induction false} FramesAreTheAudio(audio: Samples)
    ensures Flat(Frames(audio)) + Tail(audio) == audio
  {
    if |audio| >= FRAME {
      FramesAreTheAudio(audio[FRAME..]);
      Cons(audio[..FRAME], Frames(audio[FRAME..]));
    }
  }

  lemma {:induction false} FramesExtend(audio: Samples, more: Samples)
    ensures Frames(audio + more) == Frames(audio) + Frames(Tail(audio) + more)
    ensures Tail(audio + more) == Tail(Tail(audio) + more)
  {
    if |audio| >= FRAME {
      assert (audio + more)[..FRAME] == audio[..FRAME];
      assert (audio + more)[FRAME..] == audio[FRAME..] + more;
      FramesExtend(audio[FRAME..], more);
    }
  }

  /** The recordings of a run: what came in while transmitting, cut wherever a
      block was processed while muted. */
  datatype Recordings = Recordings(finished: seq<Samples>, current: Samples)

  function Record(r: Recordings, transmitting: bool, e: Event): Recordings {
    match e
    case Block(Some(input)) =>
      if transmitting then r.(current := r.current + input) else Recordings(r.finished + [r.current], [])
    case _ => r
  }

  /** Whether the last talk message before event `k` switched transmission on; it is on at first. */
  function On(es: seq<Event>, k: nat): bool
    requires k <= |es|
  {
    if k == 0 then true else if es[k - 1].Ptt? then es[k - 1].active else On(es, k - 1)
  }

  function Recorded(es: seq<Event>, k: nat): Recordings
    requires k <= |es|
  {
    if k == 0 then Recordings([], []) else Record(Recorded(es, k - 1), On(es, k - 1), es[k - 1])
  }

  function AllFrames(audios: seq<Samples>, n: nat): seq<Samples>
    requires n <= |audios|
  {
    if n == 0 then [] else AllFrames(audios, n - 1) + Frames(audios[n - 1])
  }

  /** The posted frames are the whole frames of each recording, in order, and
      the buffer holds the tail of the current one. */
  ghost predicate Cut(s: State, r: Recordings) {
    && s.frames == AllFrames(r.finished, |r.finished|) + Frames(r.current)
    && s.partial == Tail(r.current)
  }

  lemma {:induction false} AllFramesPrefix(a: seq<Samples>, b: seq<Samples>, n: nat)
    requires n <= |a| <= |b| && a == b[..|a|]
    ensures AllFrames(a, n) == AllFrames(b, n)
  {
    if n > 0 {
      AllFramesPrefix(a, b, n - 1);
      assert a[n - 1] == b[..|a|][n - 1];
    }
  }

  lemma CutStep(s: State, r: Recordings, e: Event)
    requires Cut(s, r)
    requires e.Block? && e.input.Some? ==> |e.input.value| <= FRAME
    ensures Cut(Next(s, e), Record(r, s.transmitting, e))
  {
    if e.Block? && e.input.Some? {
      if s.transmitting {
        var all := s.partial + e.input.value;
        FramesExtend(r.current, e.input.value);
        if |all| >= FRAME {
          assert Frames(all) == [all[..FRAME]] + Frames(all[FRAME..]) == [all[..FRAME]];
          ConcatAssoc(AllFrames(r.finished, |r.finished|), Frames(r.current), [all[..FRAME]]);
        }
      } else {
        AllFramesPrefix(r.finished, r.finished + [r.current], |r.finished|);
        assert Frames([]) == [] && Tail([]) == [];
      }
    }
  }

  lemma {:induction false} TransmittingIsOn(es: seq<Event>, k: nat)
    requires k <= |es|
    ensures Before(es, k).transmitting == On(es, k)
  {
    if k > 0 {
      TransmittingIsOn(es, k - 1);
    }
  }

  /** Every frame is one stretch of 960 consecutive samples of one recording,
      so none mixes samples from both sides of a muted block; what is posted and
      buffered is exactly the recordings cut into frames. */
  lemma {:induction false} RunIsCut(es: seq<Event>, k: nat)
    requires k <= |es| && ShortBlocks(es)
    ensures Cut(Before(es, k), Recorded(es, k))
  {
    if k > 0 {
      RunIsCut(es, k - 1);
      TransmittingIsOn(es, k - 1);
      CutStep(Before(es, k - 1), Recorded(es, k - 1), es[k - 1]);
    } else {
      assert Frames([]) == [];
    }
  }

  /** With short blocks nothing is ever thrown and the buffer is never left full. */
  lemma NeverOverruns(es: seq<Event>, k: nat)
    requires k < |es| && ShortBlocks(es)
    ensures |Before(es, k).partial| < FRAME && !Overruns(Before(es, k), es[k])
  {
    RunIsCut(es, k);
  }

  /** Every posted frame has exactly 960 samples, however long the blocks. */
  lemma {:induction false} PostedFramesAreWhole(es: seq<Event>, k: nat)
    requires k <= |es|
    ensures forall i | 0 <= i < |Before(es, k).frames| :: |Before(es, k).frames[i]| == FRAME
  {
    if k > 0 {
      PostedFramesAreWhole(es, k - 1);
    }
  }

  /** All the samples that came in before event `k`. */
  function Heard(es: seq<Event>, k: nat): Samples
    requires k <= |es|
  {
    if k == 0 then []
    else if es[k - 1].Block? && es[k - 1].input.Some? then Heard(es, k - 1) + es[k - 1].input.value
    else Heard(es, k - 1)
  }

  /** No block was processed while muted; talk messages between blocks do not matter. */
  ghost predicate NoneMuted(es: seq<Event>, k: nat)
    requires k <= |es|
  {
    forall i | 0 <= i < k && es[i].Block? && es[i].input.Some? :: On(es, i)
  }

  lemma {:induction false} OneRecording(es: seq<Event>, k: nat)
    requires k <= |es| && NoneMuted(es, k)
    ensures Recorded(es, k) == Recordings([], Heard(es, k))
  {
    if k > 0 {
      OneRecording(es, k - 1);
    }
  }

  /** While nothing is muted, posted frames and the live buffer concatenate to the input. */
  lemma NothingLostUnmuted(es: seq<Event>, k: nat)
    requires k <= |es| && ShortBlocks(es) && NoneMuted(es, k)
    ensures Flat(Before(es, k).frames) + Before(es, k).partial == Heard(es, k)
  {
    RunIsCut(es, k);
    OneRecording(es, k);
    assert AllFrames([], 0) + Frames(Heard(es, k)) == Frames(Heard(es, k));
    FramesAreTheAudio(Heard(es, k));
  }
}
