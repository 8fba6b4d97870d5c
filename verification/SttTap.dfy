/** The audio worklet that cuts microphone samples into 20 ms frames behind a push-to-talk gate. */
module SttTap {
  import opened Wrappers

  type Sample = real
  type Frame = seq<Sample>

  const FRAME: nat := 960

  /** What is buffered, whether the gate is open, and the frames posted to the main thread. */
  datatype Tap = Tap(held: seq<Sample>, transmitting: bool, posted: seq<Frame>)

  /** A quantum either returns or ends in a RangeError, which leaves the state it reached. */
  datatype Outcome = Returns(tap: Tap) | Throws(tap: Tap)

  function Quantum(t: Tap, input: Option<seq<Sample>>): (o: Outcome)
    requires |t.held| <= FRAME
    ensures |o.tap.held| <= FRAME
  {
    if input.None? then Returns(t)
    else if !t.transmitting then Returns(t.(held := []))
    else
      var n := Min(|input.value|, FRAME - |t.held|);
      var filled := t.held + input.value[..n];
      if |filled| < FRAME then Returns(t.(held := filled))
      else if |input.value| - n > FRAME then Throws(t.(held := [], posted := t.posted + [filled]))
      else Returns(t.(held := input.value[n..], posted := t.posted + [filled]))
  }

  /** What an open quantum does with a chunk of any length: it throws on more than two frames, and otherwise loses nothing. */
  lemma OpenQuantum(t: Tap, x: seq<Sample>)
    requires |t.held| <= FRAME && t.transmitting
    ensures var o := Quantum(t, Some(x)); var all := t.held + x;
            && (o.Throws? <==> |all| > 1920) && o.tap.transmitting
            && (|all| < 960 ==> o.tap.posted == t.posted && o.tap.held == all)
            && (960 <= |all| ==> o.tap.posted == t.posted + [all[..960]] && o.tap.held == if o.Throws? then [] else all[960..])
  {
    var n := Min(|x|, FRAME - |t.held|);
    assert t.held + x[..n] == (t.held + x)[..|t.held| + n];
    if |t.held| + |x| >= 960 {
      assert x[n..] == (t.held + x)[960..];
    } else {
      assert x[..n] == x;
    }
  }

  /** A quantum behind a closed gate drops what is held; one without a channel does nothing. */
  lemma ClosedQuantum(t: Tap, x: seq<Sample>)
    requires |t.held| <= FRAME
    ensures !t.transmitting ==> Quantum(t, Some(x)) == Returns(Tap([], false, t.posted))
    ensures Quantum(t, None) == Returns(t)
  {
  }

  class SttTapProcessor {
    var buffer: array<Sample>
    var offset: nat
    var transmitting: bool
    /** The messages sent through the port. */
    var posted: seq<Frame>

    ghost predicate Valid()
      reads this
    {
      buffer.Length == FRAME && offset <= FRAME
    }

    ghost function View(): Tap
      reads this, buffer
      requires Valid()
    {
      Tap(buffer[..offset], transmitting, posted)
    }

    constructor ()
      ensures Valid() && fresh(buffer) && View() == Tap([], true, [])
    {
      buffer, offset, transmitting, posted := new Sample[FRAME](_ => 0.0), 0, true, [];
    }

    /** The `ptt` message handler. */
    method OnPtt(active: bool)
      requires Valid()
      modifies this
      ensures Valid() && buffer == old(buffer) && View() == old(View()).(transmitting := active)
    {
      transmitting := active;
    }

    /** Typed-array `set`: copies all of `samples`, or throws when they do not fit. */
    method Set(samples: seq<Sample>, at: nat) returns (fits: bool)
      requires at <= buffer.Length
      modifies buffer
      ensures fits <==> at + |samples| <= buffer.Length
      ensures buffer[..at] == old(buffer[..at])
      ensures fits ==> buffer[..at + |samples|] == old(buffer[..at]) + samples
    {
      fits := at + |samples| <= buffer.Length;
      if fits {
        forall i | 0 <= i < |samples| {
          buffer[at + i] := samples[i];
        }
      }
    }

    method Process(input: Option<seq<Sample>>) returns (threw: bool)
      requires Valid()
      modifies this, buffer
      ensures Valid() && (buffer == old(buffer) || fresh(buffer))
      ensures (if threw then Throws(View()) else Returns(View())) == Quantum(old(View()), input)
    {
      if input.None? {
        return false;
      }
      if !transmitting {
        offset := 0;
        return false;
      }
      var samples := input.value;
      var toCopy := Min(|samples|, buffer.Length - offset);
      var copied := Set(samples[..toCopy], offset);
      offset := offset + toCopy;
      assert buffer[..offset] == old(buffer[..offset]) + samples[..toCopy];
      if offset >= buffer.Length {
        assert buffer[..] == buffer[..offset];
        posted := posted + [buffer[..]];
        buffer := new Sample[FRAME](_ => 0.0);
        offset := 0;
        assert toCopy == |samples| ==> samples[toCopy..] == [];
        if toCopy < |samples| {
          var leftover := samples[toCopy..];
          var fits := Set(leftover, 0);
          if !fits {
            return true;
          }
          offset := |leftover|;
        }
      }
      return false;
    }
  }

  // ---- Runs ----

  datatype Event = Audio(input: Option<seq<Sample>>) | Ptt(active: bool)

  /** After a throw the processor is not called again. */
  function Step(o: Outcome, e: Event): (o': Outcome)
    requires |o.tap.held| <= FRAME
    ensures |o'.tap.held| <= FRAME
  {
    match e
    case Audio(input) => if o.Throws? then o else Quantum(o.tap, input)
    case Ptt(active) => o.(tap := o.tap.(transmitting := active))
  }

  function Run(events: seq<Event>): (o: Outcome)
    ensures |o.tap.held| <= FRAME
  {
    if events == [] then Returns(Tap([], true, []))
    else Step(Run(events[..|events| - 1]), events[|events| - 1])
  }

  function GateOpen(events: seq<Event>): bool {
    if events == [] then true
    else
      var n := |events| - 1;
      if events[n].Ptt? then events[n].active else GateOpen(events[..n])
  }

  /** The samples of each stretch between gated quanta, the current stretch last. */
  function Stretches(events: seq<Event>): (r: seq<seq<Sample>>)
    ensures r != []
  {
    if events == [] then [[]]
    else
      var n := |events| - 1;
      var before := Stretches(events[..n]);
      if events[n].Ptt? || events[n].input.None? then before
      else if !GateOpen(events[..n]) then before + [[]]
      else before[..|before| - 1] + [before[|before| - 1] + events[n].input.value]
  }

  /** A stretch cut into whole frames, and what is left over. */
  function Blocks(s: seq<Sample>): (r: seq<Frame>)
    ensures forall k | 0 <= k < |r| :: |r[k]| == FRAME
  {
    seq(|s| / FRAME, k requires 0 <= k < |s| / FRAME => s[k * FRAME..(k + 1) * FRAME])
  }

  function Rest(s: seq<Sample>): (r: seq<Sample>)
    ensures |r| < FRAME
  {
    s[|s| / FRAME * FRAME..]
  }

  function Flatten(frames: seq<Frame>): seq<Sample> {
    if frames == [] then [] else Flatten(frames[..|frames| - 1]) + frames[|frames| - 1]
  }

  lemma {:induction false} FirstBlocks(s: seq<Sample>, k: nat)
    requires k <= |s| / FRAME
    ensures Flatten(Blocks(s)[..k]) == s[..k * FRAME]
  {
    if k > 0 {
      FirstBlocks(s, k - 1);
      assert Blocks(s)[..k][..k - 1] == Blocks(s)[..k - 1];
    }
  }

  /** Cutting loses nothing. */
  lemma BlocksRejoin(s: seq<Sample>)
    ensures Flatten(Blocks(s)) + Rest(s) == s
  {
    FirstBlocks(s, |s| / FRAME);
    assert Blocks(s)[..|s| / FRAME] == Blocks(s);
  }

  function AllBlocks(stretches: seq<seq<Sample>>): seq<Frame> {
    if stretches == [] then []
    else AllBlocks(stretches[..|stretches| - 1]) + Blocks(stretches[|stretches| - 1])
  }

  predicate ChunksWithin(events: seq<Event>, c: nat) {
    forall i | 0 <= i < |events| :: events[i].Audio? && events[i].input.Some? ==> |events[i].input.value| <= c
  }

  /** A chunk of at most a frame leaves the blocks as they were, or completes exactly one more. */
  lemma BlocksGrow(s: seq<Sample>, x: seq<Sample>)
    requires |x| <= FRAME
    ensures var n := Min(|x|, FRAME - |Rest(s)|);
            var filled := Rest(s) + x[..n];
            if |filled| < FRAME then Blocks(s + x) == Blocks(s) && Rest(s + x) == filled
            else Blocks(s + x) == Blocks(s) + [filled] && Rest(s + x) == x[n..]
  {
    var q := |s| / FRAME;
    var n := Min(|x|, FRAME - |Rest(s)|);
    forall k | 0 <= k < q ensures (s + x)[k * FRAME..(k + 1) * FRAME] == s[k * FRAME..(k + 1) * FRAME] {
    }
    if |Rest(s)| + n < FRAME {
      assert |s + x| / FRAME == q;
      assert Rest(s + x) == Rest(s) + x[..n];
    } else {
      assert |s + x| / FRAME == q + 1;
      assert (s + x)[q * FRAME..(q + 1) * FRAME] == Rest(s) + x[..n];
      assert Rest(s + x) == x[n..];
    }
  }

  /** The state that the stretches so far call for. */
  function Expected(stretches: seq<seq<Sample>>, open: bool): Outcome
    requires stretches != []
  {
    Returns(Tap(Rest(stretches[|stretches| - 1]), open, AllBlocks(stretches)))
  }

  lemma AudioExtends(done: seq<seq<Sample>>, current: seq<Sample>, x: seq<Sample>)
    requires |x| <= FRAME
    ensures Quantum(Expected(done + [current], true).tap, Some(x)) == Expected(done + [current + x], true)
  {
    BlocksGrow(current, x);
    assert (done + [current])[..|done|] == done && (done + [current + x])[..|done|] == done;
    hide Blocks, Rest;
  }

  lemma GatedCloses(stretches: seq<seq<Sample>>, x: seq<Sample>)
    requires stretches != []
    ensures Quantum(Expected(stretches, false).tap, Some(x)) == Expected(stretches + [[]], false)
  {
    assert (stretches + [[]])[..|stretches|] == stretches;
  }

  /**
   * Every run on chunks of at most one frame: nothing throws, the posted frames are the whole blocks of each ungated
   * stretch in order, and the buffer holds what is left of the current one. So no sample of an ungated stretch is lost,
   * repeated or moved before its tail, and no frame spans a gated quantum.
   */
  lemma {:induction false} FramesAreBlocks(events: seq<Event>)
    requires ChunksWithin(events, FRAME)
    ensures Run(events) == Expected(Stretches(events), GateOpen(events))
  {
    if events == [] {
      assert Rest([]) == [] && Blocks([]) == [];
      assert AllBlocks([[]]) == AllBlocks([[]][..0]) + Blocks([]) == [];
      return;
    }
    var n := |events| - 1;
    FramesAreBlocks(events[..n]);
    var before := Stretches(events[..n]);
    if events[n].Audio? && events[n].input.Some? {
      var x := events[n].input.value;
      if GateOpen(events[..n]) {
        AudioExtends(before[..|before| - 1], before[|before| - 1], x);
        assert before == before[..|before| - 1] + [before[|before| - 1]];
      } else {
        GatedCloses(before, x);
      }
      hide Blocks, Rest, AllBlocks, Quantum;
    }
  }

  function Silence(n: nat): Event { Audio(Some(seq(n, _ => 0.0))) }

  /** One frame is the exact chunk size up to which no run can throw. */
  lemma NeverThrowsIff(c: nat)
    ensures (forall events | ChunksWithin(events, c) :: Run(events).Returns?) <==> c <= FRAME
  {
    if c <= FRAME {
      forall events | ChunksWithin(events, c) ensures Run(events).Returns? {
        FramesAreBlocks(events);
      }
    } else {
      var events := [Silence(959), Silence(961), Silence(961)];
      assert events[..2][..1] == [Silence(959)] && events[..1][..0] == [];
      assert Run(events[..1]).tap.held == seq(959, _ => 0.0);
      assert |Run(events[..2]).tap.held| == 960;
      assert ChunksWithin(events, c) && Run(events).Throws?;
    }
  }
}
