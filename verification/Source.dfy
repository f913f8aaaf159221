/**
 One audio source: buffers wait in a priority queue, are decoded when the current one runs
 out, and are resampled into frames of 160 samples. Decoding is a parameter.
 */
module Source {
  import opened Common
  import opened Interpolate
  import Codec

  const FRAME_LENGTH: nat := 160

  datatype Format = PCM8 | PCM16 | ADPCM

  datatype Buffer = Buffer(
    id: nat,
    address: nat,
    length: int,              // as a signed 32-bit number
    format: Format,
    stereo: bool,
    isLooping: bool,
    fromQueue: bool,
    playPosition: nat,
    hasPlayed: bool)

  /** What decoding a buffer gives the n-th time; `None` for an invalid address. */
  type Decoder = (Buffer, nat) -> Option<seq<Sample>>

  datatype InterpolationMode = NoInterpolation | Linear | Polyphase

  /** Polyphase interpolation is not implemented: it is linear too. */
  function KernelOf(mode: InterpolationMode): Kernel {
    if mode.NoInterpolation? then NoneKernel else LinearKernel
  }

  /** A buffer as it goes back into the queue. */
  function Replay(b: Buffer): Buffer { b.(hasPlayed := true) }

  /** Looping buffers of the queue have at least one sample when they are played again. */
  ghost predicate LoopsSound(decode: Decoder, queue: seq<Buffer>) {
    forall b, n: nat :: b in queue && b.isLooping ==> decode(Replay(b), n) != Some([])
  }

  /** Buffers of the queue not played yet start within their samples. */
  ghost predicate StartsInside(decode: Decoder, queue: seq<Buffer>) {
    forall b, n: nat :: b in queue && !b.hasPlayed && decode(b, n).Some? ==> b.playPosition <= |decode(b, n).value|
  }

  /** How many samples a buffer has does not depend on when it is decoded. */
  ghost predicate Steady(decode: Decoder) {
    forall b, m: nat, n: nat ::
      decode(b, m).Some? == decode(b, n).Some?
      && (decode(b, m).Some? ==> |decode(b, m).value| == |decode(b, n).value|)
  }

  /** How many samples the decoder of each format gives: ADPCM rounds up. */
  function SampleCount(b: Buffer): nat
    requires b.length >= 0
  {
    if b.format.ADPCM? then Codec.Rounded(b.length) else b.length
  }

  /** The decoders of the source: a valid address gives that many samples, an invalid one none. */
  ghost predicate CountsByFormat(decode: Decoder, isValid: nat -> bool) {
    forall b, n: nat ::
      decode(b, n).Some? == isValid(b.address)
      && (decode(b, n).Some? ==> |decode(b, n).value| == if b.length < 0 then 0 else SampleCount(b))
  }

  /** For such decoders what `GenerateFrame` needs of the queue can be read off the buffers. */
  lemma CountedDecoders(decode: Decoder, isValid: nat -> bool, queue: seq<Buffer>)
    requires CountsByFormat(decode, isValid)
    requires forall b :: b in queue ==> b.length >= 0
    ensures Steady(decode)
    ensures LoopsSound(decode, queue) <==>
              forall b :: b in queue && b.isLooping && isValid(b.address) ==> b.length > 0
    ensures StartsInside(decode, queue) <==>
              forall b :: b in queue && !b.hasPlayed && isValid(b.address) ==> b.playPosition <= SampleCount(b)
  {
    if LoopsSound(decode, queue) {
      forall b | b in queue && b.isLooping && isValid(b.address) ensures b.length > 0 {
        assert decode(Replay(b), 0) != Some([]);
        assert |decode(Replay(b), 0).value| == SampleCount(Replay(b));
      }
    }
    if StartsInside(decode, queue) {
      forall b | b in queue && !b.hasPlayed && isValid(b.address) ensures b.playPosition <= SampleCount(b) {
        assert decode(b, 0).Some?;
      }
    }
  }

  predicate IsTop(queue: seq<Buffer>, i: nat) {
    i < |queue| && forall j :: 0 <= j < |queue| ==> queue[i].id <= queue[j].id
  }

  lemma {:induction false} SomeTop(queue: seq<Buffer>) returns (i: nat)
    requires queue != []
    ensures IsTop(queue, i)
  {
    var n := |queue| - 1;
    if n == 0 {
      i := 0;
    } else {
      i := SomeTop(queue[..n]);
      assert forall j :: 0 <= j < n ==> queue[..n][j] == queue[j];
      if queue[n].id < queue[i].id { i := n; }
    }
  }

  /** Unplayed looping buffers come back once without having to sound. */
  function Weight(queue: seq<Buffer>): nat {
    if queue == [] then 0
    else Weight(queue[..|queue| - 1]) + BufferWeight(queue[|queue| - 1])
  }

  function BufferWeight(b: Buffer): nat { if b.isLooping && !b.hasPlayed then 2 else 1 }

  lemma {:induction false} WeightWithout(queue: seq<Buffer>, i: nat)
    requires i < |queue|
    ensures Weight(queue[..i] + queue[i + 1..]) == Weight(queue) - BufferWeight(queue[i])
  {
    var n := |queue| - 1;
    if i == n {
      assert queue[..i] + queue[i + 1..] == queue[..n];
    } else {
      WeightWithout(queue[..n], i);
      var rest := queue[..i] + queue[i + 1..];
      assert rest[..|rest| - 1] == queue[..n][..i] + queue[..n][i + 1..];
    }
  }

  lemma WeightWith(queue: seq<Buffer>, b: Buffer)
    ensures Weight(queue + [b]) == Weight(queue) + BufferWeight(b)
  {
    assert (queue + [b])[..|queue|] == queue;
  }

  class Source {
    const interp: State
    var inputQueue: seq<Buffer>
    var currentBuffer: seq<Sample>
    var decodes: nat
    var enabled: bool
    var bufferUpdate: bool
    var lastBufferId: nat
    var currentBufferId: nat

    ghost predicate Valid()
      reads this, interp
    {
      interp.Represents(currentBuffer)
    }

    constructor ()
      ensures Valid() && fresh(interp) && inputQueue == [] && currentBuffer == []
    {
      interp := new State();
      inputQueue, currentBuffer, decodes, enabled := [], [], 0, false;
      bufferUpdate, lastBufferId, currentBufferId := false, 0, 0;
    }

    /** The queue handling of `ParseConfig`: of the embedded buffer and the four queue slots,
        those that are dirty and not of negative length are added, to an emptied queue after a
        partial reset. */
    method ParseQueue(partialReset: bool, embedded: Option<Buffer>, slots: seq<Option<Buffer>>)
      requires |slots| == 4
      modifies this`inputQueue
      ensures inputQueue == (if partialReset then [] else old(inputQueue)) + Accepted([embedded] + slots)
    {
      if partialReset {
        inputQueue := [];
      }
      ghost var start, offers := inputQueue, [embedded] + slots;
      NextOffer(offers, 0);
      if embedded.Some? && embedded.value.length >= 0 {
        inputQueue := inputQueue + [embedded.value];
      }
      for i := 0 to 4
        invariant inputQueue == start + Accepted(offers[..i + 1])
      {
        NextOffer(offers, i + 1);
        if slots[i].Some? && slots[i].value.length >= 0 {
          inputQueue := inputQueue + [slots[i].value];
        }
      }
      assert offers[..5] == offers;
    }

    /** `top` and `pop`: a buffer with the least id; which of several is not said. */
    method PopTop() returns (i: nat, b: Buffer)
      requires inputQueue != []
      modifies this`inputQueue
      ensures IsTop(old(inputQueue), i) && b == old(inputQueue)[i]
      ensures inputQueue == old(inputQueue)[..i] + old(inputQueue)[i + 1..]
    {
      ghost var top := SomeTop(inputQueue);
      assert IsTop(inputQueue, top);
      i :| 0 <= i < |inputQueue| && IsTop(inputQueue, i);
      b := inputQueue[i];
      inputQueue := inputQueue[..i] + inputQueue[i + 1..];
    }

    /** Takes the buffer with the least id out and decodes it; looping buffers go back. With an
        invalid address the buffer is lost and nothing sounds. `idle`: an empty replay went round. */
    method DequeueBuffer(decode: Decoder) returns (ok: bool, idle: bool)
      requires Valid() && currentBuffer == [] && StartsInside(decode, inputQueue)
      modifies this, interp`stream
      ensures Valid() && interp.stream == old(interp.stream) + currentBuffer
      ensures ok <==> old(inputQueue) != []
      ensures !ok ==> inputQueue == [] && currentBuffer == [] && currentBufferId == old(currentBufferId) && !idle
      ensures ok ==> DequeuedTop(old(inputQueue), old(decodes), decode, inputQueue, currentBuffer, idle)
      ensures decodes == old(decodes) + if ok then 1 else 0
    {
      idle := false;
      if inputQueue == [] {
        assert old(interp.stream) + [] == old(interp.stream);
        return false, false;
      }
      var i, b := PopTop();
      var decoded := decode(b, decodes);
      decodes := decodes + 1;
      if decoded.None? {
        currentBuffer := [];
        assert old(interp.stream) + [] == old(interp.stream);
      } else {
        PlayBuffer(b, decoded.value);
      }
      ok := true;
      idle := b.isLooping && b.hasPlayed && decoded == Some([]);
      assert Dequeued(old(inputQueue), i, decoded, inputQueue, currentBuffer);
    }

    /** The rest of `DequeueBuffer` once samples were decoded. */
    method PlayBuffer(b: Buffer, samples: seq<Sample>)
      requires Valid() && currentBuffer == [] && (b.hasPlayed || b.playPosition <= |samples|)
      modifies this, interp`stream
      ensures Valid() && interp.stream == old(interp.stream) + currentBuffer
      ensures inputQueue == old(inputQueue) + if b.isLooping then [Replay(b)] else []
      ensures currentBuffer == samples[if b.hasPlayed then 0 else b.playPosition..]
      ensures currentBufferId == b.id && lastBufferId == 0 && bufferUpdate == (b.fromQueue && !b.hasPlayed)
      ensures decodes == old(decodes)
    {
      var start := if b.hasPlayed then 0 else b.playPosition;
      currentBufferId := b.id;
      lastBufferId := 0;
      bufferUpdate := b.fromQueue && !b.hasPlayed;
      if b.isLooping {
        inputQueue := inputQueue + [Replay(b)];
      } else {
        assert inputQueue + [] == inputQueue;
      }
      interp.Feed([], samples[start..]);
      assert [] + samples[start..] == samples[start..];
      currentBuffer := samples[start..];
    }

    /** What was put into the frame so far: the outputs of the whole stream from `start` on, then
        silence. */
    ghost predicate Filled(frame: array<Sample>, n: nat, start: nat, step: nat, fn: Kernel)
      reads this, interp, frame
    {
      Valid() && interp.position == Nth(start, step, n) && Sounds(frame[..], n, interp.stream, start, step, fn)
    }

    /** The condition of that loop's break: a buffer is dequeued when none is playing. */
    method Refill(decode: Decoder) returns (ok: bool, idle: bool)
      requires Valid() && StartsInside(decode, inputQueue)
      modifies this, interp`stream
      ensures Valid() && StartsInside(decode, inputQueue) && old(interp.stream) <= interp.stream
      ensures LoopsSound(decode, old(inputQueue)) ==> LoopsSound(decode, inputQueue) && !idle
      ensures !ok ==> inputQueue == [] && currentBuffer == [] && old(currentBuffer) == [] && !idle
      ensures idle ==> ok && old(currentBuffer) == [] && currentBuffer == [] && interp.stream == old(interp.stream)
                       && GoesRound(old(inputQueue), old(decodes), decode, inputQueue)
      ensures Weight(inputQueue) <= old(Weight(inputQueue))
      ensures ok && currentBuffer == [] && !idle ==> Weight(inputQueue) < old(Weight(inputQueue))
      ensures old(currentBuffer) == [] && OnlyStuck(decode, old(inputQueue)) ==> idle
      ensures old(currentBuffer) != [] ==>
                ok && !idle && inputQueue == old(inputQueue) && interp.stream == old(interp.stream)
                && currentBuffer == old(currentBuffer) && decodes == old(decodes)
      ensures old(currentBuffer) == [] && ok ==>
                decodes == old(decodes) + 1
                && Supplied(old(inputQueue), old(decodes), decode, inputQueue, old(interp.stream), interp.stream, idle)
      ensures !ok ==> decodes == old(decodes) && old(inputQueue) == [] && interp.stream == old(interp.stream)
    {
      if currentBuffer != [] {
        return true, false;
      }
      ok, idle := DequeueBuffer(decode);
      assert interp.stream + [] == interp.stream;
      if ok {
        SoundsOrLighter(old(inputQueue), old(decodes), decode, inputQueue, currentBuffer, idle);
        if OnlyStuck(decode, old(inputQueue)) {
          StuckIsIdle(old(inputQueue), old(decodes), decode, inputQueue, currentBuffer, idle);
        }
      }
    }

    /** What is playing goes into the frame, as far as either reaches. */
    method PlayOn(step: nat, fn: Kernel, frame: array<Sample>, n: nat, ghost start: nat, ghost before: seq<Sample>)
      returns (next: nat)
      requires Valid() && n < frame.Length && interp.position == Nth(start, step, n)
      requires Sounds(frame[..], n, before, start, step, fn) && before <= interp.stream
      modifies this`currentBuffer, interp, frame
      ensures Filled(frame, next, start, step, fn) && n <= next && interp.stream == old(interp.stream)
      ensures next == frame.Length || (currentBuffer == [] && !Available(interp.stream, interp.position))
      ensures next == n && old(currentBuffer) != [] ==> interp.fposition < old(interp.fposition)
      ensures old(currentBuffer) == [] ==>
                && next == n && currentBuffer == [] && frame[..] == old(frame[..])
                && interp.fposition == old(interp.fposition) && interp.position == old(interp.position)
    {
      ghost var was := frame[..];
      currentBuffer, next := interp.StepOverSamples(currentBuffer, step, frame, n, fn);
      assert frame[..][n..next] == frame[n..next];
      SoundsOn(was, frame[..], n, next, before, interp.stream, start, step, fn);
      assert next == n ==> frame[..] == frame[..n] + frame[n..];
    }

    /** One pass of the loop of `GenerateFrame`. It makes progress (more of the frame, or less of
        the position to skip, or a lighter queue) unless it `spins`: an empty replay went round, and
        nothing else changed. */
    method FillNext(decode: Decoder, step: nat, fn: Kernel, frame: array<Sample>, n: nat, ghost start: nat)
      returns (next: nat, more: bool, spins: bool)
      requires Filled(frame, n, start, step, fn) && n < frame.Length && StartsInside(decode, inputQueue)
      modifies this, interp, frame
      ensures Filled(frame, next, start, step, fn) && n <= next && old(interp.stream) <= interp.stream
      ensures StartsInside(decode, inputQueue)
      ensures LoopsSound(decode, old(inputQueue)) ==> LoopsSound(decode, inputQueue) && !spins
      ensures !more ==> next == n && inputQueue == [] && currentBuffer == [] && !spins
      ensures more && next == n && !spins ==>
                || interp.fposition < old(interp.fposition)
                || (interp.fposition == old(interp.fposition) && Weight(inputQueue) < old(Weight(inputQueue)))
      ensures spins ==>
                && next == n && frame[..] == old(frame[..]) && interp.fposition == old(interp.fposition)
                && interp.stream == old(interp.stream) && interp.position == old(interp.position)
                && old(currentBuffer) == [] && currentBuffer == []
                && GoesRound(old(inputQueue), old(decodes), decode, inputQueue)
      ensures old(currentBuffer) == [] && OnlyStuck(decode, old(inputQueue)) ==> spins
      ensures old(currentBuffer) != [] ==>
                more && !spins && inputQueue == old(inputQueue) && interp.stream == old(interp.stream)
                && decodes == old(decodes)
      ensures old(currentBuffer) == [] && more ==>
                decodes == old(decodes) + 1
                && Supplied(old(inputQueue), old(decodes), decode, inputQueue, old(interp.stream), interp.stream, spins)
      ensures !more ==> decodes == old(decodes) && old(inputQueue) == [] && interp.stream == old(interp.stream)
      ensures more ==> next == frame.Length || (currentBuffer == [] && !Available(interp.stream, interp.position))
    {
      ghost var before := interp.stream;
      more, spins := Refill(decode);
      if !more {
        return n, false, false;
      }
      next := PlayOn(step, fn, frame, n, start, before);
    }

    /** A pass of the loop, and how many dequeues the frame has come to by it. */
    method NextPass(decode: Decoder, step: nat, fn: Kernel, frame: array<Sample>, n: nat, ghost start: nat,
                    ghost c: Chain, ghost m: nat)
      returns (next: nat, more: bool, spins: bool, ghost dequeues: nat)
      requires Filled(frame, n, start, step, fn) && n < frame.Length && StartsInside(decode, inputQueue)
      requires Steady(decode) && c.decode == decode && InChain(c, m, inputQueue, decodes, interp.stream, false)
      modifies this, interp, frame
      ensures Filled(frame, next, start, step, fn) && n <= next && old(interp.stream) <= interp.stream
      ensures StartsInside(decode, inputQueue)
      ensures LoopsSound(decode, old(inputQueue)) ==> LoopsSound(decode, inputQueue) && !spins
      ensures !more ==> next == n && inputQueue == [] && currentBuffer == [] && !spins
      ensures more && next == n && !spins ==>
                || interp.fposition < old(interp.fposition)
                || (interp.fposition == old(interp.fposition) && Weight(inputQueue) < old(Weight(inputQueue)))
      ensures spins ==> next == n && currentBuffer == [] && Stuck(decode, inputQueue)
      ensures more ==> next == frame.Length || (currentBuffer == [] && !Available(interp.stream, interp.position))
      ensures InChain(c, dequeues, inputQueue, decodes, interp.stream, spins)
    {
      ghost var queue, k, stream, playing := inputQueue, decodes, interp.stream, currentBuffer != [];
      next, more, spins := FillNext(decode, step, fn, frame, n, start);
      dequeues := m;
      if more && !playing {
        ChainGoesOn(c, m, queue, k, stream, inputQueue, interp.stream, spins);
        dequeues := m + 1;
      }
      if spins { RoundIsStuck(queue, k, decode, inputQueue); }
    }

    /** The loop of `GenerateFrame`. It ends, or comes to a pass that spins: exactly that when the
        buffers run dry before the frame is full. */
    method FillFrame(decode: Decoder, step: nat, fn: Kernel, frame: array<Sample>) returns (n: nat, spins: bool)
      requires Filled(frame, 0, interp.position, step, fn) && frame.Length == FRAME_LENGTH && currentBuffer != []
      requires Steady(decode) && StartsInside(decode, inputQueue)
      modifies this, interp, frame
      ensures Filled(frame, n, old(interp.position), step, fn) && old(interp.stream) <= interp.stream
      ensures spins ==> n < FRAME_LENGTH && currentBuffer == [] && Stuck(decode, inputQueue)
      ensures LoopsSound(decode, old(inputQueue)) ==> !spins
      ensures !spins && n < FRAME_LENGTH ==> inputQueue == [] && currentBuffer == []
      ensures Determined(old(inputQueue), old(decodes), decode) ==>
                (spins <==> RunsDry(old(inputQueue), old(decodes), decode, old(interp.stream),
                                    Nth(old(interp.position), step, FRAME_LENGTH - 1)))
    {
      n, spins := 0, false;
      ghost var chain, start := Chain(inputQueue, decodes, decode, interp.stream), interp.position;
      ghost var m: nat, ended := 0, false;
      ChainStarts(chain);
      while n < FRAME_LENGTH && !spins
        invariant Filled(frame, n, start, step, fn) && old(interp.stream) <= interp.stream
        invariant n <= FRAME_LENGTH && StartsInside(decode, inputQueue) && !ended
        invariant LoopsSound(decode, old(inputQueue)) ==> LoopsSound(decode, inputQueue) && !spins
        invariant spins ==> n < FRAME_LENGTH && currentBuffer == [] && Stuck(decode, inputQueue)
        invariant spins ==> !Available(interp.stream, interp.position)
        invariant InChain(chain, m, inputQueue, decodes, interp.stream, spins)
        decreases !spins, FRAME_LENGTH - n, interp.fposition, Weight(inputQueue)
      {
        var more;
        n, more, spins, m := NextPass(decode, step, fn, frame, n, start, chain, m);
        if !more {
          ended := true;
          break;
        }
      }
      LastOutput(frame[..], n, interp.stream, start, step, fn);
      DryIff(chain, Nth(start, step, FRAME_LENGTH - 1), m, inputQueue, decodes, interp.stream, spins, ended);
    }

    /** One frame. Without a current buffer a buffer is dequeued and the frame stays silent, or
        the source stops. Otherwise the frame holds the outputs of the whole stream, through as
        many buffers as it takes; it is cut short only when all buffers are used up. The source
        does not return when this method returns with `spins`: the next pass changes nothing, nor
        do those after it. With sounding loops in the queue that does not happen. */
    method GenerateFrame(decode: Decoder, step: nat, mode: InterpolationMode, frame: array<Sample>)
      returns (n: nat, spins: bool)
      requires Valid() && frame.Length == FRAME_LENGTH && Steady(decode) && StartsInside(decode, inputQueue)
      modifies this, interp, frame
      ensures Filled(frame, n, old(interp.position), step, KernelOf(mode)) && old(interp.stream) <= interp.stream
      ensures old(currentBuffer) == [] ==> n == 0 && !spins
      ensures old(currentBuffer) == [] && old(inputQueue) == [] ==>
                !enabled && bufferUpdate && currentBufferId == 0 && lastBufferId == old(currentBufferId)
      ensures old(currentBuffer) != [] && n < FRAME_LENGTH && !spins ==> inputQueue == [] && currentBuffer == []
      ensures spins ==> n < FRAME_LENGTH && currentBuffer == [] && Stuck(decode, inputQueue)
      ensures LoopsSound(decode, old(inputQueue)) ==> !spins
      ensures old(currentBuffer) != [] && Determined(old(inputQueue), old(decodes), decode) ==>
                (spins <==> RunsDry(old(inputQueue), old(decodes), decode, old(interp.stream),
                                    Nth(old(interp.position), step, FRAME_LENGTH - 1)))
      ensures old(currentBuffer) != [] && OnlyStuck(decode, old(inputQueue)) ==>
                (spins <==> !Available(old(interp.stream), Nth(old(interp.position), step, FRAME_LENGTH - 1)))
    {
      forall i | 0 <= i < frame.Length {
        frame[i] := Sample(0, 0);
      }
      n, spins := 0, false;
      if currentBuffer == [] {
        var ok, _ := DequeueBuffer(decode);
        if !ok {
          enabled := false;
          bufferUpdate := true;
          lastBufferId := currentBufferId;
          currentBufferId := 0;
        }
        return;
      }
      StuckRunsDryIff(inputQueue, decodes, decode, interp.stream, Nth(interp.position, step, FRAME_LENGTH - 1));
      n, spins := FillFrame(decode, step, KernelOf(mode), frame);
    }

    /** From where the loop spins, and no other buffer has the same id, any number of passes
        changes nothing: the loop of `GenerateFrame` does not end. */
    method SpinOn(decode: Decoder, step: nat, fn: Kernel, frame: array<Sample>, n: nat, passes: nat, ghost start: nat)
      requires Filled(frame, n, start, step, fn) && n < frame.Length && StartsInside(decode, inputQueue)
      requires currentBuffer == [] && OnlyStuck(decode, inputQueue)
      modifies this, interp, frame
      ensures frame[..] == old(frame[..]) && interp.fposition == old(interp.fposition)
      ensures interp.stream == old(interp.stream) && interp.position == old(interp.position)
      ensures currentBuffer == [] && multiset(inputQueue) == old(multiset(inputQueue)) && OnlyStuck(decode, inputQueue)
    {
      for k := 0 to passes
        invariant Filled(frame, n, start, step, fn) && StartsInside(decode, inputQueue)
        invariant frame[..] == old(frame[..]) && interp.fposition == old(interp.fposition)
        invariant interp.stream == old(interp.stream) && interp.position == old(interp.position)
        invariant currentBuffer == [] && multiset(inputQueue) == old(multiset(inputQueue)) && OnlyStuck(decode, inputQueue)
      {
        ghost var queue, before := inputQueue, decodes;
        var next, more, spins := FillNext(decode, step, fn, frame, n, start);
        StuckStays(queue, before, decode, inputQueue);
      }
    }
  }

  /** The buffer is played again and has nothing to play. */
  predicate EmptyReplay(b: Buffer, decoded: Option<seq<Sample>>) { b.isLooping && b.hasPlayed && decoded == Some([]) }

  /** The queue after buffer `i` went to its end. */
  function Rotated(queue: seq<Buffer>, i: nat): (r: seq<Buffer>)
    requires i < |queue|
    ensures |r| == |queue|
  {
    queue[..i] + queue[i + 1..] + [queue[i]]
  }

  lemma RotatedAt(queue: seq<Buffer>, i: nat, j: nat)
    requires i < |queue| && j < |queue|
    ensures Rotated(queue, i)[j] == queue[if j == |queue| - 1 then i else if j < i then j else j + 1]
  {
  }

  lemma RotatedKeeps(queue: seq<Buffer>, i: nat)
    requires i < |queue|
    ensures multiset(Rotated(queue, i)) == multiset(queue)
  {
    assert queue == queue[..i] + [queue[i]] + queue[i + 1..];
  }

  /** A top of the queue that is an empty replay went to its end. */
  ghost predicate GoesRound(was: seq<Buffer>, decodes: nat, decode: Decoder, now: seq<Buffer>) {
    exists i: nat :: IsTop(was, i) && EmptyReplay(was[i], decode(was[i], decodes)) && now == Rotated(was, i)
  }

  ghost predicate StuckAt(decode: Decoder, queue: seq<Buffer>, i: nat) {
    IsTop(queue, i) && forall n: nat :: EmptyReplay(queue[i], decode(queue[i], n))
  }

  /** No other buffer can be taken first. */
  predicate OnlyTop(queue: seq<Buffer>, i: nat) {
    i < |queue| && forall j :: 0 <= j < |queue| && j != i ==> queue[i].id < queue[j].id
  }

  /** A top of the queue is an empty replay whenever it is decoded. */
  ghost predicate Stuck(decode: Decoder, queue: seq<Buffer>) { exists i: nat :: StuckAt(decode, queue, i) }

  ghost predicate OnlyStuck(decode: Decoder, queue: seq<Buffer>) {
    exists i: nat :: StuckAt(decode, queue, i) && OnlyTop(queue, i)
  }

  lemma RotatedTop(queue: seq<Buffer>, i: nat)
    requires IsTop(queue, i)
    ensures IsTop(Rotated(queue, i), |queue| - 1)
    ensures OnlyTop(queue, i) ==> OnlyTop(Rotated(queue, i), |queue| - 1)
  {
    forall j: nat | j < |queue|
      ensures Rotated(queue, i)[j] == queue[if j == |queue| - 1 then i else if j < i then j else j + 1]
    {
      RotatedAt(queue, i, j);
    }
  }

  lemma SteadilyEmpty(decode: Decoder, b: Buffer, decodes: nat, n: nat)
    requires Steady(decode) && EmptyReplay(b, decode(b, decodes))
    ensures EmptyReplay(b, decode(b, n))
  {
    assert |decode(b, n).value| == |decode(b, decodes).value|;
  }

  lemma RotatedIsStuck(was: seq<Buffer>, i: nat, decode: Decoder)
    requires StuckAt(decode, was, i)
    ensures StuckAt(decode, Rotated(was, i), |was| - 1)
  {
    RotatedTop(was, i);
    RotatedAt(was, i, |was| - 1);
  }

  lemma RoundIsStuck(was: seq<Buffer>, decodes: nat, decode: Decoder, now: seq<Buffer>)
    requires GoesRound(was, decodes, decode, now) && Steady(decode)
    ensures Stuck(decode, now)
  {
    var i: nat :| IsTop(was, i) && EmptyReplay(was[i], decode(was[i], decodes)) && now == Rotated(was, i);
    forall n: nat ensures EmptyReplay(was[i], decode(was[i], n)) {
      SteadilyEmpty(decode, was[i], decodes, n);
    }
    RotatedIsStuck(was, i, decode);
  }

  /** Dequeuing an empty replay gives nothing and puts it back. */
  lemma EmptyReplayRotates(was: seq<Buffer>, i: nat, decoded: Option<seq<Sample>>, now: seq<Buffer>, samples: seq<Sample>)
    requires i < |was| && EmptyReplay(was[i], decoded)
    ensures Dequeued(was, i, decoded, now, samples) <==> now == Rotated(was, i) && samples == []
  {
    assert Replay(was[i]) == was[i];
  }

  /** Dequeuing from a queue that is stuck gives nothing, and leaves it stuck. */
  lemma StuckIsIdle(was: seq<Buffer>, decodes: nat, decode: Decoder, now: seq<Buffer>, samples: seq<Sample>, idle: bool)
    requires OnlyStuck(decode, was) && DequeuedTop(was, decodes, decode, now, samples, idle)
    ensures idle
  {
    var i: nat :| StuckAt(decode, was, i) && OnlyTop(was, i);
    var k: nat :| IsTop(was, k) && Dequeued(was, k, decode(was[k], decodes), now, samples)
                  && idle == EmptyReplay(was[k], decode(was[k], decodes));
    assert k == i;
  }

  lemma StuckStays(was: seq<Buffer>, decodes: nat, decode: Decoder, now: seq<Buffer>)
    requires OnlyStuck(decode, was) && GoesRound(was, decodes, decode, now)
    ensures OnlyStuck(decode, now) && multiset(now) == multiset(was)
  {
    var i: nat :| StuckAt(decode, was, i) && OnlyTop(was, i);
    var k: nat :| IsTop(was, k) && EmptyReplay(was[k], decode(was[k], decodes)) && now == Rotated(was, k);
    assert k == i;
    RotatedIsStuck(was, i, decode);
    RotatedTop(was, i);
    RotatedKeeps(was, i);
  }

  /** Whatever is stuck can go round: among several tops the queue may choose the same again. */
  lemma StuckMayGoRound(was: seq<Buffer>, decodes: nat, decode: Decoder)
    requires Stuck(decode, was)
    ensures exists now :: DequeuedTop(was, decodes, decode, now, [], true) && Stuck(decode, now)
  {
    var i: nat :| StuckAt(decode, was, i);
    EmptyReplayRotates(was, i, decode(was[i], decodes), Rotated(was, i), []);
    RotatedIsStuck(was, i, decode);
    assert DequeuedTop(was, decodes, decode, Rotated(was, i), [], true);
  }

  // ---------- when the loop runs dry ----------

  ghost predicate Supplied(was: seq<Buffer>, decodes: nat, decode: Decoder, now: seq<Buffer>, before: seq<Sample>,
                           stream: seq<Sample>, idle: bool)
  {
    exists samples :: DequeuedTop(was, decodes, decode, now, samples, idle) && stream == before + samples
  }

  predicate DistinctIds(queue: seq<Buffer>) {
    forall i, j :: 0 <= i < j < |queue| ==> queue[i].id != queue[j].id
  }

  /** The buffer with the least id. */
  function Top(queue: seq<Buffer>): (i: nat)
    requires queue != []
    ensures IsTop(queue, i)
  {
    var n := |queue| - 1;
    if n == 0 then 0
    else
      var i := Top(queue[..n]);
      assert forall j :: 0 <= j < n ==> queue[..n][j] == queue[j];
      if queue[n].id < queue[i].id then n else i
  }

  /** What dequeuing buffer `i` leaves in the queue, and gives. */
  function Without(queue: seq<Buffer>, i: nat, decoded: Option<seq<Sample>>): seq<Buffer>
    requires i < |queue|
  {
    queue[..i] + queue[i + 1..] + if decoded.Some? && queue[i].isLooping then [Replay(queue[i])] else []
  }

  function Given(b: Buffer, decoded: Option<seq<Sample>>): seq<Sample> {
    if decoded.None? then []
    else decoded.value[if b.hasPlayed || |decoded.value| < b.playPosition then 0 else b.playPosition..]
  }

  /** Dequeuing the buffer with the least id: the queue it leaves, and the samples it gives. */
  function Link(q: seq<Buffer>, k: nat, decode: Decoder): (r: (seq<Buffer>, seq<Sample>)) {
    if q == [] then ([], [])
    else (Without(q, Top(q), decode(q[Top(q)], k)), Given(q[Top(q)], decode(q[Top(q)], k)))
  }

  /** The queue after `m` dequeues in the order of the ids. */
  function QueueAfter(queue: seq<Buffer>, decodes: nat, decode: Decoder, m: nat): seq<Buffer> {
    if m == 0 then queue else Link(QueueAfter(queue, decodes, decode, m - 1), decodes + (m - 1), decode).0
  }

  /** The samples they give together. */
  function SamplesAfter(queue: seq<Buffer>, decodes: nat, decode: Decoder, m: nat): seq<Sample> {
    if m == 0 then []
    else
      SamplesAfter(queue, decodes, decode, m - 1)
      + Link(QueueAfter(queue, decodes, decode, m - 1), decodes + (m - 1), decode).1
  }

  /** The first buffer is an empty replay. */
  predicate EmptyTop(queue: seq<Buffer>, decode: Decoder) {
    queue != [] && EmptyReplay(queue[Top(queue)], decode(queue[Top(queue)], 0))
  }

  /** The buffers that come before an empty replay do not have enough samples for the output at
      `last`, together with those there are. */
  ghost predicate DryAt(queue: seq<Buffer>, decodes: nat, decode: Decoder, stream: seq<Sample>, last: nat, m: nat) {
    && EmptyTop(QueueAfter(queue, decodes, decode, m), decode)
    && !Available(stream + SamplesAfter(queue, decodes, decode, m), last)
  }

  ghost predicate RunsDry(queue: seq<Buffer>, decodes: nat, decode: Decoder, stream: seq<Sample>, last: nat) {
    exists m: nat :: DryAt(queue, decodes, decode, stream, last, m)
  }

  /** At no time are there two first buffers, so the queue has no choice. */
  ghost predicate Determined(queue: seq<Buffer>, decodes: nat, decode: Decoder) {
    forall m: nat :: HasOneTop(QueueAfter(queue, decodes, decode, m))
  }

  predicate HasOneTop(queue: seq<Buffer>) { queue == [] || OnlyTop(queue, Top(queue)) }

  lemma QueueStep(queue: seq<Buffer>, k: nat, decode: Decoder, m: nat)
    ensures var link := Link(QueueAfter(queue, k, decode, m), k + m, decode);
            && QueueAfter(queue, k, decode, m + 1) == link.0
            && SamplesAfter(queue, k, decode, m + 1) == SamplesAfter(queue, k, decode, m) + link.1
  {
  }

  lemma WithoutKeepsDistinct(queue: seq<Buffer>, i: nat, decoded: Option<seq<Sample>>)
    requires i < |queue| && DistinctIds(queue)
    ensures DistinctIds(Without(queue, i, decoded))
  {
    var r := Without(queue, i, decoded);
    forall j | 0 <= j < |r| ensures r[j].id == queue[if j < i then j else if j < |queue| - 1 then j + 1 else i].id {
    }
  }

  lemma DistinctStep(queue: seq<Buffer>, k: nat, decode: Decoder, m: nat)
    requires DistinctIds(QueueAfter(queue, k, decode, m))
    ensures DistinctIds(QueueAfter(queue, k, decode, m + 1))
  {
    QueueStep(queue, k, decode, m);
    var q := QueueAfter(queue, k, decode, m);
    if q != [] { WithoutKeepsDistinct(q, Top(q), decode(q[Top(q)], k + m)); }
  }

  lemma {:induction false} DistinctAfter(queue: seq<Buffer>, k: nat, decode: Decoder, m: nat, n: nat)
    requires m <= n && DistinctIds(QueueAfter(queue, k, decode, m))
    ensures DistinctIds(QueueAfter(queue, k, decode, n))
    decreases n - m
  {
    if m < n {
      DistinctStep(queue, k, decode, m);
      DistinctAfter(queue, k, decode, m + 1, n);
    }
  }

  lemma DistinctHasOneTop(queue: seq<Buffer>)
    requires DistinctIds(queue)
    ensures HasOneTop(queue)
  {
  }

  /** Buffers with different ids leave no choice. */
  lemma DistinctIsDetermined(queue: seq<Buffer>, decodes: nat, decode: Decoder)
    requires DistinctIds(queue)
    ensures Determined(queue, decodes, decode)
  {
    forall m: nat ensures HasOneTop(QueueAfter(queue, decodes, decode, m)) {
      DistinctAfter(queue, decodes, decode, 0, m);
      DistinctHasOneTop(QueueAfter(queue, decodes, decode, m));
    }
  }

  /** Dequeuing follows the chain. */
  lemma DequeueIs(was: seq<Buffer>, decodes: nat, decode: Decoder, now: seq<Buffer>, samples: seq<Sample>, idle: bool)
    requires HasOneTop(was) && DequeuedTop(was, decodes, decode, now, samples, idle)
    ensures was != []
    ensures var b := was[Top(was)];
            && now == Without(was, Top(was), decode(b, decodes)) && samples == Given(b, decode(b, decodes))
            && idle == EmptyReplay(b, decode(b, decodes))
  {
    var i: nat :| IsTop(was, i) && Dequeued(was, i, decode(was[i], decodes), now, samples)
                  && idle == EmptyReplay(was[i], decode(was[i], decodes));
    assert i == Top(was);
    assert was[..i] + was[i + 1..] + [] == was[..i] + was[i + 1..];
  }

  /** Where a frame begins. */
  datatype Chain = Chain(queue: seq<Buffer>, decodes: nat, decode: Decoder, stream: seq<Sample>)

  function StreamAfter(c: Chain, m: nat): seq<Sample> { c.stream + SamplesAfter(c.queue, c.decodes, c.decode, m) }

  /** The loop stands after `m` dequeues; if it spins, behind an empty replay. */
  ghost predicate InChain(c: Chain, m: nat, queue: seq<Buffer>, k: nat, stream: seq<Sample>, spins: bool) {
    Determined(c.queue, c.decodes, c.decode) ==>
      && queue == QueueAfter(c.queue, c.decodes, c.decode, m) && k == c.decodes + m && stream == StreamAfter(c, m)
      && (spins ==> m > 0 && EmptyTop(QueueAfter(c.queue, c.decodes, c.decode, m - 1), c.decode))
  }

  lemma ChainStarts(c: Chain)
    ensures InChain(c, 0, c.queue, c.decodes, c.stream, false)
  {
    assert c.stream + [] == c.stream;
  }

  /** A dequeue as a step of the chain, from `q` with `given` samples so far. */
  lemma DequeueFollows(q: seq<Buffer>, k: nat, decode: Decoder, first: seq<Sample>, given: seq<Sample>,
                       stream: seq<Sample>, now: seq<Buffer>, more: seq<Sample>, idle: bool)
    requires Steady(decode) && HasOneTop(q) && stream == first + given
    requires Supplied(q, k, decode, now, stream, more, idle)
    ensures now == Link(q, k, decode).0 && more == first + (given + Link(q, k, decode).1)
    ensures idle ==> EmptyTop(q, decode)
  {
    var samples :| DequeuedTop(q, k, decode, now, samples, idle) && more == stream + samples;
    DequeueIs(q, k, decode, now, samples, idle);
    JoinSamples(first, given, samples);
    if idle { SteadilyEmpty(decode, q[Top(q)], k, 0); }
  }

  /** What the next link of the chain is. */
  lemma NextLink(c: Chain, m: nat, q: seq<Buffer>, k: nat, link: (seq<Buffer>, seq<Sample>), given: seq<Sample>)
    requires q == QueueAfter(c.queue, c.decodes, c.decode, m) && k == c.decodes + m && link == Link(q, k, c.decode)
    requires given == SamplesAfter(c.queue, c.decodes, c.decode, m)
    ensures link.0 == QueueAfter(c.queue, c.decodes, c.decode, m + 1)
    ensures given + link.1 == SamplesAfter(c.queue, c.decodes, c.decode, m + 1)
  {
    QueueStep(c.queue, c.decodes, c.decode, m);
  }

  lemma InChainNext(c: Chain, m: nat, q: seq<Buffer>, now: seq<Buffer>, k: nat, sum: seq<Sample>, more: seq<Sample>,
                    idle: bool)
    requires now == QueueAfter(c.queue, c.decodes, c.decode, m + 1) && k == c.decodes + m
    requires sum == SamplesAfter(c.queue, c.decodes, c.decode, m + 1) && more == c.stream + sum
    requires q == QueueAfter(c.queue, c.decodes, c.decode, m) && (idle ==> EmptyTop(q, c.decode))
    ensures InChain(c, m + 1, now, k + 1, more, idle)
  {
  }

  lemma ChainGoesOn(c: Chain, m: nat, queue: seq<Buffer>, k: nat, stream: seq<Sample>, now: seq<Buffer>,
                    more: seq<Sample>, idle: bool)
    requires Steady(c.decode) && InChain(c, m, queue, k, stream, false)
    requires Supplied(queue, k, c.decode, now, stream, more, idle)
    ensures InChain(c, m + 1, now, k + 1, more, idle)
  {
    if Determined(c.queue, c.decodes, c.decode) {
      assert HasOneTop(QueueAfter(c.queue, c.decodes, c.decode, m));
      DeterminedGoesOn(c, m, queue, k, stream, now, more, idle);
    }
  }

  lemma DeterminedGoesOn(c: Chain, m: nat, queue: seq<Buffer>, k: nat, stream: seq<Sample>, now: seq<Buffer>,
                         more: seq<Sample>, idle: bool)
    requires Steady(c.decode) && HasOneTop(queue) && Supplied(queue, k, c.decode, now, stream, more, idle)
    requires queue == QueueAfter(c.queue, c.decodes, c.decode, m) && k == c.decodes + m && stream == StreamAfter(c, m)
    ensures InChain(c, m + 1, now, k + 1, more, idle)
  {
    var given := SamplesAfter(c.queue, c.decodes, c.decode, m);
    DequeueFollows(queue, k, c.decode, c.stream, given, stream, now, more, idle);
    LinkOn(c, m, queue, k, given, now, more, idle);
  }

  lemma LinkOn(c: Chain, m: nat, q: seq<Buffer>, k: nat, given: seq<Sample>, now: seq<Buffer>, more: seq<Sample>,
               idle: bool)
    requires q == QueueAfter(c.queue, c.decodes, c.decode, m) && k == c.decodes + m
    requires given == SamplesAfter(c.queue, c.decodes, c.decode, m)
    requires now == Link(q, k, c.decode).0 && (idle ==> EmptyTop(q, c.decode))
    requires more == c.stream + (given + Link(q, k, c.decode).1)
    ensures InChain(c, m + 1, now, k + 1, more, idle)
  {
    var link := Link(q, k, c.decode);
    NextLink(c, m, q, k, link, given);
    InChainNext(c, m, q, now, k, given + link.1, more, idle);
  }

  lemma JoinSamples(a: seq<Sample>, b: seq<Sample>, c: seq<Sample>)
    ensures (a + b) + c == a + (b + c)
  {
  }

  lemma GrowStep(queue: seq<Buffer>, k: nat, decode: Decoder, m: nat)
    ensures SamplesAfter(queue, k, decode, m) <= SamplesAfter(queue, k, decode, m + 1)
  {
    QueueStep(queue, k, decode, m);
  }

  /** Samples only come. */
  lemma {:induction false} SamplesGrow(queue: seq<Buffer>, k: nat, decode: Decoder, m: nat, n: nat)
    requires m <= n
    ensures SamplesAfter(queue, k, decode, m) <= SamplesAfter(queue, k, decode, n)
    decreases n - m
  {
    if m < n {
      GrowStep(queue, k, decode, m);
      SamplesGrow(queue, k, decode, m + 1, n);
    }
  }

  /** An empty replay that is alone at the top gives nothing, and is there again. */
  lemma EmptyTopStays(q: seq<Buffer>, k: nat, decode: Decoder)
    requires HasOneTop(q) && Steady(decode) && EmptyTop(q, decode)
    ensures var b := q[Top(q)];
            EmptyTop(Without(q, Top(q), decode(b, k)), decode) && Given(b, decode(b, k)) == []
            && HasOneTop(Without(q, Top(q), decode(b, k)))
  {
    var i := Top(q);
    SteadilyEmpty(decode, q[i], 0, k);
    assert Replay(q[i]) == q[i] && Without(q, i, decode(q[i], k)) == Rotated(q, i);
    RotatedTop(q, i);
    RotatedAt(q, i, |q| - 1);
    assert Top(Rotated(q, i)) == |q| - 1;
  }

  lemma DryStep(queue: seq<Buffer>, k: nat, decode: Decoder, m: nat)
    requires Steady(decode) && EmptyTop(QueueAfter(queue, k, decode, m), decode)
    requires HasOneTop(QueueAfter(queue, k, decode, m))
    ensures EmptyTop(QueueAfter(queue, k, decode, m + 1), decode) && HasOneTop(QueueAfter(queue, k, decode, m + 1))
    ensures SamplesAfter(queue, k, decode, m + 1) == SamplesAfter(queue, k, decode, m)
  {
    QueueStep(queue, k, decode, m);
    EmptyTopStays(QueueAfter(queue, k, decode, m), k + m, decode);
    assert SamplesAfter(queue, k, decode, m) + [] == SamplesAfter(queue, k, decode, m);
  }

  lemma {:induction false} DryStays(queue: seq<Buffer>, k: nat, decode: Decoder, m: nat, n: nat)
    requires Steady(decode) && m <= n && EmptyTop(QueueAfter(queue, k, decode, m), decode)
    requires HasOneTop(QueueAfter(queue, k, decode, m))
    ensures EmptyTop(QueueAfter(queue, k, decode, n), decode) && HasOneTop(QueueAfter(queue, k, decode, n))
    ensures SamplesAfter(queue, k, decode, n) == SamplesAfter(queue, k, decode, m)
    decreases n - m
  {
    if m < n {
      DryStep(queue, k, decode, m);
      DryStays(queue, k, decode, m + 1, n);
    }
  }

  lemma {:induction false} NothingStays(queue: seq<Buffer>, k: nat, decode: Decoder, m: nat, n: nat)
    requires m <= n && QueueAfter(queue, k, decode, m) == []
    ensures QueueAfter(queue, k, decode, n) == []
    decreases n - m
  {
    if m < n {
      QueueStep(queue, k, decode, m);
      NothingStays(queue, k, decode, m + 1, n);
    }
  }

  lemma MoreIsAvailable(stream: seq<Sample>, a: seq<Sample>, b: seq<Sample>, last: nat)
    requires a <= b && Available(stream + a, last)
    ensures Available(stream + b, last)
  {
  }

  /** Where the loop ended tells whether the buffers run dry. */
  lemma DryIff(c: Chain, last: nat, m: nat, queue: seq<Buffer>, k: nat, stream: seq<Sample>, spins: bool, ended: bool)
    requires Steady(c.decode) && InChain(c, m, queue, k, stream, spins) && !(spins && ended)
    requires spins ==> !Available(stream, last)
    requires ended ==> queue == []
    requires !spins && !ended ==> Available(stream, last)
    ensures Determined(c.queue, c.decodes, c.decode) ==>
              (spins <==> RunsDry(c.queue, c.decodes, c.decode, c.stream, last))
  {
    if Determined(c.queue, c.decodes, c.decode) {
      if spins {
        assert HasOneTop(QueueAfter(c.queue, c.decodes, c.decode, m - 1));
        DryStays(c.queue, c.decodes, c.decode, m - 1, m);
        assert DryAt(c.queue, c.decodes, c.decode, c.stream, last, m);
      } else {
        forall i: nat ensures !DryAt(c.queue, c.decodes, c.decode, c.stream, last, i) {
          NotDryAt(c, last, m, ended, i);
        }
      }
    }
  }

  lemma NotDryAt(c: Chain, last: nat, m: nat, ended: bool, i: nat)
    requires Determined(c.queue, c.decodes, c.decode) && Steady(c.decode)
    requires if ended then QueueAfter(c.queue, c.decodes, c.decode, m) == [] else Available(StreamAfter(c, m), last)
    ensures !DryAt(c.queue, c.decodes, c.decode, c.stream, last, i)
  {
    if EmptyTop(QueueAfter(c.queue, c.decodes, c.decode, i), c.decode) {
      if i <= m {
        assert HasOneTop(QueueAfter(c.queue, c.decodes, c.decode, i));
        DryStays(c.queue, c.decodes, c.decode, i, m);
      } else if ended {
        NothingStays(c.queue, c.decodes, c.decode, m, i);
      } else {
        SamplesGrow(c.queue, c.decodes, c.decode, m, i);
        MoreIsAvailable(c.stream, SamplesAfter(c.queue, c.decodes, c.decode, m),
                        SamplesAfter(c.queue, c.decodes, c.decode, i), last);
      }
    }
  }

  /** With an empty replay alone at the top to begin with, there is only what is playing. */
  lemma StuckRunsDryIff(queue: seq<Buffer>, k: nat, decode: Decoder, stream: seq<Sample>, last: nat)
    requires Steady(decode)
    ensures OnlyStuck(decode, queue) ==>
              Determined(queue, k, decode) && (RunsDry(queue, k, decode, stream, last) <==> !Available(stream, last))
  {
    if OnlyStuck(decode, queue) {
      var i: nat :| StuckAt(decode, queue, i) && OnlyTop(queue, i);
      assert Top(queue) == i && EmptyReplay(queue[i], decode(queue[i], 0));
      assert EmptyTop(QueueAfter(queue, k, decode, 0), decode) && HasOneTop(QueueAfter(queue, k, decode, 0));
      assert stream + [] == stream;
      forall m: nat
        ensures HasOneTop(QueueAfter(queue, k, decode, m))
        ensures DryAt(queue, k, decode, stream, last, m) <==> !Available(stream, last)
      {
        DryStays(queue, k, decode, 0, m);
      }
      assert DryAt(queue, k, decode, stream, last, 0) <==> !Available(stream, last);
    }
  }

  /** The first `n` samples of the frame are the outputs of the stream, the others silent. */
  ghost predicate Sounds(frame: seq<Sample>, n: nat, stream: seq<Sample>, start: nat, step: nat, fn: Kernel) {
    n <= |frame| && AreOutputs(frame[..n], stream, start, step, fn) && Silent(frame[n..])
  }

  /** A full frame has its last output in the stream; a frame that stopped for want of samples
      has not. */
  lemma LastOutput(frame: seq<Sample>, n: nat, stream: seq<Sample>, start: nat, step: nat, fn: Kernel)
    requires Sounds(frame, n, stream, start, step, fn) && |frame| == FRAME_LENGTH
    ensures n == FRAME_LENGTH ==> Available(stream, Nth(start, step, FRAME_LENGTH - 1))
    ensures n < FRAME_LENGTH && !Available(stream, Nth(start, step, n)) ==>
              !Available(stream, Nth(start, step, FRAME_LENGTH - 1))
  {
    if n == FRAME_LENGTH {
      assert IsOutput(frame[..n][n - 1], stream, Nth(start, step, n - 1), fn);
    } else {
      LaterIsFurther(start, step, n, FRAME_LENGTH - 1);
    }
  }

  lemma SoundsOn(was: seq<Sample>, now: seq<Sample>, n: nat, next: nat, before: seq<Sample>, stream: seq<Sample>,
                 start: nat, step: nat, fn: Kernel)
    requires Sounds(was, n, before, start, step, fn) && before <= stream && n <= next <= |now| == |was|
    requires now[..n] == was[..n] && now[next..] == was[next..]
    requires AreOutputs(now[n..next], stream, Nth(start, step, n), step, fn)
    ensures Sounds(now, next, stream, start, step, fn)
    ensures Nth(start, step, next) == Nth(Nth(start, step, n), step, next - n)
  {
    assert stream == before + stream[|before|..];
    OutputsJoin(was[..n], now[n..next], before, stream[|before|..], start, step, fn);
    assert now[..next] == was[..n] + now[n..next];
    NthTwice(start, step, n, next - n);
    forall i | 0 <= i < |now| - next ensures now[next..][i] == Sample(0, 0) {
      assert was[next..][i] == was[n..][next - n + i];
    }
  }

  ghost predicate Silent(samples: seq<Sample>) { forall i :: 0 <= i < |samples| ==> samples[i] == Sample(0, 0) }

  /** Queue and samples after buffer `i` was taken out and decoded. */
  ghost predicate Dequeued(was: seq<Buffer>, i: nat, decoded: Option<seq<Sample>>, now: seq<Buffer>, samples: seq<Sample>)
    requires i < |was|
  {
    var b := was[i];
    if decoded.None? then now == was[..i] + was[i + 1..] && samples == []
    else
      && now == was[..i] + was[i + 1..] + (if b.isLooping then [Replay(b)] else [])
      && samples == decoded.value[if b.hasPlayed || |decoded.value| < b.playPosition then 0 else b.playPosition..]
  }

  ghost predicate DequeuedTop(was: seq<Buffer>, decodes: nat, decode: Decoder, now: seq<Buffer>, samples: seq<Sample>,
                              idle: bool)
  {
    exists i: nat :: IsTop(was, i) && Dequeued(was, i, decode(was[i], decodes), now, samples)
                     && idle == EmptyReplay(was[i], decode(was[i], decodes))
  }

  /** Taking buffer `i` out gives no samples and leaves the queue as heavy as it was exactly when
      it is an empty replay; otherwise samples come out or the queue gets lighter. */
  lemma NoProgressIff(was: seq<Buffer>, i: nat, decoded: Option<seq<Sample>>, now: seq<Buffer>, samples: seq<Sample>)
    requires i < |was| && Dequeued(was, i, decoded, now, samples)
    ensures Weight(now) <= Weight(was)
    ensures samples == [] && Weight(now) == Weight(was) <==> EmptyReplay(was[i], decoded)
  {
    WeightWithout(was, i);
    WeightWith(was[..i] + was[i + 1..], Replay(was[i]));
    assert was[..i] + was[i + 1..] + [] == was[..i] + was[i + 1..];
  }

  /** A dequeue keeps what is asked of the queue. */
  lemma DequeueKeeps(was: seq<Buffer>, decodes: nat, decode: Decoder, now: seq<Buffer>, samples: seq<Sample>, idle: bool)
    requires DequeuedTop(was, decodes, decode, now, samples, idle)
    ensures StartsInside(decode, was) ==> StartsInside(decode, now)
    ensures LoopsSound(decode, was) ==> LoopsSound(decode, now)
  {
    var i: nat :| IsTop(was, i) && Dequeued(was, i, decode(was[i], decodes), now, samples);
    forall b | b in now ensures b in was || (b.hasPlayed && was[i].isLooping && b == Replay(was[i])) {
      if b !in was[..i] && b !in was[i + 1..] { assert b == Replay(was[i]); }
    }
    assert was[i] in was;
  }

  /** Either sound comes out, or the queue gets lighter, or an empty replay goes round; not that
      when loops sound. */
  lemma SoundsOrLighter(was: seq<Buffer>, decodes: nat, decode: Decoder, now: seq<Buffer>, samples: seq<Sample>, idle: bool)
    requires DequeuedTop(was, decodes, decode, now, samples, idle)
    ensures Weight(now) <= Weight(was)
    ensures samples == [] && !idle ==> Weight(now) < Weight(was)
    ensures idle ==> samples == [] && GoesRound(was, decodes, decode, now)
    ensures LoopsSound(decode, was) ==> !idle && LoopsSound(decode, now)
    ensures StartsInside(decode, was) ==> StartsInside(decode, now)
  {
    DequeueKeeps(was, decodes, decode, now, samples, idle);
    var i: nat :| IsTop(was, i) && Dequeued(was, i, decode(was[i], decodes), now, samples)
                  && idle == EmptyReplay(was[i], decode(was[i], decodes));
    NoProgressIff(was, i, decode(was[i], decodes), now, samples);
    assert was[i] in was;
    if idle {
      EmptyReplayRotates(was, i, decode(was[i], decodes), now, samples);
      assert Replay(was[i]) == was[i] && decode(Replay(was[i]), decodes) == Some([]);
    }
  }

  function Accepted(offers: seq<Option<Buffer>>): seq<Buffer> {
    if offers == [] then []
    else
      var last := offers[|offers| - 1];
      Accepted(offers[..|offers| - 1]) + if last.Some? && last.value.length >= 0 then [last.value] else []
  }

  lemma NextOffer(offers: seq<Option<Buffer>>, i: nat)
    requires i < |offers|
    ensures Accepted(offers[..i + 1])
            == Accepted(offers[..i]) + if offers[i].Some? && offers[i].value.length >= 0 then [offers[i].value] else []
    ensures Accepted(offers[..0]) == []
  {
    assert offers[..i + 1][..i] == offers[..i];
  }
}
