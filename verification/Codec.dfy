/**
 The ADPCM decoder: frames of one header byte and seven bytes with two samples each, filtered
 by two coefficients that the header chooses, with the last two samples fed back.
 */
module Codec {
  import opened Common

  type Nibble = x: int | 0 <= x < 16

  type Coefs = c: seq<S16> | |c| == 16 witness seq(16, _ => 0)

  const FRAME_LEN: nat := 8
  const SAMPLES_PER_FRAME: nat := 14

  datatype History = History(yn1: S16, yn2: S16)

  function Pow2(n: nat): (p: nat)
    ensures p > 0
  {
    if n == 0 then 1 else 2 * Pow2(n - 1)
  }

  /** `SIGNED_NIBBLES`. */
  function Signed(nibble: Nibble): int { if nibble < 8 then nibble else nibble - 16 }

  function Clamp(x: int): S16 { if x < -0x8000 then -0x8000 else if x > 0x7FFF then 0x7FFF else x }

  /** The accumulator, before the shift back. */
  function Accumulator(nibble: Nibble, scale: nat, coef1: S16, coef2: S16, y: History): int {
    Signed(nibble) * scale * 2048 + 0x400 + coef1 * y.yn1 + coef2 * y.yn2
  }

  /** The feedback state after one sample; `yn1` is the sample. */
  function Next(header: Byte, nibble: Nibble, coefs: Coefs, y: History): History {
    var idx := header / 16 % 8;
    History(Clamp(Accumulator(nibble, Pow2(header % 16), coefs[idx * 2], coefs[idx * 2 + 1], y) / 2048), y.yn1)
  }

  // ---------- the sequence of samples, for any filter ----------

  type Filter = (Byte, Nibble, History) -> History

  function FilterOf(coefs: Coefs): Filter {
    (header: Byte, nibble: Nibble, y: History) => Next(header, nibble, coefs, y)
  }

  /** What one sample is decoded from. */
  datatype Code = Code(header: Byte, nibble: Nibble)

  /** The feedback state after the samples of `codes`. */
  function After(codes: seq<Code>, filter: Filter, y: History): History {
    if codes == [] then y
    else
      var last := codes[|codes| - 1];
      filter(last.header, last.nibble, After(codes[..|codes| - 1], filter, y))
  }

  function Samples(codes: seq<Code>, filter: Filter, y: History): (r: seq<S16>)
    ensures |r| == |codes|
  {
    if codes == [] then []
    else Samples(codes[..|codes| - 1], filter, y) + [After(codes, filter, y).yn1]
  }

  lemma {:induction false} CodesCompose(a: seq<Code>, b: seq<Code>, filter: Filter, y: History)
    ensures After(a + b, filter, y) == After(b, filter, After(a, filter, y))
    ensures Samples(a + b, filter, y) == Samples(a, filter, y) + Samples(b, filter, After(a, filter, y))
  {
    if b == [] {
      assert a + b == a;
    } else {
      var n := |b| - 1;
      CodesCompose(a, b[..n], filter, y);
      assert (a + b)[..|a| + n] == a + b[..n];
    }
  }

  lemma OneMore(codes: seq<Code>, code: Code, filter: Filter, y: History)
    ensures After(codes + [code], filter, y) == filter(code.header, code.nibble, After(codes, filter, y))
    ensures Samples(codes + [code], filter, y) == Samples(codes, filter, y) + [After(codes + [code], filter, y).yn1]
  {
    assert (codes + [code])[..|codes|] == codes;
  }

  function NumFrames(n: nat): nat { (n + (SAMPLES_PER_FRAME - 1)) / SAMPLES_PER_FRAME }

  /** There are bytes for `n` samples. */
  predicate Enough(data: seq<Byte>, n: nat) { |data| >= NumFrames(n) * FRAME_LEN }

  /** Header and nibble of sample `i`: the high nibble of its byte first. */
  function CodeAt(data: seq<Byte>, i: nat): Code
    requires |data| >= (i / SAMPLES_PER_FRAME + 1) * FRAME_LEN
  {
    var start := i / SAMPLES_PER_FRAME * FRAME_LEN;
    var b := data[start + 1 + i % SAMPLES_PER_FRAME / 2];
    Code(data[start], if i % 2 == 0 then b / 16 else b % 16)
  }

  lemma EnoughAt(data: seq<Byte>, n: nat, i: nat)
    requires Enough(data, n) && i < n
    ensures |data| >= (i / SAMPLES_PER_FRAME + 1) * FRAME_LEN
  {
  }

  function Codes(data: seq<Byte>, n: nat): (r: seq<Code>)
    requires Enough(data, n)
    ensures |r| == n
  {
    seq(n, i requires 0 <= i < n => EnoughAt(data, n, i); CodeAt(data, i))
  }

  /** The codes of one frame. */
  function FrameCodes(data: seq<Byte>, n: nat): (r: seq<Code>)
    requires |data| >= FRAME_LEN && n <= SAMPLES_PER_FRAME
    ensures |r| == n
  {
    seq(n, i requires 0 <= i < n => Code(data[0], if i % 2 == 0 then data[1 + i / 2] / 16 else data[1 + i / 2] % 16))
  }

  lemma FrameHas(data: seq<Byte>, n: nat)
    requires |data| >= FRAME_LEN && n <= SAMPLES_PER_FRAME && Enough(data, n)
    ensures Codes(data, n) == FrameCodes(data, n)
  {
    forall i | 0 <= i < n ensures Codes(data, n)[i] == FrameCodes(data, n)[i] {
      assert i / SAMPLES_PER_FRAME == 0 && i % SAMPLES_PER_FRAME == i;
    }
  }

  /** The output is a multiple of two. */
  function Rounded(n: nat): nat { if n % 2 == 0 then n else n + 1 }

  lemma EnoughAhead(data: seq<Byte>, a: nat, b: nat)
    requires Enough(data, SAMPLES_PER_FRAME * a + b)
    ensures Enough(data, SAMPLES_PER_FRAME * a) && |data| >= FRAME_LEN * a && Enough(data[FRAME_LEN * a..], b)
  {
    assert NumFrames(SAMPLES_PER_FRAME * a + b) == a + NumFrames(b) && NumFrames(SAMPLES_PER_FRAME * a) == a;
  }

  lemma FrameOf(a: nat, i: nat)
    ensures (SAMPLES_PER_FRAME * a + i) / SAMPLES_PER_FRAME == a + i / SAMPLES_PER_FRAME
    ensures (SAMPLES_PER_FRAME * a + i) % SAMPLES_PER_FRAME == i % SAMPLES_PER_FRAME
    ensures (SAMPLES_PER_FRAME * a + i) % 2 == i % 2
  {
  }

  lemma CodeAhead(data: seq<Byte>, a: nat, i: nat)
    requires |data| >= FRAME_LEN * a && |data[FRAME_LEN * a..]| >= (i / SAMPLES_PER_FRAME + 1) * FRAME_LEN
    ensures |data| >= ((SAMPLES_PER_FRAME * a + i) / SAMPLES_PER_FRAME + 1) * FRAME_LEN
    ensures CodeAt(data, SAMPLES_PER_FRAME * a + i) == CodeAt(data[FRAME_LEN * a..], i)
  {
    FrameOf(a, i);
  }

  /** The codes of a frames and b samples are those of the frames, then those from byte 8a on. */
  lemma FramesAhead(data: seq<Byte>, a: nat, b: nat)
    requires Enough(data, SAMPLES_PER_FRAME * a + b)
    requires Enough(data, SAMPLES_PER_FRAME * a) && |data| >= FRAME_LEN * a && Enough(data[FRAME_LEN * a..], b)
    ensures Codes(data, SAMPLES_PER_FRAME * a + b) == Codes(data, SAMPLES_PER_FRAME * a) + Codes(data[FRAME_LEN * a..], b)
  {
    var front, back := Codes(data, SAMPLES_PER_FRAME * a), Codes(data[FRAME_LEN * a..], b);
    forall k | SAMPLES_PER_FRAME * a <= k < SAMPLES_PER_FRAME * a + b
      ensures Codes(data, SAMPLES_PER_FRAME * a + b)[k] == (front + back)[k]
    {
      EnoughAt(data[FRAME_LEN * a..], b, k - SAMPLES_PER_FRAME * a);
      CodeAhead(data, a, k - SAMPLES_PER_FRAME * a);
    }
  }

  /** Decoding 14a + b samples is decoding 14a, then b from byte 8a on with the carried state. */
  lemma DecodeComposes(data: seq<Byte>, filter: Filter, y: History, a: nat, b: nat)
    requires Enough(data, SAMPLES_PER_FRAME * a + b)
    ensures Enough(data, SAMPLES_PER_FRAME * a) && |data| >= FRAME_LEN * a && Enough(data[FRAME_LEN * a..], b)
    ensures var front, back := Codes(data, SAMPLES_PER_FRAME * a), Codes(data[FRAME_LEN * a..], b);
            var whole := Codes(data, SAMPLES_PER_FRAME * a + b);
            && After(whole, filter, y) == After(back, filter, After(front, filter, y))
            && Samples(whole, filter, y) == Samples(front, filter, y) + Samples(back, filter, After(front, filter, y))
  {
    EnoughAhead(data, a, b);
    FramesAhead(data, a, b);
    CodesCompose(Codes(data, SAMPLES_PER_FRAME * a), Codes(data[FRAME_LEN * a..], b), filter, y);
  }

  // ---------- the decoder ----------

  class ADPCMState {
    var yn1: S16
    var yn2: S16

    /** `decode_sample`. */
    method DecodeSample(nibble: Nibble, scale: nat, coef1: S16, coef2: S16) returns (sample: S16)
      modifies this
      ensures History(yn1, yn2) == History(sample, old(yn1))
      ensures sample == Clamp(Accumulator(nibble, scale, coef1, coef2, old(History(yn1, yn2))) / 2048)
    {
      var xn := Signed(nibble) * scale;
      var val := (xn * 2048 + 0x400 + coef1 * yn1 + coef2 * yn2) / 2048;
      val := Clamp(val);
      yn2 := yn1;
      yn1 := val;
      sample := val;
    }

    /** The two samples of one byte. */
    method DecodeByte(header: Byte, b: Byte, coefs: Coefs) returns (sample1: S16, sample2: S16)
      modifies this
      ensures var y1 := FilterOf(coefs)(header, b / 16, old(History(yn1, yn2)));
              var y2 := FilterOf(coefs)(header, b % 16, y1);
              sample1 == y1.yn1 && sample2 == y2.yn1 && History(yn1, yn2) == y2
    {
      var idx := header / 16 % 8;
      var scale := Pow2(header % 16);
      sample1 := DecodeSample(b / 16, scale, coefs[idx * 2], coefs[idx * 2 + 1]);
      sample2 := DecodeSample(b % 16, scale, coefs[idx * 2], coefs[idx * 2 + 1]);
    }

    /** `DecodeADPCM` fills the output, rounded up to a multiple of two, exactly; with an odd
        count the extra sample is decoded too, and the carried state is behind it. */
    method DecodeADPCM(data: seq<Byte>, sampleCount: nat, coefs: Coefs) returns (ret: array<S16>)
      requires Enough(data, sampleCount)
      modifies this
      ensures fresh(ret) && ret.Length == Rounded(sampleCount) && Enough(data, ret.Length)
      ensures ret[..] == Samples(Codes(data, ret.Length), FilterOf(coefs), old(History(yn1, yn2)))
      ensures History(yn1, yn2) == After(Codes(data, ret.Length), FilterOf(coefs), old(History(yn1, yn2)))
    {
      ret := new S16[Rounded(sampleCount)](_ => 0);
      ghost var y := History(yn1, yn2);
      var numFrames := (sampleCount + (SAMPLES_PER_FRAME - 1)) / SAMPLES_PER_FRAME;
      ghost var codes: seq<Code> := [];
      for frame := 0 to numFrames
        invariant DoneUpTo(data, Rounded(sampleCount), frame, codes)
        invariant Decoded(codes, FilterOf(coefs), y, ret[..], History(yn1, yn2))
      {
        FrameInData(data, sampleCount, frame, codes);
        ghost var more := DecodeFrame(data, sampleCount, coefs, ret, frame, y, codes);
        FrameDone(data, sampleCount, frame, codes, more);
        codes := codes + more;
      }
      AllDone(data, sampleCount, codes);
      assert ret[..|codes|] == ret[..];
    }

    /** One pass of the outer loop. */
    method DecodeFrame(data: seq<Byte>, sampleCount: nat, coefs: Coefs, ret: array<S16>, frame: nat, ghost y: History,
                       ghost codes: seq<Code>)
      returns (ghost more: seq<Code>)
      requires ret.Length == Rounded(sampleCount) && |data| >= (frame + 1) * FRAME_LEN
      requires |codes| == frame * SAMPLES_PER_FRAME < sampleCount
      requires |codes| <= ret.Length
      requires Decoded(codes, FilterOf(coefs), y, ret[..], History(yn1, yn2))
      modifies this, ret
      ensures |more| <= SAMPLES_PER_FRAME && more == FrameCodes(data[frame * FRAME_LEN..], |more|)
      ensures |codes| + |more| == ret.Length || |more| == SAMPLES_PER_FRAME
      ensures Decoded(codes + more, FilterOf(coefs), y, ret[..], History(yn1, yn2))
    {
      var header := data[frame * FRAME_LEN];
      var outputi := frame * SAMPLES_PER_FRAME;
      var datai := frame * FRAME_LEN + 1;
      var i: nat := 0;
      ghost var d := data[frame * FRAME_LEN..];
      assert codes + FrameCodes(d, 0) == codes;
      FramesAreEven(frame);
      while i < SAMPLES_PER_FRAME && outputi < sampleCount
        invariant i <= SAMPLES_PER_FRAME && i % 2 == 0 && outputi % 2 == 0 && outputi == |codes| + i <= ret.Length
        invariant datai == frame * FRAME_LEN + 1 + i / 2
        invariant Decoded(codes + FrameCodes(d, i), FilterOf(coefs), y, ret[..], History(yn1, yn2))
      {
        RoomForPair(sampleCount, outputi);
        DecodeNext(data, datai, coefs, ret, header, outputi, y, codes, d, i);
        NextPair(i, outputi);
        outputi := outputi + 2;
        datai := datai + 1;
        i := i + 2;
      }
      more := FrameCodes(d, i);
    }

    method DecodeNext(data: seq<Byte>, datai: nat, coefs: Coefs, ret: array<S16>, header: Byte, outputi: nat,
                      ghost y: History, ghost codes: seq<Code>, ghost d: seq<Byte>, ghost i: nat)
      requires datai < |data| && |d| >= FRAME_LEN && i < SAMPLES_PER_FRAME && i % 2 == 0
      requires d[0] == header && d[1 + i / 2] == data[datai]
      requires outputi == |codes| + i && outputi + 2 <= ret.Length
      requires Decoded(codes + FrameCodes(d, i), FilterOf(coefs), y, ret[..], History(yn1, yn2))
      modifies this, ret
      ensures Decoded(codes + FrameCodes(d, i + 2), FilterOf(coefs), y, ret[..], History(yn1, yn2))
    {
      PairOfFrame(codes, d, i);
      DecodePair(data[datai], coefs, ret, header, outputi, y, codes + FrameCodes(d, i));
    }

    /** The body of the inner loop. */
    method DecodePair(b: Byte, coefs: Coefs, ret: array<S16>, header: Byte, outputi: nat, ghost y: History,
                      ghost codes: seq<Code>)
      requires outputi == |codes| && outputi + 2 <= ret.Length
      requires Decoded(codes, FilterOf(coefs), y, ret[..], History(yn1, yn2))
      modifies this, ret
      ensures Decoded(codes + ([Code(header, b / 16)] + [Code(header, b % 16)]), FilterOf(coefs), y, ret[..], History(yn1, yn2))
    {
      ghost var was, before := ret[..], History(yn1, yn2);
      var sample1, sample2 := DecodeByte(header, b, coefs);
      ret[outputi] := sample1;
      ret[outputi + 1] := sample2;
      DecodedPair(codes, FilterOf(coefs), y, was, ret[..], Code(header, b / 16), Code(header, b % 16), before);
    }
  }

  /** The first outputs are the samples of `codes`, and the feedback state is behind them. */
  ghost predicate Decoded(codes: seq<Code>, filter: Filter, y: History, ret: seq<S16>, now: History) {
    |codes| <= |ret| && ret[..|codes|] == Samples(codes, filter, y) && now == After(codes, filter, y)
  }

  lemma DecodedPair(codes: seq<Code>, filter: Filter, y: History, was: seq<S16>, now: seq<S16>,
                    code1: Code, code2: Code, before: History)
    requires |codes| + 2 <= |was| == |now| && Decoded(codes, filter, y, was, before)
    requires now == was[|codes| := now[|codes|]][|codes| + 1 := now[|codes| + 1]]
    requires var y1 := filter(code1.header, code1.nibble, before);
             now[|codes|] == y1.yn1 && now[|codes| + 1] == filter(code2.header, code2.nibble, y1).yn1
    ensures Decoded(codes + ([code1] + [code2]), filter, y, now,
                    filter(code2.header, code2.nibble, filter(code1.header, code1.nibble, before)))
  {
    OneMore(codes, code1, filter, y);
    OneMore(codes + [code1], code2, filter, y);
    assert codes + ([code1] + [code2]) == codes + [code1] + [code2];
    assert now[..|codes| + 2] == was[..|codes|] + [now[|codes|]] + [now[|codes| + 1]];
  }

  /** Two neighbours of a frame come from one byte, under the header of the frame. */
  lemma PairOfFrame(codes: seq<Code>, data: seq<Byte>, i: nat)
    requires |data| >= FRAME_LEN && i < SAMPLES_PER_FRAME && i % 2 == 0
    ensures codes + FrameCodes(data, i + 2)
            == codes + FrameCodes(data, i)
               + ([Code(data[0], data[1 + i / 2] / 16)] + [Code(data[0], data[1 + i / 2] % 16)])
  {
  }

  lemma NextPair(i: nat, outputi: nat)
    requires i % 2 == 0 && outputi % 2 == 0 && i < SAMPLES_PER_FRAME
    ensures i + 2 <= SAMPLES_PER_FRAME && (i + 2) / 2 == i / 2 + 1 && (i + 2) % 2 == 0 && (outputi + 2) % 2 == 0
  {
  }

  lemma FramesAreEven(frame: nat)
    ensures frame * SAMPLES_PER_FRAME % 2 == 0
  {
  }

  lemma RoomForPair(sampleCount: nat, outputi: nat)
    requires outputi % 2 == 0 && outputi < sampleCount
    ensures outputi + 2 <= Rounded(sampleCount)
    ensures outputi + 2 >= sampleCount ==> outputi + 2 == Rounded(sampleCount)
  {
  }

  /** After `frame` frames: the codes of whole frames, or all `n`. */
  ghost predicate DoneUpTo(data: seq<Byte>, n: nat, frame: nat, codes: seq<Code>) {
    && |codes| == (if frame * SAMPLES_PER_FRAME < n then frame * SAMPLES_PER_FRAME else n)
    && Enough(data, |codes|) && codes == Codes(data, |codes|)
  }

  lemma FrameInData(data: seq<Byte>, sampleCount: nat, frame: nat, codes: seq<Code>)
    requires Enough(data, sampleCount) && frame < NumFrames(sampleCount)
    requires DoneUpTo(data, Rounded(sampleCount), frame, codes)
    ensures |codes| == frame * SAMPLES_PER_FRAME < sampleCount && |data| >= (frame + 1) * FRAME_LEN
  {
  }

  lemma FrameDone(data: seq<Byte>, sampleCount: nat, frame: nat, codes: seq<Code>, more: seq<Code>)
    requires Enough(data, sampleCount) && frame < NumFrames(sampleCount)
    requires |codes| == frame * SAMPLES_PER_FRAME && DoneUpTo(data, Rounded(sampleCount), frame, codes)
    requires |data| >= (frame + 1) * FRAME_LEN && |codes| + |more| <= Rounded(sampleCount)
    requires |more| <= SAMPLES_PER_FRAME && more == FrameCodes(data[frame * FRAME_LEN..], |more|)
    requires |codes| + |more| == Rounded(sampleCount) || |more| == SAMPLES_PER_FRAME
    ensures DoneUpTo(data, Rounded(sampleCount), frame + 1, codes + more)
  {
    assert NumFrames(frame * SAMPLES_PER_FRAME + |more|) <= frame + 1;
    EnoughAhead(data, frame, |more|);
    FramesAhead(data, frame, |more|);
    FrameHas(data[frame * FRAME_LEN..], |more|);
  }

  lemma FramesCover(n: nat)
    ensures NumFrames(n) * SAMPLES_PER_FRAME >= Rounded(n)
  {
    FramesAreEven(NumFrames(n));
  }

  lemma AllDone(data: seq<Byte>, sampleCount: nat, codes: seq<Code>)
    requires DoneUpTo(data, Rounded(sampleCount), NumFrames(sampleCount), codes)
    ensures |codes| == Rounded(sampleCount)
  {
    FramesCover(sampleCount);
  }

  // ---------- the state after an odd count ----------

  /** The state behind `n` samples. */
  function Carried(data: seq<Byte>, n: nat, coefs: Coefs, y: History): History
    requires Enough(data, n)
  {
    After(Codes(data, n), FilterOf(coefs), y)
  }

  ghost predicate CarriesFor(n: nat, data: seq<Byte>, coefs: Coefs, y: History) {
    Enough(data, n) && Enough(data, Rounded(n)) ==> Carried(data, Rounded(n), coefs, y) == Carried(data, n, coefs, y)
  }

  /** Decoding `n` samples leaves the state behind exactly those, whatever the data are. */
  ghost predicate CarriesExactly(n: nat) {
    forall data, coefs: Coefs, y :: CarriesFor(n, data, coefs, y)
  }

  const SILENT_COEFS: Coefs := seq(16, _ => 0)

  lemma LastCode(codes: seq<Code>, filter: Filter, y: History) returns (before: History)
    requires codes != []
    ensures After(codes, filter, y) == filter(codes[|codes| - 1].header, codes[|codes| - 1].nibble, before)
  {
    before := After(codes[..|codes| - 1], filter, y);
  }

  lemma SilentStep(nibble: Nibble, y: History)
    requires nibble < 2
    ensures Next(1, nibble, SILENT_COEFS, y).yn1 == 2 * nibble
  {
    assert Pow2(1) == 2 * Pow2(0);
  }

  lemma OnesCode(n: nat, data: seq<Byte>)
    requires n > 0 && Enough(data, n) && forall i :: 0 <= i < |data| ==> data[i] == 1
    ensures Codes(data, n)[n - 1] == Code(1, if n % 2 == 0 then 1 else 0)
  {
    EnoughAt(data, n, n - 1);
  }

  /** In bytes of 1 every second sample is 2, behind a sample 0. */
  lemma OnesGive(n: nat, data: seq<Byte>, y: History)
    requires n > 0 && Enough(data, n) && forall i :: 0 <= i < |data| ==> data[i] == 1
    ensures Carried(data, n, SILENT_COEFS, y).yn1 == if n % 2 == 0 then 2 else 0
  {
    OnesCode(n, data);
    var before := LastCode(Codes(data, n), FilterOf(SILENT_COEFS), y);
    SilentStep(if n % 2 == 0 then 1 else 0, before);
  }

  /** The bytes of 1 for `n` samples. */
  function Ones(n: nat): (data: seq<Byte>)
    ensures Enough(data, n) && forall i :: 0 <= i < |data| ==> data[i] == 1
  {
    seq(NumFrames(n) * FRAME_LEN, _ => 1)
  }

  lemma OddIsCovered(n: nat)
    requires n % 2 == 1
    ensures Rounded(n) == n + 1 && Enough(Ones(n + 1), n)
  {
  }

  lemma ParityShows(n: nat, m: nat, data: seq<Byte>, y: History)
    requires n > 0 && n % 2 == 1 && m % 2 == 0 && m > 0 && Enough(data, n) && Enough(data, m)
    requires forall i :: 0 <= i < |data| ==> data[i] == 1
    ensures Carried(data, n, SILENT_COEFS, y) != Carried(data, m, SILENT_COEFS, y)
  {
    OnesGive(n, data, y);
    OnesGive(m, data, y);
  }

  lemma OddCarriesMore(n: nat)
    requires n % 2 == 1
    ensures !CarriesFor(n, Ones(n + 1), SILENT_COEFS, History(0, 0))
  {
    OddIsCovered(n);
    ParityShows(n, n + 1, Ones(n + 1), History(0, 0));
  }

  /** The state is carried exactly for even counts: for an odd one the extra sample counts. */
  lemma CarriesExactlyIff(n: nat)
    ensures CarriesExactly(n) <==> n % 2 == 0
  {
    if n % 2 == 1 {
      OddCarriesMore(n);
    } else {
      forall data, coefs: Coefs, y ensures CarriesFor(n, data, coefs, y) {
        assert Rounded(n) == n;
      }
    }
  }

  // ---------- when 32 bits are enough ----------

  predicate IsInt32(x: int) { -0x8000_0000 <= x < 0x8000_0000 }

  /** The largest and the smallest a coefficient can contribute. */
  function Most(coef: S16): int { if coef >= 0 then coef * 0x7FFF else coef * -0x8000 }

  function Least(coef: S16): int { if coef >= 0 then coef * -0x8000 else coef * 0x7FFF }

  /** The extreme inputs: nibble 7 or -8 with scale 2^15, and feedback at its limits. */
  predicate Fits(coef1: S16, coef2: S16) {
    && IsInt32(7 * 0x8000 * 2048 + 0x400 + Most(coef1) + Most(coef2))
    && IsInt32(-8 * 0x8000 * 2048 + 0x400 + Least(coef1) + Least(coef2))
  }

  lemma {:induction false} ScaleBounds(n: nat)
    requires n < 16
    ensures Pow2(n) <= 0x8000 && Pow2(15) == 0x8000
  {
    assert Pow2(15) == 0x8000 by {
      assert Pow2(4) == 16;
      assert Pow2(8) == 256;
      assert Pow2(12) == 4096;
    }
    if n < 15 {
      Pow2Grows(n, 15);
    }
  }

  lemma {:induction false} Pow2Grows(m: nat, n: nat)
    requires m <= n
    ensures Pow2(m) <= Pow2(n)
  {
    if m < n { Pow2Grows(m, n - 1); }
  }

  lemma Monotone(c: int, lo: int, hi: int)
    requires lo <= hi
    ensures c >= 0 ==> c * lo <= c * hi
    ensures c <= 0 ==> c * hi <= c * lo
  {
    assert c * hi - c * lo == c * (hi - lo);
  }

  lemma CoefBounds(coef: S16, y: S16)
    ensures Least(coef) <= coef * y <= Most(coef)
  {
    Monotone(coef, y, 0x7FFF);
    Monotone(coef, -0x8000, y);
  }

  /** The 32-bit accumulator never overflows, for any nibble, header and feedback, exactly when
      it does not at the extreme inputs. */
  lemma NeverOverflowsIff(coef1: S16, coef2: S16)
    ensures Fits(coef1, coef2) <==>
              forall nibble: Nibble, shift: nat, y: History :: shift < 16 ==>
                IsInt32(Accumulator(nibble, Pow2(shift), coef1, coef2, y))
  {
    ScaleBounds(15);
    if Fits(coef1, coef2) {
      forall nibble: Nibble, shift: nat, y: History | shift < 16
        ensures IsInt32(Accumulator(nibble, Pow2(shift), coef1, coef2, y))
      {
        AccumulatorFits(nibble, shift, coef1, coef2, y);
      }
    } else {
      var high := History(if coef1 >= 0 then 0x7FFF else -0x8000, if coef2 >= 0 then 0x7FFF else -0x8000);
      var low := History(if coef1 >= 0 then -0x8000 else 0x7FFF, if coef2 >= 0 then -0x8000 else 0x7FFF);
      assert !IsInt32(Accumulator(7, Pow2(15), coef1, coef2, high)) || !IsInt32(Accumulator(8, Pow2(15), coef1, coef2, low));
    }
  }

  lemma ScaledNibble(x: int, scale: nat)
    requires -8 <= x <= 7 && scale <= 0x8000
    ensures -8 * 0x8000 <= x * scale <= 7 * 0x8000
  {
    if x >= 0 { assert x * (0x8000 - scale) >= 0; } else { assert -x * (0x8000 - scale) >= 0; }
  }

  lemma AccumulatorFits(nibble: Nibble, shift: nat, coef1: S16, coef2: S16, y: History)
    requires shift < 16 && Fits(coef1, coef2)
    ensures IsInt32(Accumulator(nibble, Pow2(shift), coef1, coef2, y))
  {
    ScaleBounds(shift);
    var scale := Pow2(shift);
    ScaledNibble(Signed(nibble), scale);
    CoefBounds(coef1, y.yn1);
    CoefBounds(coef2, y.yn2);
  }

  function Abs(x: int): nat { if x < 0 then -x else x }

  /** In particular 49152 is enough for the coefficients together, and 49153 is not. */
  lemma CoefficientBudget(coef1: S16, coef2: S16)
    ensures Abs(coef1) + Abs(coef2) <= 49152 ==> Fits(coef1, coef2)
    ensures coef1 >= 0 && coef2 >= 0 && coef1 + coef2 == 49153 ==> !Fits(coef1, coef2)
  {
  }
}
