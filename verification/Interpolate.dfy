/**
 The fixed-point resampler. It steps over a stream that arrives in chunks, and keeps the last
 two samples and a position with 24 fractional bits between calls.
 */
module Interpolate {
  import opened Common

  datatype Sample = Sample(left: S16, right: S16)

  const SCALE: nat := 0x100_0000

  /** Three adjacent samples and the fraction between the first two. */
  type Kernel = (nat, Sample, Sample, Sample) -> Sample

  // ---------- the two kernels ----------

  function NoneKernel(fraction: nat, x0: Sample, x1: Sample, x2: Sample): Sample { x0 }

  const TWO_64: nat := 0x1_0000_0000_0000_0000

  function Clamp(x: int, lo: int, hi: int): int { if x < lo then lo else if x > hi then hi else x }

  /** `static_cast<s16>`. */
  function ToS16(x: nat): S16 {
    var low := x % 0x1_0000;
    if low < 0x8000 then low else low - 0x1_0000
  }

  /** The expression as it is evaluated: `fraction` is unsigned, so the signed difference and
      the signed sample become 64-bit unsigned numbers. */
  function LinearExpression(fraction: nat, x0: S16, x1: S16): S16 {
    var delta := Clamp(x1 - x0, -0x8000, 0x7FFF);
    var product := fraction * (delta % TWO_64) % TWO_64;
    ToS16((x0 % TWO_64 + product / SCALE) % TWO_64)
  }

  function LinearKernel(fraction: nat, x0: Sample, x1: Sample, x2: Sample): Sample {
    Sample(LinearExpression(fraction, x0.left, x1.left), LinearExpression(fraction, x0.right, x1.right))
  }

  lemma ProductBounds(fraction: nat, delta: int)
    requires fraction < SCALE && -0x8000 <= delta <= 0x7FFF
    ensures delta >= 0 ==> 0 <= fraction * delta <= SCALE * delta
    ensures delta < 0 ==> SCALE * delta <= fraction * delta <= 0
  {
    if delta >= 0 {
      assert (SCALE - fraction) * delta >= 0;
    } else {
      assert (SCALE - fraction) * -delta >= 0;
    }
  }

  /** Multiplying modulo 2^64 is the same for a number and its unsigned representative. */
  lemma WrappedProduct(fraction: nat, delta: int)
    requires -0x8000 <= delta <= 0x7FFF
    ensures fraction * (delta % TWO_64) % TWO_64 == fraction * delta % TWO_64
  {
    if delta < 0 {
      assert delta % TWO_64 == delta + TWO_64;
      assert fraction * (delta + TWO_64) == fraction * delta + fraction * TWO_64;
      AddMultiple(fraction * delta, fraction);
    }
  }

  lemma AddMultiple(x: int, k: nat)
    ensures (x + k * TWO_64) % TWO_64 == x % TWO_64
  {
    if k > 0 {
      AddMultiple(x, k - 1);
      var y := x + (k - 1) * TWO_64;
      assert x + k * TWO_64 == y + TWO_64;
      assert (y + TWO_64) % TWO_64 == y % TWO_64;
    }
  }

  /** The mixed signed and unsigned expression is exactly x0 + floor(fraction * delta / 2^24)
      with the saturated difference, lies between the two samples, and does not wrap. */
  lemma LinearIsExact(fraction: nat, x0: S16, x1: S16)
    requires fraction < SCALE
    ensures var delta := Clamp(x1 - x0, -0x8000, 0x7FFF);
            var r := LinearExpression(fraction, x0, x1);
            && r == x0 + fraction * delta / SCALE
            && (if x0 <= x1 then x0 <= r <= x1 else x1 <= r <= x0)
  {
    var delta := Clamp(x1 - x0, -0x8000, 0x7FFF);
    ProductBounds(fraction, delta);
    WrappedProduct(fraction, delta);
    var m := fraction * delta;
    FloorBetween(m, delta);
    UnsignedQuotient(m, x0);
  }

  lemma FloorBetween(m: int, delta: int)
    requires delta >= 0 ==> 0 <= m <= SCALE * delta
    requires delta < 0 ==> SCALE * delta <= m <= 0
    ensures delta >= 0 ==> 0 <= m / SCALE <= delta
    ensures delta < 0 ==> delta <= m / SCALE <= 0
  {
  }

  lemma WrappedQuotient(m: int)
    requires -0x80_0000_0000 <= m <= 0x80_0000_0000
    ensures m % TWO_64 / SCALE == if m < 0 then m / SCALE + 0x100_0000_0000 else m / SCALE
  {
    assert m % TWO_64 == if m < 0 then m + TWO_64 else m;
  }

  lemma LowBits(z: S16, k: int)
    requires z + k * 0x1_0000 >= 0
    ensures ToS16(z + k * 0x1_0000) == z
  {
    assert (z + k * 0x1_0000) % 0x1_0000 == if z < 0 then z + 0x1_0000 else z;
  }

  lemma WrappedSum(x0: S16, q: int)
    requires -0x8000 <= x0 + q < 0x8000 && -0x1_0000 <= q < 0x1_0000
    ensures ToS16((x0 % TWO_64 + if q < 0 then q + 0x100_0000_0000 else q) % TWO_64) == x0 + q
  {
    var sum := (if x0 < 0 then x0 + TWO_64 else x0) + if q < 0 then q + 0x100_0000_0000 else q;
    var k := (if x0 < 0 && sum < TWO_64 then 0x1_0000_0000_0000 else 0) + if q < 0 then 0x100_0000 else 0;
    assert x0 % TWO_64 == if x0 < 0 then x0 + TWO_64 else x0;
    assert sum % TWO_64 == if sum < TWO_64 then sum else sum - TWO_64;
    LowBits(x0 + q, k);
  }

  /** Dividing the wrapped product and adding the wrapped sample gives the low bits of the
      signed result. */
  lemma UnsignedQuotient(m: int, x0: S16)
    requires -0x80_0000_0000 <= m <= 0x80_0000_0000 && -0x8000 <= x0 + m / SCALE < 0x8000
    ensures ToS16((x0 % TWO_64 + m % TWO_64 / SCALE) % TWO_64) == x0 + m / SCALE
  {
    WrappedQuotient(m);
    WrappedSum(x0, m / SCALE);
  }

  // ---------- the stream ----------

  /** Three samples are there for an output at this position. */
  predicate Available(stream: seq<Sample>, position: nat) { position / SCALE + 2 < |stream| }

  /** The output at a position of the whole stream. */
  function At(stream: seq<Sample>, position: nat, fn: Kernel): Sample
    requires Available(stream, position)
  {
    var i := position / SCALE;
    fn(position % SCALE, stream[i], stream[i + 1], stream[i + 2])
  }

  /** A linear output lies exactly between its two samples of the stream, channel by channel. */
  lemma LinearOutput(stream: seq<Sample>, position: nat)
    requires Available(stream, position)
    ensures var x0, x1, f := stream[position / SCALE], stream[position / SCALE + 1], position % SCALE;
            var output := At(stream, position, LinearKernel);
            && output.left == x0.left + f * Clamp(x1.left - x0.left, -0x8000, 0x7FFF) / SCALE
            && output.right == x0.right + f * Clamp(x1.right - x0.right, -0x8000, 0x7FFF) / SCALE
  {
    var x0, x1, f := stream[position / SCALE], stream[position / SCALE + 1], position % SCALE;
    LinearIsExact(f, x0.left, x1.left);
    LinearIsExact(f, x0.right, x1.right);
  }

  /** Without interpolation the output is the sample the position falls into. */
  lemma NoneOutput(stream: seq<Sample>, position: nat)
    requires Available(stream, position)
    ensures At(stream, position, NoneKernel) == stream[position / SCALE]
  {
  }

  /** The position `n` outputs on. */
  function Nth(position: nat, step: nat, n: nat): nat {
    if n == 0 then position else Nth(position, step, n - 1) + step
  }

  lemma {:induction false} NthIsLinear(position: nat, step: nat, n: nat)
    ensures Nth(position, step, n) == position + n * step
  {
    if n > 0 { NthIsLinear(position, step, n - 1); }
  }

  lemma {:induction false} NthTwice(position: nat, step: nat, m: nat, n: nat)
    ensures Nth(Nth(position, step, m), step, n) == Nth(position, step, m + n)
  {
    if n > 0 { NthTwice(position, step, m, n - 1); }
  }

  lemma {:induction false} LaterIsFurther(position: nat, step: nat, m: nat, n: nat)
    requires m <= n
    ensures Nth(position, step, m) <= Nth(position, step, n)
    ensures forall stream :: Available(stream, Nth(position, step, n)) ==> Available(stream, Nth(position, step, m))
  {
    if m < n { LaterIsFurther(position, step, m, n - 1); }
  }

  /** `x` is the output at a position of the stream. */
  predicate IsOutput(x: Sample, stream: seq<Sample>, position: nat, fn: Kernel) {
    Available(stream, position) && x == At(stream, position, fn)
  }

  /** `out` are the outputs of the whole stream from `position` on. */
  ghost predicate AreOutputs(out: seq<Sample>, stream: seq<Sample>, position: nat, step: nat, fn: Kernel) {
    forall j :: 0 <= j < |out| ==> IsOutput(out[j], stream, Nth(position, step, j), fn)
  }

  lemma OutputsGrow(out: seq<Sample>, x: Sample, stream: seq<Sample>, position: nat, step: nat, fn: Kernel)
    requires AreOutputs(out, stream, position, step, fn) && Available(stream, Nth(position, step, |out|))
    requires x == At(stream, Nth(position, step, |out|), fn)
    ensures AreOutputs(out + [x], stream, position, step, fn)
  {
  }

  lemma FrontOutput(x: Sample, stream: seq<Sample>, more: seq<Sample>, position: nat, fn: Kernel)
    requires IsOutput(x, stream, position, fn)
    ensures IsOutput(x, stream + more, position, fn)
  {
    AppendKeepsOutput(stream, more, position, fn);
  }

  lemma BackOutput(n: nat, b: seq<Sample>, stream: seq<Sample>, position: nat, step: nat, fn: Kernel, k: nat)
    requires AreOutputs(b, stream, Nth(position, step, n), step, fn) && k < |b|
    ensures IsOutput(b[k], stream, Nth(position, step, n + k), fn)
  {
    NthTwice(position, step, n, k);
  }

  /** Outputs do not depend on how stream and frame are cut: those of a first call on the part
      of the stream fed so far, and those of a second call that goes on, are those of one. */
  lemma OutputsJoin(a: seq<Sample>, b: seq<Sample>, stream: seq<Sample>, more: seq<Sample>, position: nat, step: nat,
                    fn: Kernel)
    requires AreOutputs(a, stream, position, step, fn)
    requires AreOutputs(b, stream + more, Nth(position, step, |a|), step, fn)
    ensures AreOutputs(a + b, stream + more, position, step, fn)
  {
    forall j | 0 <= j < |a + b| ensures IsOutput((a + b)[j], stream + more, Nth(position, step, j), fn) {
      JoinedOutput(a, b, stream, more, position, step, fn, j);
    }
  }

  lemma JoinedOutput(a: seq<Sample>, b: seq<Sample>, stream: seq<Sample>, more: seq<Sample>, position: nat, step: nat,
                     fn: Kernel, j: nat)
    requires AreOutputs(a, stream, position, step, fn) && j < |a + b|
    requires AreOutputs(b, stream + more, Nth(position, step, |a|), step, fn)
    ensures IsOutput((a + b)[j], stream + more, Nth(position, step, j), fn)
  {
    if j < |a| {
      FrontOutput(a[j], stream, more, Nth(position, step, j), fn);
    } else {
      BackOutput(|a|, b, stream + more, position, step, fn, j - |a|);
    }
  }

  /** More input later changes no output. */
  lemma AppendKeepsOutput(stream: seq<Sample>, more: seq<Sample>, position: nat, fn: Kernel)
    requires Available(stream, position)
    ensures Available(stream + more, position) && At(stream + more, position, fn) == At(stream, position, fn)
  {
  }

  /** A position in the end of the stream is the same sample as in the whole stream. */
  lemma InStream(stream: seq<Sample>, end: seq<Sample>, base: nat, fpos: nat, fn: Kernel)
    requires base <= |stream| && stream[base..] == end
    ensures Available(end, fpos) <==> Available(stream, base * SCALE + fpos)
    ensures Available(end, fpos) ==> At(end, fpos, fn) == At(stream, base * SCALE + fpos, fn)
  {
    assert (base * SCALE + fpos) / SCALE == base + fpos / SCALE;
    assert (base * SCALE + fpos) % SCALE == fpos % SCALE;
  }

  /** The interpolation state. Ghosts: `stream` is everything ever fed in, after the two initial
      history samples, and `position` the absolute position of the next output. */
  class State {
    var xn1: Sample
    var xn2: Sample
    var fposition: nat
    ghost var stream: seq<Sample>
    ghost var position: nat

    /** The state and the input not yet consumed are the end of the stream. */
    ghost predicate Represents(input: seq<Sample>)
      reads this
    {
      && |stream| >= 2 + |input|
      && stream[|stream| - 2 - |input|..] == [xn2, xn1] + input
      && position == (|stream| - 2 - |input|) * SCALE + fposition
    }

    constructor ()
      ensures Represents([]) && stream == [Sample(0, 0), Sample(0, 0)] && position == 0
    {
      xn1, xn2, fposition := Sample(0, 0), Sample(0, 0), 0;
      stream, position := [Sample(0, 0), Sample(0, 0)], 0;
    }

    /** New input arrives behind what is left of the old. */
    ghost method Feed(input: seq<Sample>, chunk: seq<Sample>)
      requires Represents(input)
      modifies this`stream
      ensures Represents(input + chunk) && stream == old(stream) + chunk
    {
      ghost var b := |stream| - 2 - |input|;
      assert (stream + chunk)[b..] == stream[b..] + chunk;
      assert [xn2, xn1] + input + chunk == [xn2, xn1] + (input + chunk);
      stream := stream + chunk;
    }

    /** `StepOverSamples`. However the stream is cut into inputs and outputs, each output is the
        kernel at its own position of the whole stream; it stops at a full output or when three
        samples are not there, and then all input is consumed. */
    method StepOverSamples(input: seq<Sample>, step: nat, output: array<Sample>, outputStart: nat, fn: Kernel)
      returns (rest: seq<Sample>, outputi: nat)
      requires Represents(input) && outputStart <= output.Length
      modifies this`xn1, this`xn2, this`fposition, this`position, output
      ensures Represents(rest) && outputStart <= outputi <= output.Length
      ensures position == Nth(old(position), step, outputi - outputStart)
      ensures AreOutputs(output[outputStart..outputi], stream, old(position), step, fn)
      ensures output[..outputStart] == old(output[..outputStart]) && output[outputi..] == old(output[..])[outputi..]
      ensures outputi == output.Length || (!Available(stream, position) && rest == [])
    {
      if input == [] {
        InStream(stream, [xn2, xn1], |stream| - 2, fposition, fn);
        return input, outputStart;
      }
      var samples := [xn2, xn1] + input;
      ghost var base := |stream| - 2 - |input|;
      var inputi, fpos;
      outputi, inputi, fpos := StepLoop(samples, fposition, step, output, outputStart, fn, stream, base);
      rest := Leave(samples, inputi, fpos, base, Nth(position, step, outputi - outputStart), fn);
    }

    /** The end of `StepOverSamples`: two samples and the position become the new history. */
    method Leave(samples: seq<Sample>, inputi: nat, fpos: nat, ghost base: nat, ghost next: nat, ghost fn: Kernel)
      returns (rest: seq<Sample>)
      requires base <= |stream| && stream[base..] == samples && inputi + 2 <= |samples| && inputi * SCALE <= fpos
      requires base * SCALE + fpos == next
      modifies this`xn1, this`xn2, this`fposition, this`position
      ensures Represents(rest) && position == next && |rest| == |samples| - 2 - inputi
      ensures Available(stream, position) <==> Available(samples, fpos)
    {
      xn2, xn1 := samples[inputi], samples[inputi + 1];
      fposition := fpos - inputi * SCALE;
      position := next;
      rest := samples[inputi + 2..];
      RestOk(stream, samples, base, inputi, fpos, fn);
    }
  }

  /** What is left after `inputi + 2` samples is again the end of the stream. */
  lemma RestOk(stream: seq<Sample>, samples: seq<Sample>, base: nat, inputi: nat, fpos: nat, fn: Kernel)
    requires base <= |stream| && stream[base..] == samples && inputi + 2 <= |samples|
    ensures stream[base + inputi..] == [samples[inputi], samples[inputi + 1]] + samples[inputi + 2..]
    ensures Available(samples, fpos) <==> Available(stream, base * SCALE + fpos)
  {
    InStream(stream, samples, base, fpos, fn);
  }

  /** After the outputs `out` the loop stands at `fpos` of `samples`, the end of the stream. */
  ghost predicate Stepped(out: seq<Sample>, fpos: nat, stream: seq<Sample>, base: nat, start: nat, step: nat, fn: Kernel) {
    && base * SCALE + fpos == Nth(base * SCALE + start, step, |out|)
    && AreOutputs(out, stream, base * SCALE + start, step, fn)
  }

  lemma StepOk(out: seq<Sample>, fpos: nat, stream: seq<Sample>, base: nat, start: nat, step: nat, fn: Kernel,
               samples: seq<Sample>)
    requires Stepped(out, fpos, stream, base, start, step, fn)
    requires base <= |stream| && stream[base..] == samples && Available(samples, fpos)
    ensures Stepped(out + [At(samples, fpos, fn)], fpos + step, stream, base, start, step, fn)
  {
    InStream(stream, samples, base, fpos, fn);
    OutputsGrow(out, At(samples, fpos, fn), stream, base * SCALE + start, step, fn);
  }

  /** The loop of `StepOverSamples`: where it stopped in the output and in the input, and the
      next position. */
  method StepLoop(samples: seq<Sample>, start: nat, step: nat, output: array<Sample>, outputStart: nat, fn: Kernel,
                  ghost stream: seq<Sample>, ghost base: nat)
    returns (outputi: nat, inputi: nat, fpos: nat)
    requires |samples| >= 2 && outputStart <= output.Length
    requires base <= |stream| && stream[base..] == samples
    modifies output
    ensures outputStart <= outputi <= output.Length && inputi + 2 <= |samples| && inputi * SCALE <= fpos
    ensures Stepped(output[outputStart..outputi], fpos, stream, base, start, step, fn)
    ensures output[..outputStart] == old(output[..outputStart]) && output[outputi..] == old(output[..])[outputi..]
    ensures outputi == output.Length || (!Available(samples, fpos) && inputi + 2 == |samples|)
  {
    outputi, inputi, fpos := outputStart, 0, start;
    ghost var out: seq<Sample> := [];
    while outputi < output.Length
      invariant outputStart <= outputi <= output.Length && inputi + 2 <= |samples| && inputi * SCALE <= fpos
      invariant out == output[outputStart..outputi] && Stepped(out, fpos, stream, base, start, step, fn)
      invariant output[..outputStart] == old(output[..outputStart]) && output[outputi..] == old(output[..])[outputi..]
    {
      inputi := fpos / SCALE;
      if inputi + 2 >= |samples| {
        inputi := |samples| - 2;
        break;
      }
      var fraction := fpos % SCALE;
      var x := fn(fraction, samples[inputi], samples[inputi + 1], samples[inputi + 2]);
      StepOk(out, fpos, stream, base, start, step, fn, samples);
      Store(output, outputStart, outputi, x);
      out, outputi, fpos := out + [x], outputi + 1, fpos + step;
    }
  }

  /** `output[outputi] = x`. */
  method Store(output: array<Sample>, outputStart: nat, outputi: nat, x: Sample)
    requires outputStart <= outputi < output.Length
    modifies output
    ensures output[outputStart..outputi + 1] == old(output[outputStart..outputi]) + [x]
    ensures output[..outputStart] == old(output[..outputStart])
    ensures output[outputi + 1..] == old(output[outputi..])[1..]
  {
    output[outputi] := x;
  }
}
