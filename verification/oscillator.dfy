/** The sample interrupt (`sampleISR`) as a sequential tick function: a 32-bit
    phase accumulator advanced by the current step size on every sample
    period, emitting a sawtooth sample taken from its top byte. */
module Oscillator {
  import opened Words

  /** Offset subtracted and re-added around the signed sample value. */
  const MIDPOINT: U32 := 128
  /** The accumulator's value before the first tick. */
  const INITIAL_PHASE: U32 := 0

  /** What one tick leaves behind: the new accumulator value and the value
      written to the audio output pin. */
  datatype Tick = Tick(phase: U32, sample: U8)

  /** One interrupt: add the step with uint32_t wrap-around, then form
      `Vout = (phase >> 24) - 128` (an unsigned subtraction stored into an
      int32_t) and write `Vout + 128`. */
  function SampleIsr(phase: U32, step: U32): (t: Tick)
    ensures phase + step < TWO32 ==> t.phase == phase + step
    ensures phase + step >= TWO32 ==> t.phase == phase + step - TWO32
    ensures t.sample == Shr24(t.phase)
    ensures 0 <= t.sample < 256
  {
    var acc := AddU32(phase, step);
    var vout := ToI32(SubU32(Shr24(acc), MIDPOINT));
    Tick(acc, vout + MIDPOINT)
  }

  /** The result of `n` consecutive ticks: the final phase and the samples in
      the order they were emitted. */
  datatype Run = Run(phase: U32, samples: seq<U8>)

  /** `n` ticks with the same step from phase `phase`. */
  function RunTicks(phase: U32, step: U32, n: nat): (r: Run)
    ensures |r.samples| == n
    decreases n
  {
    if n == 0 then Run(phase, [])
    else
      var t := SampleIsr(phase, step);
      var rest := RunTicks(t.phase, step, n - 1);
      Run(rest.phase, [t.sample] + rest.samples)
  }

  /** Reducing modulo 2^32 before or after an addition gives the same result. */
  lemma ModAddLeft(a: int, b: int)
    ensures (a % TWO32 + b) % TWO32 == (a + b) % TWO32
  {
    var q := a / TWO32;
    assert a == q * TWO32 + a % TWO32;
    assert a + b == (a % TWO32 + b) + q * TWO32;
  }

  /** One tick adds the step modulo 2^32. */
  lemma TickAddsModulo(phase: U32, step: U32)
    ensures SampleIsr(phase, step).phase == (phase + step) % TWO32
  {
  }

  /** A run of `n > 0` ticks is one tick followed by a run of `n - 1`. */
  lemma RunTicksFirst(p0: U32, k: U32, n: nat)
    requires n > 0
    ensures RunTicks(p0, k, n).phase == RunTicks((p0 + k) % TWO32, k, n - 1).phase
    ensures RunTicks(p0, k, n).samples
      == [Shr24((p0 + k) % TWO32)] + RunTicks((p0 + k) % TWO32, k, n - 1).samples
  {
    TickAddsModulo(p0, k);
  }

  /** After `n` ticks with constant step `k` the phase is `p0 + n*k` modulo
      2^32: the accumulator neither drifts nor loses a wrap. */
  lemma {:induction false} RunPhase(p0: U32, k: U32, n: nat)
    ensures RunTicks(p0, k, n).phase == (p0 + n * k) % TWO32
    decreases n
  {
    if n == 0 {
      assert n * k == 0;
    } else {
      var p1 := (p0 + k) % TWO32;
      RunTicksFirst(p0, k, n);
      RunPhase(p1, k, n - 1);
      MulSucc(n - 1, k);
      ModStep(p0, k, (n - 1) * k, n * k, p1);
    }
  }

  /** From power-up the accumulator after `n` ticks with step `k` holds
      `n * k` modulo 2^32. */
  lemma RunFromStart(k: U32, n: nat)
    ensures RunTicks(INITIAL_PHASE, k, n).phase == (n * k) % TWO32
  {
    RunPhase(INITIAL_PHASE, k, n);
  }

  /** One tick followed by an advance of `a` is an advance of `a + k`. */
  lemma ModStep(p0: int, k: int, a: int, b: int, p1: int)
    requires p1 == (p0 + k) % TWO32 && b == a + k
    ensures (p1 + a) % TWO32 == (p0 + b) % TWO32
  {
    ModAddLeft(p0 + k, a);
  }

  /** Distributing one more copy of `b`. */
  lemma MulSucc(a: nat, b: int)
    ensures (a + 1) * b == a * b + b
  {
  }

  /** Advancing `i` steps after the first tick is advancing `i + 1` steps
      from the start. */
  lemma ShiftedPhase(p0: U32, k: U32, i: nat, p1: int)
    requires p1 == (p0 + k) % TWO32
    ensures (p1 + i * k) % TWO32 == (p0 + (i + 1) * k) % TWO32
  {
    MulSucc(i, k);
    ModStep(p0, k, i * k, (i + 1) * k, p1);
  }

  /** The i-th emitted sample is the top byte of `p0 + (i+1)*k` modulo 2^32. */
  lemma {:induction false} RunSamples(p0: U32, k: U32, n: nat)
    ensures forall i | 0 <= i < n ::
      RunTicks(p0, k, n).samples[i] == Shr24((p0 + (i + 1) * k) % TWO32)
    decreases n
  {
    if n > 0 {
      var p1 := (p0 + k) % TWO32;
      RunTicksFirst(p0, k, n);
      RunSamples(p1, k, n - 1);
      var r := RunTicks(p0, k, n);
      var rest := RunTicks(p1, k, n - 1);
      forall i | 0 <= i < n
        ensures r.samples[i] == Shr24((p0 + (i + 1) * k) % TWO32)
      {
        ShiftedPhase(p0, k, i, p1);
        if i == 0 {
          assert r.samples[0] == Shr24(p1);
        } else {
          assert r.samples[i] == rest.samples[i - 1];
        }
      }
    }
  }

  /** With step 0 the accumulator never moves and every sample is the same:
      silence. */
  lemma {:induction false} SilenceWithZeroStep(p0: U32, n: nat)
    ensures RunTicks(p0, 0, n).phase == p0
    ensures forall i | 0 <= i < n :: RunTicks(p0, 0, n).samples[i] == Shr24(p0)
  {
    RunPhase(p0, 0, n);
    RunSamples(p0, 0, n);
  }

  /** The wrap from 2^32 - 1 lands on `step - 1`: the accumulator passes
      through zero without skipping or repeating a value. */
  lemma WrapSkipsNothing(step: U32)
    requires step > 0
    ensures SampleIsr(TWO32 - 1, step).phase == step - 1
    ensures SampleIsr(TWO32 - 1, 1).phase == 0
  {
  }
}
