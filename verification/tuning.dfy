/** The increment ("step size") computation, the twelve-entry step-size table
    and the note-name table of the synthesiser. */
module Tuning {
  import opened Words

  /** Audio sample rate in hertz; the oscillator ticks this often. */
  const SAMPLE_RATE: nat := 22000
  /** Frequency of the reference note A, in hertz. */
  const FREQ_A: nat := 440
  /** Declared index of the reference note; no modelled code reads it. */
  const INDEX_A: nat := 10
  /** Number of keys (semitones) in the matrix, and entries in each table. */
  const NUM_KEYS: nat := 12
  /** From this frequency up, 2^32 * f / SAMPLE_RATE no longer fits the
      target's 32-bit signed `long`, and the conversion is undefined. */
  const FREQ_LIMIT: nat := 11000

  /** The phase increment for frequency `f`: the number of 2^-32 fractions of
      a waveform period that pass in one sample period, rounded down. */
  function StepSize(f: U32): (r: U32)
    requires f < FREQ_LIMIT
    ensures r * SAMPLE_RATE <= TWO32 * f < (r + 1) * SAMPLE_RATE
    ensures r < TWO31
  {
    TWO32 * f / SAMPLE_RATE
  }

  /** The increment is zero exactly at frequency zero. */
  lemma StepSizeZeroIff(f: U32)
    requires f < FREQ_LIMIT
    ensures StepSize(f) == 0 <==> f == 0
  {
  }

  /** A higher frequency always gets a strictly larger increment: one hertz
      is worth more than one accumulator unit per sample. */
  lemma StepSizeStrictlyIncreasing(f: U32, g: U32)
    requires f < g < FREQ_LIMIT
    ensures StepSize(f) < StepSize(g)
  {
  }

  /** One table entry. The index is ignored: every entry is the increment of
      the reference note A (440 Hz), i.e. floor(2^32 / 50). */
  function ConstructStepSizes(index: int): (r: U32)
    ensures r * SAMPLE_RATE <= TWO32 * FREQ_A < (r + 1) * SAMPLE_RATE
    ensures r * 50 <= TWO32 < (r + 1) * 50
  {
    var frequency := 440;
    StepSize(frequency)
  }

  /** The step-size table, one entry per key index 0..11. */
  function StepSizes(): (t: seq<U32>)
    ensures |t| == NUM_KEYS
    ensures forall i | 0 <= i < |t| :: t[i] == 85_899_345
  {
    [ ConstructStepSizes(0), ConstructStepSizes(1), ConstructStepSizes(2),
      ConstructStepSizes(3), ConstructStepSizes(4), ConstructStepSizes(5),
      ConstructStepSizes(6), ConstructStepSizes(7), ConstructStepSizes(8),
      ConstructStepSizes(9), ConstructStepSizes(10), ConstructStepSizes(11) ]
  }

  /** The table is constant: every entry equals the increment for 440 Hz, so
      it does not rise with the key index. */
  lemma StepSizesConstant()
    ensures forall i, j | 0 <= i < NUM_KEYS && 0 <= j < NUM_KEYS :: StepSizes()[i] == StepSizes()[j]
    ensures forall i | 0 <= i < NUM_KEYS :: StepSizes()[i] == StepSize(FREQ_A)
    ensures !(StepSizes()[0] < StepSizes()[NUM_KEYS - 1])
  {
  }

  /** Note names, indexed like the keys: C at 0 up to B at 11. */
  const NAMES: seq<string> := ["C", "C#", "D", "D#", "E", "F", "F#", "G", "G#", "A", "A#", "B"]

  /** Every name is a non-empty label without a space, so a space can serve as
      the separator in the note string. */
  lemma NamesAreLabels()
    ensures |NAMES| == NUM_KEYS
    ensures forall k | 0 <= k < NUM_KEYS :: |NAMES[k]| > 0 && ' ' !in NAMES[k]
    ensures NAMES[9] == "A" && NAMES[INDEX_A] == "A#"
  {
  }
}
