/** The scan and the oscillator together: the step size a scan leaves behind
    is what the sample interrupt adds on every tick. */
module System {
  import opened Words
  import opened Tuning
  import opened Oscillator
  import opened KeyScan
  import opened ScanFacts

  /** The step size a scan hands the oscillator is always below every entry of
      the step-size table: the scan passes the key index (0..11) as a
      frequency in hertz, while each table entry is the increment for 440 Hz.
      The step size never comes from the table; `readCols` reads the table
      only to print it. */
  lemma ScanStepBelowTable(m: Readings)
    ensures forall i | 0 <= i < NUM_KEYS :: ReadCols(m).stepSize < StepSizes()[i]
  {
    var ks := PressedKeys(m);
    if |ks| > 0 {
      StepSizeStrictlyIncreasing(ks[|ks| - 1], FREQ_A);
    }
    StepSizesConstant();
  }

  /** Holding A alone (key 9) shows "A " but plays the increment for 9 Hz,
      not the table's entry for key 9. */
  lemma IncrementOutsideTable(m: Readings)
    requires forall k | 0 <= k < NUM_KEYS :: Pressed(m, k) <==> k == 9
    ensures ReadCols(m).noteString == "A "
    ensures ReadCols(m).stepSize == StepSize(9)
    ensures ReadCols(m).stepSize != StepSizes()[9]
  {
    OneKeyHeld(m, 9);
    NamesAreLabels();
    ScanStepBelowTable(m);
  }

  /** With no key held the oscillator stands still: from any phase, every
      sample of a run is the same value. */
  lemma NoKeySilence(m: Readings, p0: U32, n: nat)
    requires forall k | 0 <= k < NUM_KEYS :: !Pressed(m, k)
    ensures RunTicks(p0, ReadCols(m).stepSize, n).phase == p0
    ensures forall i | 0 <= i < n :: RunTicks(p0, ReadCols(m).stepSize, n).samples[i] == Shr24(p0)
  {
    NoKeyNoNote(m);
    SilenceWithZeroStep(p0, n);
  }

  /** Holding one key `key` in 1..11 for `n` ticks advances the phase by
      `n * step_size(key)` modulo 2^32, and that step is not zero, so the
      oscillator moves. */
  lemma OneKeyAdvances(m: Readings, key: nat, p0: U32, n: nat)
    requires 1 <= key < NUM_KEYS
    requires forall k | 0 <= k < NUM_KEYS :: Pressed(m, k) <==> k == key
    ensures ReadCols(m).stepSize > 0
    ensures RunTicks(p0, ReadCols(m).stepSize, n).phase == (p0 + n * StepSize(key)) % TWO32
  {
    OneKeyHeld(m, key);
    StepSizeZeroIff(key);
    RunPhase(p0, StepSize(key), n);
  }
}
