# Keyboard synthesiser core in Dafny

A model of the integer logic of `src/main.cpp`, the firmware of a small
keyboard synthesiser. The board scans a 3 x 4 key matrix, shows the names of
the held notes, and plays a sawtooth by direct digital synthesis: a 32-bit
phase accumulator gains a per-note increment (the "step size") on every
sample interrupt, and the top byte of the accumulator is written to the
audio output.

The modules follow the parts of the program:

- `Words` (`words.dfy`): the uint32_t, int32_t and uint8_t arithmetic the
  code relies on. Wrap-around, the unsigned subtraction and the
  unsigned-to-signed conversion are written out explicitly.
- `Tuning` (`tuning.dfy`): `step_size`, `construct_step_sizes`, the
  `stepSizes` table and the `names` table.
- `Oscillator` (`oscillator.dfy`): `sampleISR` as a pure tick function from
  (phase, step) to (new phase, sample), and runs of consecutive ticks.
- `RowSelect` (`row_select.dfy`): the address lines RA2..RA0 driven by
  `setRow` and `setOutMuxBit`.
- `KeyScan` (`key_scan.dfy`): `readCols` as a pure function of the twelve
  column levels it reads. It returns the bitset, the note string and the
  step size left in `currentStepSize`.
- `ScanFacts` (`scan_facts.dfy`): what a scan reports, stated against the
  set of held keys.
- `System` (`system.dfy`): the scan and the oscillator together.

## How the code behaves, and where it departs from its own comments

The model follows the code as written. The following points differ from
what the code's comments, names and constants suggest: the commented-out
line at src/main.cpp:27 (a frequency per key index), the comment at lines
186-188 (four column bits), and the `names` table beside `index_a`.

- **The step-size table is constant.** `construct_step_sizes` ignores its
  index and always uses 440 Hz. All twelve entries of `stepSizes` therefore
  equal `step_size(440)` = floor(2^32 / 50) = 85 899 345.
  See `Tuning.StepSizes` and `Tuning.StepSizesConstant`.
- **The step size never comes from the table.** The only use of
  `stepSizes` in `readCols` is the printing loop at lines 191-193. For a
  held key `k`, `readCols` assigns `step_size(k)`, passing the key index 0..11 as a frequency in
  hertz. The resulting increment is always below every table entry
  (`System.ScanStepBelowTable`). Holding A plays the increment for 9 Hz
  (`System.IncrementOutsideTable`). Holding C alone gives frequency 0 and
  so a zero step, the same as holding nothing (`ScanFacts.ScanStepZeroIff`).
- **`index_a` is 10, but `names[10]` is "A#".** The reference note A sits
  at index 9 (`Tuning.NamesAreLabels`). No modelled code reads `index_a`.
- **The bitset holds raw levels, not presses.** `result[4 * i + c]` is set
  to the value `digitalRead` returns (lines 199-205), so a set bit is a
  released key. With nothing held, bits 0..11 are all set, i.e. 0xFFF
  (`ScanFacts.NoKeyAllBitsSet`), and a held key clears its bit
  (`ScanFacts.BitsByKey`). One set bit per pressed switch, and an all-clear
  bitset when nothing is held, is not what the code produces.
- **The note string lists every held key.** Each pressed key appends its
  name and a space (lines 200-206), so holding A alone gives "A ", not "A"
  (`System.IncrementOutsideTable`), and holding D and A gives "D A "
  (`ScanFacts.TwoKeysHeld`). The string is not a single label for the key
  that decides the step size.
- **Twelve levels, not four bits.** The comment at lines 186-188 speaks of
  returning the four column bits; the function returns all twelve levels of
  the three rows in a 32-bit bitset whose bits 12..31 stay clear
  (`KeyScan.ReadCols`).
- **The sample path is the top byte.** `(phaseAcc >> 24) - 128` is an
  unsigned subtraction that wraps. Storing it in an `int32_t` and adding
  128 back gives exactly `phaseAcc >> 24` (`Oscillator.SampleIsr`).

Three modelling choices need stating:

- **`step_size`.** `step_size` computes `pow(2, 32) * f / sample_rate` in
  double precision and truncates it to a `long`. The model uses the exact
  integer floor of 2^32 · f / 22000 instead. For integer `f`, the quotient
  is 2^28 · f / 1375. The product `pow(2, 32) * f` is exact in double
  precision, so only the division rounds, to the nearest double. Truncation
  could go wrong only if that rounding lifted the quotient onto the next
  integer up (rounding down onto the integer below still truncates to it).
  When the quotient is not an integer its fractional part is j/1375 with
  1 <= j <= 1374, so it lies at least 1/1375 from every integer. For
  `f < 11000` the quotient is below 2^31, where half a double unit in the
  last place is at most 2^-23, far less than 1/1375. The rounded quotient
  therefore stays strictly between the same two integers, and the
  truncation gives the exact floor.
- **`FREQ_LIMIT`.** On the 32-bit target `long` holds values below 2^31.
  The conversion is undefined from `f = 11000` up, so `StepSize` requires
  `f < 11000`. All modelled callers pass 0..11 or 440.
- **`digitalWrite`.** It drives HIGH for any non-zero level argument. The
  masked values `bitIdx & 0x02` and `bitIdx & 0x04` are therefore HIGH
  exactly when the bit is set.

## Model

| member | source | states |
|---|---|---|
| Words.AddU32 | src/main.cpp:113 | `+=` on uint32_t: the sum is exact below 2^32 and loses exactly 2^32 once at or above it |
| Words.SubU32 | src/main.cpp:114 | unsigned `-`: exact when no borrow, otherwise wraps up by 2^32 |
| Words.ToI32 | src/main.cpp:114 | storing a uint32_t into int32_t agrees with it modulo 2^32 and is non-negative exactly below 2^31 |
| Words.Shr24 | src/main.cpp:114 | `>> 24` gives the byte `b` with `b * 2^24 <= x < (b + 1) * 2^24` |
| Tuning.StepSize | src/main.cpp:20-23 | the increment is the floor of 2^32 · f / 22000 and fits a signed 32-bit long, for every f below 11000 |
| Tuning.StepSizeZeroIff | src/main.cpp:20-23 | the increment is 0 exactly at frequency 0 |
| Tuning.StepSizeStrictlyIncreasing | src/main.cpp:20-23 | a higher frequency always gets a strictly larger increment |
| Tuning.ConstructStepSizes | src/main.cpp:25-32 | whatever the index, the entry is the floor of 2^32 · 440 / 22000, i.e. of 2^32 / 50 |
| Tuning.StepSizes | src/main.cpp:36-49 | the table has twelve entries, each 85 899 345 |
| Tuning.StepSizesConstant | src/main.cpp:25-49 | all entries are equal and equal `step_size(440)`, so the table does not rise with the index |
| Tuning.NamesAreLabels | src/main.cpp:51-65 | twelve non-empty names without spaces; "A" is at index 9 and index_a (10) names "A#" |
| Oscillator.SampleIsr | src/main.cpp:111-116 | one interrupt adds the step with one wrap past 2^32, and the written value is the top byte of the new phase, in 0..255 |
| Oscillator.RunTicks | src/main.cpp:111-116 | `n` interrupts emit exactly `n` samples |
| Oscillator.TickAddsModulo | src/main.cpp:113 | one interrupt sets the phase to (phase + step) mod 2^32 |
| Oscillator.RunPhase | src/main.cpp:112-113 | after `n` interrupts with step `k` the phase is (p0 + n · k) mod 2^32 |
| Oscillator.RunFromStart | src/main.cpp:112-113 | from the initial value 0, after `n` interrupts with step `k` the phase is n · k mod 2^32 |
| Oscillator.RunSamples | src/main.cpp:113-115 | the i-th sample of a run is the top byte of (p0 + (i + 1) · k) mod 2^32 |
| Oscillator.SilenceWithZeroStep | src/main.cpp:113-115 | with step 0 the phase never moves and every sample is the same |
| Oscillator.WrapSkipsNothing | src/main.cpp:113 | from 2^32 - 1 the phase lands on step - 1, so step 1 passes through 0 |
| RowSelect.AddressValue | src/main.cpp:166-178 | three address lines encode a number in 0..7 |
| RowSelect.SetRow | src/main.cpp:162-183 | for indices 0..7 the lines are the binary digits of the index; every other index gives (LOW, LOW, HIGH) |
| RowSelect.SetRowSelects | src/main.cpp:166-178 | the address is the row index below 8, and 1 from 8 up |
| RowSelect.SetRowInjective | src/main.cpp:168-175 | distinct rows below 8 get distinct addresses |
| RowSelect.ScannedRowsAddressed | src/main.cpp:196-198 | the rows `readCols` scans get addresses 0, 1 and 2 |
| RowSelect.LowBits | src/main.cpp:101-103 | the masks 1, 2, 4 test bits 0, 1, 2 of the index |
| RowSelect.SetOutMuxBit | src/main.cpp:99-108 | RA0, RA1, RA2 carry bits 0, 1, 2 of `bitIdx` and the output line carries `value` |
| RowSelect.MuxAddressIsLowBits | src/main.cpp:101-103 | the latched address is `bitIdx` mod 8 |
| RowSelect.MuxAgreesWithSetRow | src/main.cpp:101-103 | the two decoders agree below 8; from 8 up they agree exactly when the index is 1 mod 8 |
| KeyScan.Start | src/main.cpp:189-195 | a scan starts from an all-zero 32-bit bitset, an empty note string and a zero step |
| KeyScan.ScanKey | src/main.cpp:199-200 | one column statement keeps the bitset 32 bits wide |
| KeyScan.ScanColumns | src/main.cpp:199-206 | the column statements of one row keep the bitset 32 bits wide; what they compute is stated by KeyScan.ScanColumnsStep |
| KeyScan.ScanRow | src/main.cpp:198-206 | the body of the row loop keeps the bitset 32 bits wide |
| KeyScan.ScanRows | src/main.cpp:196-208 | the row loop keeps the bitset 32 bits wide; what it computes is stated by KeyScan.ScanRowsInvariant |
| KeyScan.PressedBelow | src/main.cpp:199-206 | the reference list of keys a partial scan acts on names only keys below `n` |
| KeyScan.ReadCols | src/main.cpp:185-211 | bit 4r + c is the raw level of column c in row r, bits 12..31 are clear, the note string labels the pressed keys in ascending order, and the step is that of the last pressed key or 0 |
| KeyScan.ScanBitsInvariant | src/main.cpp:199-206 | after `n` keys, bits below `n` hold the levels read and the rest are clear |
| KeyScan.ScanNoteInvariant | src/main.cpp:199-206 | after `n` keys the note string labels the pressed keys below `n` |
| KeyScan.ScanStepInvariant | src/main.cpp:199-206 | after `n` keys the step is that of the last pressed key below `n`, or 0 |
| KeyScan.ScanColumnsStep | src/main.cpp:199-206 | the four column statements of row i scan keys 4i..4i+3 in order |
| KeyScan.ScanRowsInvariant | src/main.cpp:196-208 | after `n` rows the first 4n keys are scanned |
| KeyScan.BitsByPosition | src/main.cpp:199-205 | after all rows, bit 4r + c is the level at row r, column c, and bits 12..31 are clear |
| ScanFacts.PressedBelowExact | src/main.cpp:199-206 | the keys a partial scan acts on are ascending and are exactly the pressed keys below `n` |
| ScanFacts.PressedKeysExact | src/main.cpp:196-206 | the keys a scan acts on are every pressed key once, in ascending order |
| ScanFacts.StepSizeOfHighestKey | src/main.cpp:196-206 | the final step is `step_size(k)` for the highest pressed key `k` |
| ScanFacts.NoKeyNoNote | src/main.cpp:190-206 | with no key pressed the note string is empty and the step is 0 |
| ScanFacts.ScanStepZeroIff | src/main.cpp:195-206 | the step is 0 exactly when none of keys 1..11 is pressed, so C alone also gives 0 |
| ScanFacts.LabelsSpaces | src/main.cpp:200-206 | with space-free names, a label string has one space per listed key |
| ScanFacts.NoteStringCountsKeys | src/main.cpp:190-206 | the note string has one space per pressed key |
| ScanFacts.LabelsEmptyIff | src/main.cpp:200-206 | a label string is empty exactly when no key is listed |
| ScanFacts.NoteStringEmptyIff | src/main.cpp:190-206 | the note string is empty exactly when no key is pressed |
| ScanFacts.OneKeyHeld | src/main.cpp:199-206 | one held key shows its name and a space and plays `step_size` of its index |
| ScanFacts.TwoKeysHeld | src/main.cpp:199-206 | two held keys are listed lower first, and the higher one sets the step |
| ScanFacts.Decode | src/main.cpp:199-205 | bits 4r..4r+3 of a bitset are read back as row r |
| ScanFacts.BitsRoundTrip | src/main.cpp:199-205 | decoding the bitset gives back the readings, so the bitset loses nothing |
| ScanFacts.NoKeyAllBitsSet | src/main.cpp:199-205 | with no key held bits 0..11 are all set and bits 12..31 clear: the bitset holds raw levels |
| ScanFacts.BitsByKey | src/main.cpp:199-206 | bit k is the level of key k, and is clear exactly when key k is pressed |
| System.ScanStepBelowTable | src/main.cpp:36-49 | the step a scan leaves is below every entry of the step-size table |
| System.IncrementOutsideTable | src/main.cpp:201-202 | A held alone shows "A " and plays `step_size(9)`, which is not the table's entry 9 |
| System.NoKeySilence | src/main.cpp:111-116 | with no key held, the oscillator's phase stays put and every sample is the same |
| System.OneKeyAdvances | src/main.cpp:111-116 | holding one of keys 1..11 gives a non-zero step, and after `n` ticks the phase is (p0 + n · step_size(key)) mod 2^32 |

## Left out

- GPIO and timing (`digitalWrite`, `digitalRead`, `pinMode`, `delayMicroseconds`, `millis`, the wait in `loop`) are hardware I/O. Column levels are an input matrix, one reading per row, taken while that row is selected. Address lines are returned values. The enable line REN is not modelled.
- `readCols` reads each column twice, once for the bitset and once for the press test. The model assumes one stable level per column per scan.
- `readCols` returns only the bitset and leaves the note string and step in globals. The model returns all three in one `Scan` value.
- The U8g2 display, all drawing in `loop`, `Serial` setup and the per-scan printing of the table are foreign library calls with no logic.
- The `HardwareTimer` setup, the interrupt attachment and the `volatile` sharing of `currentStepSize` are concurrency. Intermediate step values visible mid-scan are not modelled. The interrupt is a sequential tick function, and its static accumulator is an explicit state argument starting at `Oscillator.INITIAL_PHASE` (`Oscillator.RunFromStart`).
- `Tuning.StepSize`: floating-point `pow` and the double division are replaced by the exact integer floor. The reason is given above. Frequencies from 11000 Hz up, where the `long` conversion is undefined, are excluded by the precondition.
- `note_spacing`, the joystick and the remaining pin constants are unused configuration. `note_spacing` is `pow(2, 0)` because `1/12` is an integer division.
- The display of the bitset through `to_ulong` belongs to the drawing code.
