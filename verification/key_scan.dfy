/** One scan of the 3 x 4 key matrix (`readCols`) as a pure function of the
    twelve column levels it reads. A level is the raw electrical reading:
    `true` (high) means released, `false` (low) means pressed. The scan
    produces the 32-bit bitset of raw levels, the note string listing every
    pressed key, and the step size handed to the oscillator. */
module KeyScan {
  import opened Words
  import opened Tuning

  /** Rows selected in turn by `readCols`. */
  const NUM_ROWS: nat := 3
  /** Column inputs C0..C3 read per row. */
  const NUM_COLUMNS: nat := 4
  /** Width of the returned bitset. */
  const NUM_BITS: nat := 32

  /** A reading for every row and every column. */
  predicate IsMatrix(m: seq<seq<bool>>) {
    |m| == NUM_ROWS && forall r | 0 <= r < |m| :: |m[r]| == NUM_COLUMNS
  }

  /** The column levels seen during one scan, indexed `[row][column]`. */
  type Readings = m: seq<seq<bool>> | IsMatrix(m)
    witness [[true, true, true, true], [true, true, true, true], [true, true, true, true]]

  /** The level read for key `k`, which sits at row `k / 4`, column `k % 4`. */
  function Level(m: Readings, k: nat): bool
    requires k < NUM_KEYS
  {
    m[k / NUM_COLUMNS][k % NUM_COLUMNS]
  }

  /** Key `k` is pressed when its column reads low. */
  predicate Pressed(m: Readings, k: nat)
    requires k < NUM_KEYS
  {
    !Level(m, k)
  }

  /** The state `readCols` builds up: the bitset, the note string and the
      shared step size. */
  datatype Scan = Scan(bits: seq<bool>, noteString: string, stepSize: U32)

  /** The state at the start of a scan: an all-zero bitset, an empty note
      string and a zero step size. */
  function Start(): (s: Scan)
    ensures |s.bits| == NUM_BITS && forall k | 0 <= k < NUM_BITS :: !s.bits[k]
    ensures s.noteString == "" && s.stepSize == 0
  {
    Scan(seq(NUM_BITS, _ => false), "", 0)
  }

  /** One column statement of `readCols` for key `k`: record the level in the
      bitset, and if it is low append the key's name and a space to the note
      string and overwrite the step size with `step_size(k)`. The scan is
      written for any table of twelve names; `readCols` uses `NAMES`. */
  function ScanKey(names: seq<string>, s: Scan, k: nat, level: bool): (r: Scan)
    requires |names| == NUM_KEYS && k < NUM_KEYS && |s.bits| == NUM_BITS
    ensures |r.bits| == NUM_BITS
  {
    var bits := s.bits[k := level];
    if !level then Scan(bits, s.noteString + names[k] + " ", StepSize(k))
    else s.(bits := bits)
  }

  /** The first `c` column statements of the row loop's body for row `i`.
      The four statements differ only in the column index, so they are
      written here as one statement applied to columns 0 to c-1 in turn. */
  function ScanColumns(names: seq<string>, s: Scan, m: Readings, i: nat, c: nat): (r: Scan)
    requires |names| == NUM_KEYS && i < NUM_ROWS && c <= NUM_COLUMNS && |s.bits| == NUM_BITS
    ensures |r.bits| == NUM_BITS
  {
    if c == 0 then s
    else ScanKey(names, ScanColumns(names, s, m, i, c - 1), 4 * i + (c - 1), m[i][c - 1])
  }

  /** The body of the row loop for row `i`: columns 0 to 3 in turn. */
  function ScanRow(names: seq<string>, s: Scan, m: Readings, i: nat): (r: Scan)
    requires |names| == NUM_KEYS && i < NUM_ROWS && |s.bits| == NUM_BITS
    ensures |r.bits| == NUM_BITS
  {
    ScanColumns(names, s, m, i, NUM_COLUMNS)
  }

  /** The row loop after its first `n` rows. */
  function ScanRows(names: seq<string>, m: Readings, n: nat): (r: Scan)
    requires |names| == NUM_KEYS && n <= NUM_ROWS
    ensures |r.bits| == NUM_BITS
  {
    if n == 0 then Start() else ScanRow(names, ScanRows(names, m, n - 1), m, n - 1)
  }

  // ---------------------------------------------------------------------
  // Reference description of a scan, key by key

  /** The pressed keys among 0..n-1, in ascending order. */
  function PressedBelow(m: Readings, n: nat): (ks: seq<nat>)
    requires n <= NUM_KEYS
    ensures forall i | 0 <= i < |ks| :: ks[i] < n
  {
    if n == 0 then []
    else PressedBelow(m, n - 1) + (if Pressed(m, n - 1) then [n - 1] else [])
  }

  /** All pressed keys, in ascending (scan) order. */
  function PressedKeys(m: Readings): (ks: seq<nat>)
    ensures forall i | 0 <= i < |ks| :: ks[i] < NUM_KEYS
  {
    PressedBelow(m, NUM_KEYS)
  }

  /** The display label of a list of keys: each key's name followed by a
      space. */
  function Labels(names: seq<string>, ks: seq<nat>): string
    requires |names| == NUM_KEYS && forall i | 0 <= i < |ks| :: ks[i] < NUM_KEYS
  {
    if |ks| == 0 then ""
    else Labels(names, ks[..|ks| - 1]) + names[ks[|ks| - 1]] + " "
  }

  /** The step size last-writer-wins leaves: that of the last key in the
      list, or 0 for an empty list. */
  function LastStep(ks: seq<nat>): U32
    requires forall i | 0 <= i < |ks| :: ks[i] < NUM_KEYS
  {
    if |ks| == 0 then 0 else StepSize(ks[|ks| - 1])
  }

  /** `readCols`: select each of the three rows in turn and read its four
      columns. Bit `4r + c` of the bitset is the raw level of column `c` in
      row `r`, the upper 20 bits stay clear, the note string lists the names
      of the pressed keys in scan order, and the step size is that of the
      last pressed key (0 when none is pressed). */
  function ReadCols(m: Readings): (r: Scan)
    ensures |r.bits| == NUM_BITS
    ensures forall row, col | 0 <= row < NUM_ROWS && 0 <= col < NUM_COLUMNS ::
      r.bits[4 * row + col] == m[row][col]
    ensures forall k | NUM_KEYS <= k < NUM_BITS :: !r.bits[k]
    ensures r.noteString == Labels(NAMES, PressedKeys(m))
    ensures r.stepSize == LastStep(PressedKeys(m))
  {
    ScanRowsInvariant(NAMES, m, NUM_ROWS);
    BitsByPosition(NAMES, m);
    ScanNoteInvariant(NAMES, m, NUM_KEYS);
    ScanStepInvariant(NAMES, m, NUM_KEYS);
    ScanRows(NAMES, m, NUM_ROWS)
  }

  // ---------------------------------------------------------------------
  // Proof that the row loop computes the reference description

  /** The same scan written as one loop over the keys 0..n-1. */
  function ScanByKey(names: seq<string>, m: Readings, n: nat): (r: Scan)
    requires |names| == NUM_KEYS && n <= NUM_KEYS
    ensures |r.bits| == NUM_BITS
  {
    if n == 0 then Start()
    else ScanKey(names, ScanByKey(names, m, n - 1), n - 1, Level(m, n - 1))
  }

  /** The key loop after `n` keys: bits below `n` hold the levels read and
      the rest are clear. */
  lemma {:induction false} ScanBitsInvariant(names: seq<string>, m: Readings, n: nat)
    requires |names| == NUM_KEYS && n <= NUM_KEYS
    ensures forall k | 0 <= k < n :: ScanByKey(names, m, n).bits[k] == Level(m, k)
    ensures forall k | n <= k < NUM_BITS :: !ScanByKey(names, m, n).bits[k]
  {
    if n > 0 {
      ScanBitsInvariant(names, m, n - 1);
      var prev := ScanByKey(names, m, n - 1);
      assert ScanByKey(names, m, n).bits == prev.bits[n - 1 := Level(m, n - 1)];
    }
  }

  /** Appending one key to a list appends its label. */
  lemma LabelsSnoc(names: seq<string>, ks: seq<nat>, k: nat)
    requires |names| == NUM_KEYS && forall i | 0 <= i < |ks| :: ks[i] < NUM_KEYS
    requires k < NUM_KEYS
    ensures Labels(names, ks + [k]) == Labels(names, ks) + names[k] + " "
  {
    assert (ks + [k])[..|ks|] == ks;
  }

  /** The key loop after `n` keys: the note string labels the pressed keys
      so far. */
  lemma {:induction false} ScanNoteInvariant(names: seq<string>, m: Readings, n: nat)
    requires |names| == NUM_KEYS && n <= NUM_KEYS
    ensures ScanByKey(names, m, n).noteString == Labels(names, PressedBelow(m, n))
  {
    if n > 0 {
      ScanNoteInvariant(names, m, n - 1);
      var ks := PressedBelow(m, n - 1);
      var prev := ScanByKey(names, m, n - 1);
      if Pressed(m, n - 1) {
        assert PressedBelow(m, n) == ks + [n - 1];
        assert ScanByKey(names, m, n).noteString == prev.noteString + names[n - 1] + " ";
        LabelsSnoc(names, ks, n - 1);
      } else {
        assert PressedBelow(m, n) == ks;
        assert ScanByKey(names, m, n).noteString == prev.noteString;
      }
    }
  }

  /** The key loop after `n` keys: the step size is that of the last pressed
      key so far, or 0. */
  lemma {:induction false} ScanStepInvariant(names: seq<string>, m: Readings, n: nat)
    requires |names| == NUM_KEYS && n <= NUM_KEYS
    ensures ScanByKey(names, m, n).stepSize == LastStep(PressedBelow(m, n))
  {
    if n > 0 {
      ScanStepInvariant(names, m, n - 1);
      var ks := PressedBelow(m, n - 1);
      var prev := ScanByKey(names, m, n - 1);
      if Pressed(m, n - 1) {
        assert PressedBelow(m, n) == ks + [n - 1];
        assert ScanByKey(names, m, n).stepSize == StepSize(n - 1);
      } else {
        assert PressedBelow(m, n) == ks;
        assert ScanByKey(names, m, n).stepSize == prev.stepSize;
      }
    }
  }

  /** Key `4 * row + col` sits at row `row`, column `col`. */
  lemma KeyPosition(row: nat, col: nat)
    requires row < NUM_ROWS && col < NUM_COLUMNS
    ensures (4 * row + col) / NUM_COLUMNS == row && (4 * row + col) % NUM_COLUMNS == col
  {
  }

  /** The first `c` columns of row `i` are the keys `4i` to `4i + c - 1` of
      the key loop. */
  lemma {:induction false} ScanColumnsStep(names: seq<string>, m: Readings, i: nat, c: nat)
    requires |names| == NUM_KEYS && i < NUM_ROWS && c <= NUM_COLUMNS
    ensures ScanColumns(names, ScanByKey(names, m, 4 * i), m, i, c)
      == ScanByKey(names, m, 4 * i + c)
  {
    if c > 0 {
      ScanColumnsStep(names, m, i, c - 1);
      var k := 4 * i + (c - 1);
      KeyPosition(i, c - 1);
      assert Level(m, k) == m[i][c - 1];
      assert k + 1 == 4 * i + c;
    }
  }

  /** After `n` rows of the row loop, the first `4n` keys are scanned. */
  lemma {:induction false} ScanRowsInvariant(names: seq<string>, m: Readings, n: nat)
    requires |names| == NUM_KEYS && n <= NUM_ROWS
    ensures ScanRows(names, m, n) == ScanByKey(names, m, 4 * n)
  {
    if n > 0 {
      var i := n - 1;
      ScanRowsInvariant(names, m, i);
      ScanColumnsStep(names, m, i, NUM_COLUMNS);
      assert 4 * n == 4 * i + 4;
    }
  }

  /** Once all twelve keys are scanned, bit `4 * row + col` is the level read
      at that row and column, and the bits above the keys are clear. */
  lemma BitsByPosition(names: seq<string>, m: Readings)
    requires |names| == NUM_KEYS
    ensures forall row, col | 0 <= row < NUM_ROWS && 0 <= col < NUM_COLUMNS ::
      ScanByKey(names, m, NUM_KEYS).bits[4 * row + col] == m[row][col]
    ensures forall k | NUM_KEYS <= k < NUM_BITS :: !ScanByKey(names, m, NUM_KEYS).bits[k]
  {
    ScanBitsInvariant(names, m, NUM_KEYS);
    forall row, col | 0 <= row < NUM_ROWS && 0 <= col < NUM_COLUMNS
      ensures ScanByKey(names, m, NUM_KEYS).bits[4 * row + col] == m[row][col]
    {
      KeyPosition(row, col);
    }
  }
}
