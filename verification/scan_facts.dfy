/** What one key-matrix scan reports, stated against the keys that are held
    down: which keys the note string lists, which key decides the step size,
    and how the bitset gives back the readings. */
module ScanFacts {
  import opened Words
  import opened Tuning
  import opened KeyScan

  /** Strictly ascending, hence without repeats. */
  predicate Ascending(ks: seq<nat>) {
    forall i, j | 0 <= i < j < |ks| :: ks[i] < ks[j]
  }

  // ---------------------------------------------------------------------
  // The pressed keys

  /** The pressed keys below `n` are listed once each, in ascending order,
      and a key below `n` is listed exactly when it is pressed. */
  lemma {:induction false} PressedBelowExact(m: Readings, n: nat)
    requires n <= NUM_KEYS
    ensures Ascending(PressedBelow(m, n))
    ensures forall k | 0 <= k < n :: Pressed(m, k) <==> k in PressedBelow(m, n)
  {
    if n > 0 {
      PressedBelowExact(m, n - 1);
      var ks := PressedBelow(m, n - 1);
      if Pressed(m, n - 1) {
        assert PressedBelow(m, n) == ks + [n - 1];
      } else {
        assert PressedBelow(m, n) == ks;
      }
    }
  }

  /** The list `readCols` works through: every pressed key once, in
      ascending order, and nothing else. */
  lemma PressedKeysExact(m: Readings)
    ensures Ascending(PressedKeys(m))
    ensures forall k | 0 <= k < NUM_KEYS :: Pressed(m, k) <==> k in PressedKeys(m)
  {
    PressedBelowExact(m, NUM_KEYS);
  }

  // ---------------------------------------------------------------------
  // The step size

  /** The step size is the increment of the highest pressed key: keys scanned
      later overwrite earlier ones. */
  lemma StepSizeOfHighestKey(m: Readings, k: nat)
    requires k < NUM_KEYS && Pressed(m, k)
    requires forall j | k < j < NUM_KEYS :: !Pressed(m, j)
    ensures ReadCols(m).stepSize == StepSize(k)
  {
    PressedKeysExact(m);
    var ks := PressedKeys(m);
    assert k in ks;
    var last := ks[|ks| - 1];
    assert Pressed(m, last);
  }

  /** With no key held the note string is empty and the step size is 0. */
  lemma NoKeyNoNote(m: Readings)
    requires forall k | 0 <= k < NUM_KEYS :: !Pressed(m, k)
    ensures ReadCols(m).noteString == ""
    ensures ReadCols(m).stepSize == 0
  {
    NoteStringEmptyIff(m);
    ScanStepZeroIff(m);
  }

  /** The oscillator is silenced exactly when none of the keys 1..11 is held.
      Key 0 (C) passes frequency 0 and so also yields a zero step. */
  lemma ScanStepZeroIff(m: Readings)
    ensures ReadCols(m).stepSize == 0 <==> forall k | 1 <= k < NUM_KEYS :: !Pressed(m, k)
  {
    PressedKeysExact(m);
    var ks := PressedKeys(m);
    if |ks| > 0 {
      var last := ks[|ks| - 1];
      assert ks[|ks| - 1] in ks;
      StepSizeZeroIff(last);
      if exists k | 1 <= k < NUM_KEYS :: Pressed(m, k) {
        var k :| 1 <= k < NUM_KEYS && Pressed(m, k);
        assert k in ks;
        var i :| 0 <= i < |ks| && ks[i] == k;
        assert i == |ks| - 1 || ks[i] < ks[|ks| - 1];
        assert last >= 1;
      } else {
        assert last == 0;
      }
    }
  }

  // ---------------------------------------------------------------------
  // The note string

  /** Number of space characters in `s`. */
  function CountSpaces(s: string): nat {
    if |s| == 0 then 0
    else CountSpaces(s[..|s| - 1]) + (if s[|s| - 1] == ' ' then 1 else 0)
  }

  /** Spaces in a concatenation add up. */
  lemma {:induction false} CountSpacesAppend(a: string, b: string)
    ensures CountSpaces(a + b) == CountSpaces(a) + CountSpaces(b)
    decreases |b|
  {
    if |b| > 0 {
      var b' := b[..|b| - 1];
      assert (a + b)[..|a + b| - 1] == a + b';
      assert (a + b)[|a + b| - 1] == b[|b| - 1];
      CountSpacesAppend(a, b');
      assert CountSpaces(b) == CountSpaces(b') + (if b[|b| - 1] == ' ' then 1 else 0);
    } else {
      assert a + b == a;
    }
  }

  /** A name without spaces has none to count. */
  lemma {:induction false} NoSpaces(s: string)
    requires ' ' !in s
    ensures CountSpaces(s) == 0
    decreases |s|
  {
    if |s| > 0 {
      assert forall i | 0 <= i < |s| - 1 :: s[..|s| - 1][i] == s[i];
      NoSpaces(s[..|s| - 1]);
    }
  }

  /** When no name holds a space, the label of a key list has one space per
      key: the space is a faithful separator. */
  lemma {:induction false} LabelsSpaces(names: seq<string>, ks: seq<nat>)
    requires |names| == NUM_KEYS && forall i | 0 <= i < |ks| :: ks[i] < NUM_KEYS
    requires forall k | 0 <= k < NUM_KEYS :: ' ' !in names[k]
    ensures CountSpaces(Labels(names, ks)) == |ks|
    decreases |ks|
  {
    if |ks| > 0 {
      var front := ks[..|ks| - 1];
      var name := names[ks[|ks| - 1]];
      LabelsSpaces(names, front);
      NoSpaces(name);
      CountSpacesAppend(Labels(names, front), name);
      CountSpacesAppend(Labels(names, front) + name, " ");
      assert CountSpaces(" ") == 1;
    }
  }

  /** The note string has one space per pressed key. */
  lemma NoteStringCountsKeys(m: Readings)
    ensures CountSpaces(ReadCols(m).noteString) == |PressedKeys(m)|
  {
    NamesAreLabels();
    LabelsSpaces(NAMES, PressedKeys(m));
  }

  /** The label of a non-empty key list ends in a space, so it is never
      empty. */
  lemma LabelsEmptyIff(names: seq<string>, ks: seq<nat>)
    requires |names| == NUM_KEYS && forall i | 0 <= i < |ks| :: ks[i] < NUM_KEYS
    ensures Labels(names, ks) == "" <==> |ks| == 0
  {
    if |ks| > 0 {
      var s := Labels(names, ks);
      assert s[|s| - 1] == ' ';
    }
  }

  /** The note string is empty exactly when no key is held. */
  lemma NoteStringEmptyIff(m: Readings)
    ensures ReadCols(m).noteString == "" <==> forall k | 0 <= k < NUM_KEYS :: !Pressed(m, k)
  {
    PressedKeysExact(m);
    LabelsEmptyIff(NAMES, PressedKeys(m));
    var ks := PressedKeys(m);
    if |ks| > 0 {
      assert ks[0] in ks && Pressed(m, ks[0]);
    }
  }

  /** The pressed keys when exactly keys `a` and `b` are held (`a <= b`; equal
      for a single key). */
  lemma {:induction false} PressedBelowPair(m: Readings, a: nat, b: nat, n: nat)
    requires a <= b < NUM_KEYS && n <= NUM_KEYS
    requires forall k | 0 <= k < NUM_KEYS :: Pressed(m, k) <==> k == a || k == b
    ensures PressedBelow(m, n) ==
      if n <= a then [] else if n <= b || a == b then [a] else [a, b]
  {
    if n > 0 {
      PressedBelowPair(m, a, b, n - 1);
      var prev := PressedBelow(m, n - 1);
      if n - 1 == a || n - 1 == b {
        assert PressedBelow(m, n) == prev + [n - 1];
      } else {
        assert PressedBelow(m, n) == prev + [];
      }
    }
  }

  /** The label of a single key. */
  lemma LabelsOne(names: seq<string>, a: nat)
    requires |names| == NUM_KEYS && a < NUM_KEYS
    ensures Labels(names, [a]) == names[a] + " "
  {
    assert [a] == [] + [a];
    LabelsSnoc(names, [], a);
  }

  /** The label of two keys, in list order. */
  lemma LabelsTwo(names: seq<string>, a: nat, b: nat)
    requires |names| == NUM_KEYS && a < NUM_KEYS && b < NUM_KEYS
    ensures Labels(names, [a, b]) == names[a] + " " + names[b] + " "
  {
    assert [a, b] == [a] + [b];
    LabelsOne(names, a);
    LabelsSnoc(names, [a], b);
  }

  /** Holding one key shows its name followed by a space and plays the
      increment `step_size` gives for the key's index. */
  lemma OneKeyHeld(m: Readings, key: nat)
    requires key < NUM_KEYS
    requires forall k | 0 <= k < NUM_KEYS :: Pressed(m, k) <==> k == key
    ensures ReadCols(m).noteString == NAMES[key] + " "
    ensures ReadCols(m).stepSize == StepSize(key)
  {
    PressedBelowPair(m, key, key, NUM_KEYS);
    LabelsOne(NAMES, key);
  }

  /** Holding two keys lists both names in scan order; the higher key sets
      the step size. */
  lemma TwoKeysHeld(m: Readings, a: nat, b: nat)
    requires a < b < NUM_KEYS
    requires forall k | 0 <= k < NUM_KEYS :: Pressed(m, k) <==> k == a || k == b
    ensures ReadCols(m).noteString == NAMES[a] + " " + NAMES[b] + " "
    ensures ReadCols(m).stepSize == StepSize(b)
  {
    PressedBelowPair(m, a, b, NUM_KEYS);
    LabelsTwo(NAMES, a, b);
  }

  // ---------------------------------------------------------------------
  // The bitset

  /** The readings recovered from a bitset: bits 4r..4r+3 are row r. */
  function Decode(bits: seq<bool>): (m: Readings)
    requires |bits| == NUM_BITS
    ensures forall row, col | 0 <= row < NUM_ROWS && 0 <= col < NUM_COLUMNS ::
      m[row][col] == bits[4 * row + col]
  {
    [bits[0..4], bits[4..8], bits[8..12]]
  }

  /** The bitset loses nothing: decoding it gives back the readings, so two
      scans with the same bitset read the same levels. */
  lemma BitsRoundTrip(m: Readings)
    ensures Decode(ReadCols(m).bits) == m
  {
    var d := Decode(ReadCols(m).bits);
    forall row | 0 <= row < NUM_ROWS
      ensures d[row] == m[row]
    {
      assert forall col | 0 <= col < NUM_COLUMNS :: d[row][col] == m[row][col];
    }
  }

  /** Bit `k` of the bitset is the level of key `k`; a clear bit below 12 is a
      pressed key. */
  lemma BitsByKey(m: Readings)
    ensures forall k | 0 <= k < NUM_KEYS :: ReadCols(m).bits[k] == Level(m, k)
    ensures forall k | 0 <= k < NUM_KEYS :: !ReadCols(m).bits[k] <==> Pressed(m, k)
  {
    forall k | 0 <= k < NUM_KEYS
      ensures ReadCols(m).bits[k] == Level(m, k)
    {
      KeyPosition(k / NUM_COLUMNS, k % NUM_COLUMNS);
      assert k == 4 * (k / NUM_COLUMNS) + k % NUM_COLUMNS;
    }
  }

  /** The bitset holds raw levels, not presses: with no key held, bits 0..11
      are all set, and holding a key clears its bit. */
  lemma NoKeyAllBitsSet(m: Readings)
    requires forall k | 0 <= k < NUM_KEYS :: !Pressed(m, k)
    ensures forall k | 0 <= k < NUM_KEYS :: ReadCols(m).bits[k]
    ensures forall k | NUM_KEYS <= k < NUM_BITS :: !ReadCols(m).bits[k]
  {
    BitsByKey(m);
  }
}
