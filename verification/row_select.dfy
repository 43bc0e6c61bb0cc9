/** The address lines RA2..RA0 of the key-matrix row decoder, as driven by
    `setRow` (row selection) and `setOutMuxBit` (output multiplexer). A
    level is `true` for HIGH and `false` for LOW. */
module RowSelect {
  import opened Words

  /** The levels written to RA2, RA1 and RA0. */
  datatype Address = Address(ra2: bool, ra1: bool, ra0: bool)

  /** The number the three lines encode, RA2 being the most significant. */
  function AddressValue(a: Address): (v: nat)
    ensures v < 8
  {
    (if a.ra2 then 4 else 0) + (if a.ra1 then 2 else 0) + (if a.ra0 then 1 else 0)
  }

  /** `setRow`: one case per row index 0..7, and a default case for every
      other index that drives (LOW, LOW, HIGH). */
  function SetRow(rowIdx: U8): (a: Address)
    ensures rowIdx < 8 ==> a.ra2 == (rowIdx >= 4)
    ensures rowIdx < 8 ==> a.ra1 == (rowIdx % 4 >= 2)
    ensures rowIdx < 8 ==> a.ra0 == (rowIdx % 2 == 1)
    ensures rowIdx >= 8 ==> a == Address(false, false, true)
  {
    match rowIdx
    case 0 => Address(false, false, false)
    case 1 => Address(false, false, true)
    case 2 => Address(false, true, false)
    case 3 => Address(false, true, true)
    case 4 => Address(true, false, false)
    case 5 => Address(true, false, true)
    case 6 => Address(true, true, false)
    case 7 => Address(true, true, true)
    case _ => Address(false, false, true)
  }

  /** Rows 0..7 are selected by their own binary address; every other index
      falls back to the address of row 1. */
  lemma SetRowSelects(rowIdx: U8)
    ensures rowIdx < 8 ==> AddressValue(SetRow(rowIdx)) == rowIdx
    ensures rowIdx >= 8 ==> AddressValue(SetRow(rowIdx)) == 1
  {
  }

  /** Distinct rows below 8 get distinct addresses. */
  lemma SetRowInjective(i: U8, j: U8)
    requires i < 8 && j < 8 && i != j
    ensures SetRow(i) != SetRow(j)
  {
    SetRowSelects(i);
    SetRowSelects(j);
  }

  /** The three rows `readCols` scans get the addresses 0, 1 and 2. */
  lemma ScannedRowsAddressed()
    ensures AddressValue(SetRow(0)) == 0 && AddressValue(SetRow(1)) == 1
    ensures AddressValue(SetRow(2)) == 2
  {
  }

  /** What one `setOutMuxBit` call latches: the address and the output
      level. */
  datatype MuxWrite = MuxWrite(address: Address, out: bool)

  /** `x & mask` on a uint8_t, as a truth value: the level `digitalWrite`
      drives, HIGH for any non-zero argument. */
  function MaskBit(x: U8, mask: bv8): bool {
    (x as bv8) & mask != 0
  }

  /** `setOutMuxBit`: each address line is the matching bit of `bitIdx`, and
      the output line carries `value`. */
  function SetOutMuxBit(bitIdx: U8, value: bool): (w: MuxWrite)
    ensures w.address.ra0 == (bitIdx % 2 == 1)
    ensures w.address.ra1 == ((bitIdx / 2) % 2 == 1)
    ensures w.address.ra2 == ((bitIdx / 4) % 2 == 1)
    ensures w.out == value
  {
    LowBits(bitIdx);
    MuxWrite(Address(MaskBit(bitIdx, 0x04), MaskBit(bitIdx, 0x02), MaskBit(bitIdx, 0x01)), value)
  }

  /** The masks 1, 2 and 4 pick out bits 0, 1 and 2 of the index. */
  lemma LowBits(x: U8)
    ensures MaskBit(x, 0x01) == (x % 2 == 1)
    ensures MaskBit(x, 0x02) == ((x / 2) % 2 == 1)
    ensures MaskBit(x, 0x04) == ((x / 4) % 2 == 1)
  {
    var b := x as bv8;
    assert b & 0x01 == b % 2;
    assert b & 0x02 == (b / 2 % 2) * 2;
    assert b & 0x04 == (b / 4 % 2) * 4;
  }

  /** Only the low three bits of the index reach the address lines. */
  lemma MuxAddressIsLowBits(bitIdx: U8, value: bool)
    ensures AddressValue(SetOutMuxBit(bitIdx, value).address) == bitIdx % 8
  {
    var q := bitIdx / 8;
    assert bitIdx == 8 * q + 4 * ((bitIdx / 4) % 2) + 2 * ((bitIdx / 2) % 2) + bitIdx % 2;
  }

  /** The two routines agree on indices 0..7. Above that they part: the
      multiplexer wraps the index modulo 8 while `setRow` falls back to row 1,
      so they agree only when the index is 1 modulo 8. */
  lemma MuxAgreesWithSetRow(bitIdx: U8, value: bool)
    ensures bitIdx < 8 ==> SetOutMuxBit(bitIdx, value).address == SetRow(bitIdx)
    ensures bitIdx >= 8 ==>
      (SetOutMuxBit(bitIdx, value).address == SetRow(bitIdx) <==> bitIdx % 8 == 1)
  {
    MuxAddressIsLowBits(bitIdx, value);
    SetRowSelects(bitIdx);
    var a := SetOutMuxBit(bitIdx, value).address;
    var b := SetRow(bitIdx);
    AddressValueInjective(a, b);
  }

  /** An address is determined by the number it encodes. */
  lemma AddressValueInjective(a: Address, b: Address)
    ensures AddressValue(a) == AddressValue(b) <==> a == b
  {
  }
}
