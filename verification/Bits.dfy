/**
 Modifier masks. A mask is the 8-bit modifier byte of section 8.3 of the USB HID 1.11
 Device Class Definition: bit b stands for the usage 0xE0 + b of the keyboard page.

 A mask is represented by the set of its bit positions, so the byte operations |, & and & ! are
 union, intersection and difference. ByteOf gives the byte; the lemmas below show that the
 representation is exact.
 */
module Bits {

  type Bit = b: nat | b < 8

  type Mask = set<Bit>

  const NONE: Mask := {}
  const ALL_BITS: Mask := {0, 1, 2, 3, 4, 5, 6, 7}

  /** The byte with only bit b set: 1 << b. */
  function ByteWith(b: Bit): (r: bv8) {
    if b == 0 then 0x01 else if b == 1 then 0x02 else if b == 2 then 0x04 else if b == 3 then 0x08
    else if b == 4 then 0x10 else if b == 5 then 0x20 else if b == 6 then 0x40 else 0x80
  }

  function ByteIf(m: Mask, b: Bit): (r: bv8) {
    if b in m then ByteWith(b) else 0
  }

  function ByteOf(m: Mask): (r: bv8) {
    ByteIf(m, 0) | ByteIf(m, 1) | ByteIf(m, 2) | ByteIf(m, 3) | ByteIf(m, 4) | ByteIf(m, 5) | ByteIf(m, 6) | ByteIf(m, 7)
  }

  function MaskOfByte(byte: bv8): (bits: Mask) {
    set b: Bit | b in ALL_BITS && byte & ByteWith(b) != 0
  }

  lemma BitOfOperation(x: bv8, y: bv8, b: Bit)
    ensures (x | y) & ByteWith(b) != 0 <==> x & ByteWith(b) != 0 || y & ByteWith(b) != 0
    ensures (x & y) & ByteWith(b) != 0 <==> x & ByteWith(b) != 0 && y & ByteWith(b) != 0
    ensures (x & !y) & ByteWith(b) != 0 <==> x & ByteWith(b) != 0 && y & ByteWith(b) == 0
  {}

  lemma MaskOfOr(x: bv8, y: bv8, b: Bit)
    ensures b in MaskOfByte(x | y) <==> b in MaskOfByte(x) || b in MaskOfByte(y)
  {
    BitOfOperation(x, y, b);
    BitInMask(x | y, b);
    BitInMask(x, b);
    BitInMask(y, b);
  }

  lemma MaskOfAnd(x: bv8, y: bv8, b: Bit)
    ensures b in MaskOfByte(x & y) <==> b in MaskOfByte(x) && b in MaskOfByte(y)
  {
    BitOfOperation(x, y, b);
    BitInMask(x & y, b);
    BitInMask(x, b);
    BitInMask(y, b);
  }

  lemma MaskOfAndNot(x: bv8, y: bv8, b: Bit)
    ensures b in MaskOfByte(x & !y) <==> b in MaskOfByte(x) && b !in MaskOfByte(y)
  {
    BitOfOperation(x, y, b);
    BitInMask(x & !y, b);
    BitInMask(x, b);
    BitInMask(y, b);
  }

  lemma BitInMask(byte: bv8, b: Bit)
    ensures b in MaskOfByte(byte) <==> byte & ByteWith(b) != 0
  {
    assert b in ALL_BITS;
  }

  lemma ByteIsItsMask(byte: bv8)
    ensures ByteOf(MaskOfByte(byte)) == byte
  {}

  /** Masks and bytes correspond one to one. */
  lemma MaskIsItsByte(m: Mask)
    ensures MaskOfByte(ByteOf(m)) == m
  {}

  /** The byte operations |, & and & ! are union, intersection and difference of masks. */
  lemma ByteOperations(x: bv8, y: bv8)
    ensures MaskOfByte(x | y) == MaskOfByte(x) + MaskOfByte(y)
    ensures MaskOfByte(x & y) == MaskOfByte(x) * MaskOfByte(y)
    ensures MaskOfByte(x & !y) == MaskOfByte(x) - MaskOfByte(y)
  {
    forall b: Bit { MaskOfOr(x, y, b); }
    forall b: Bit { MaskOfAnd(x, y, b); }
    forall b: Bit { MaskOfAndNot(x, y, b); }
  }

  lemma SubsetIsSmaller<T>(xs: set<T>, ys: set<T>)
    requires xs <= ys
    ensures |xs| <= |ys|
  {
    assert ys == xs + (ys - xs);
  }
}
