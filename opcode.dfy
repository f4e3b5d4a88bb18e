/**
 * OPCode: a 16-bit instruction word split into its four nibbles, most
 * significant first, by masking and shifting.
 */
module OpCodes {
  import opened Bits
  import opened Unsigned

  type Nibble = x: int | 0 <= x < 16

  datatype OpCode = OpCode(fullOpCode: Short, nibbles: seq<Nibble>)
  {
    ghost predicate Valid()
    {
      |nibbles| == 4
    }
  }

  /** (op & mask) >> shift, as the constructor computes each nibble. */
  function MaskShift(op: Short, mask: nat, shift: nat): int
  {
    BitAnd(op, mask) / Pow2(shift)
  }

  /**
   * new OPCode(op): the nibbles are the four hexadecimal digits of op, most
   * significant first. The constructor extracts them by masking and shifting;
   * MasksGiveNibbles shows that this is the same thing.
   */
  function NewOpCode(op: Short): (c: OpCode)
    ensures c.Valid() && c.fullOpCode == op
  {
    OpCode(op, [op / 0x1000, op / 0x100 % 0x10, op / 0x10 % 0x10, op % 0x10])
  }

  /** Each nibble of new OPCode(op) is (op & mask) >> shift with the constructor's mask and shift. */
  lemma MasksGiveNibbles(op: Short)
    ensures var c := NewOpCode(op);
      && c.nibbles[0] == MaskShift(op, 0xF000, 12) && c.nibbles[1] == MaskShift(op, 0x0F00, 8)
      && c.nibbles[2] == MaskShift(op, 0x00F0, 4) && c.nibbles[3] == MaskShift(op, 0x000F, 0)
  {
    NibbleMasks(op);
  }

  lemma NibbleMasks(op: Short)
    ensures MaskShift(op, 0xF000, 12) == op / 0x1000
    ensures MaskShift(op, 0x0F00, 8) == op / 0x100 % 0x10
    ensures MaskShift(op, 0x00F0, 4) == op / 0x10 % 0x10
    ensures MaskShift(op, 0x000F, 0) == op % 0x10
  {
    Pow2Nibbles();
    NibbleMask(op, 12, 0x1000);
    NibbleMask(op, 8, 0x100);
    NibbleMask(op, 4, 0x10);
    NibbleMask(op, 0, 1);
  }

  lemma Pow2Nibbles()
    ensures Pow2(0) == 1 && Pow2(4) == 0x10 && Pow2(8) == 0x100 && Pow2(12) == 0x1000
  {
    assert Pow2(1) == 2 && Pow2(2) == 4 && Pow2(3) == 8 && Pow2(4) == 0x10;
    assert Pow2(5) == 0x20 && Pow2(6) == 0x40 && Pow2(7) == 0x80 && Pow2(8) == 0x100;
    assert Pow2(9) == 0x200 && Pow2(10) == 0x400 && Pow2(11) == 0x800;
  }

  /** (op & (0xF << shift)) >> shift is the nibble of op at bit shift. */
  lemma NibbleMask(op: Short, shift: nat, unit: nat)
    requires shift in {0, 4, 8, 12} && unit == Pow2(shift)
    ensures MaskShift(op, 0xF * unit, shift) == op / unit % 0x10
  {
    Pow2Nibbles();
    FieldMask(op, shift, 4);
    var f := op / unit % 0x10;
    assert BitAnd(op, 0xF * unit) == f * unit;
    MulDiv(f, unit);
  }

  lemma MulDiv(f: nat, p: nat)
    requires p > 0
    ensures f * p / p == f
  {
    DivModUnique(f * p, p, f, 0);
  }

  /** getByte(index): the index-th nibble, counting from the most significant. */
  function GetByte(c: OpCode, index: int): (n: Nibble)
    requires c.Valid() && 0 <= index < 4
  {
    c.nibbles[index]
  }

  function GetOpCode(c: OpCode): Short
  {
    c.fullOpCode
  }

  /** applyMask(mask): fullOpCode & mask. */
  function ApplyMask(c: OpCode, mask: nat): (r: nat)
    ensures r <= c.fullOpCode && r <= mask
  {
    BitAnd(c.fullOpCode, mask)
  }

  /** The four hexadecimal digits of a 16-bit word and the low parts they make up. */
  lemma HexDigits(op: Short)
    ensures var n0, n1, n2, n3 := op / 0x1000, op / 0x100 % 0x10, op / 0x10 % 0x10, op % 0x10;
      && op % 0x100 == n2 * 0x10 + n3
      && op % 0x1000 == n1 * 0x100 + n2 * 0x10 + n3
      && op == n0 * 0x1000 + n1 * 0x100 + n2 * 0x10 + n3
  {
    var a, n3 := op / 0x10, op % 0x10;
    var b, n2 := a / 0x10, a % 0x10;
    var n0, n1 := b / 0x10, b % 0x10;
    DivModUnique(op, 0x100, b, n2 * 0x10 + n3);
    DivModUnique(op, 0x1000, n0, n1 * 0x100 + n2 * 0x10 + n3);
  }

  /** The nibbles put back together, most significant first, give the word again. */
  lemma NibblesRecombine(op: Short)
    ensures var c := NewOpCode(op);
      GetByte(c, 0) * 0x1000 + GetByte(c, 1) * 0x100 + GetByte(c, 2) * 0x10 + GetByte(c, 3) == GetOpCode(c)
  {
    HexDigits(op);
  }

  /** The two masks the CPU applies keep the low twelve and the low eight bits of any opcode. */
  lemma LowMasks(c: OpCode)
    ensures ApplyMask(c, 0x0FFF) == c.fullOpCode % 0x1000
    ensures ApplyMask(c, 0x00FF) == c.fullOpCode % 0x100
  {
    Pow2Nibbles();
    LowMask(c.fullOpCode, 12);
    LowMask(c.fullOpCode, 8);
  }

  /** Masking with 0x0FFF keeps the address NNN, the low three nibbles. */
  lemma AddressMask(op: Short)
    ensures var c := NewOpCode(op);
      ApplyMask(c, 0x0FFF) == op % 0x1000 == GetByte(c, 1) * 0x100 + GetByte(c, 2) * 0x10 + GetByte(c, 3)
  {
    Pow2Nibbles();
    LowMask(op, 12);
    HexDigits(op);
  }

  /** Masking with 0x00FF keeps the byte NN, the low two nibbles. */
  lemma ByteMask(op: Short)
    ensures var c := NewOpCode(op);
      ApplyMask(c, 0x00FF) == op % 0x100 == GetByte(c, 2) * 0x10 + GetByte(c, 3)
  {
    Pow2Nibbles();
    LowMask(op, 8);
    HexDigits(op);
  }
}
