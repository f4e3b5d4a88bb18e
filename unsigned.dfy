/**
 * UnsignedByte and UnsignedShort: immutable wrappers of a non-negative int
 * that every register, memory cell and address of the emulator is built
 * from. A new value is made by narrowing a Java int, and a byte remembers
 * whether the int it was made from lay outside 0..255.
 */
module Unsigned {
  import opened Wrappers
  import opened JavaText

  const ByteModulus: nat := 0x100
  const ShortModulus: nat := 0x1_0000

  type Byte = x: int | 0 <= x < 0x100
  type Short = x: int | 0 <= x < 0x1_0000

  /** UnsignedByte carries the overflow flag of its construction; UnsignedShort's flag is always false. */
  datatype UnsignedDataType =
    | UnsignedByte(b: Byte, overflow: bool)
    | UnsignedShort(s: Short)
  {
    /** The field unsignedDataType. */
    function Value(): (v: nat)
      ensures UnsignedByte? ==> v == b
      ensures UnsignedShort? ==> v == s
    {
      if UnsignedByte? then b else s
    }
  }

  /** Java's (byte) cast: the int in -128..127 congruent to n modulo 256. */
  function ByteCast(n: int): (c: int)
    ensures -0x80 <= c < 0x80 && (c - n) % 0x100 == 0
  {
    var m := n % 0x100;
    if m >= 0x80 then m - 0x100 else m
  }

  /** Java's (short) cast: the int in -32768..32767 congruent to n modulo 65536. */
  function ShortCast(n: int): (c: int)
    ensures -0x8000 <= c < 0x8000 && (c - n) % 0x1_0000 == 0
  {
    var m := n % 0x1_0000;
    if m >= 0x8000 then m - 0x1_0000 else m
  }

  /**
   * new UnsignedByte(n): the value is the low eight bits of n
   * (Byte.toUnsignedInt of the byte cast), and the overflow flag is set
   * exactly when n itself is not a value 0..255.
   */
  function NewUnsignedByte(n: int): (u: UnsignedDataType)
    ensures u.UnsignedByte? && u.b == n % 0x100
    ensures u.overflow <==> u.b != n
  {
    UnsignedByte(ByteCast(n) % 0x100, n < 0 || n > 0xFF)
  }

  /** new UnsignedShort((short) n): the low sixteen bits of n, never flagged. */
  function NewUnsignedShort(n: int): (u: UnsignedDataType)
    ensures u.UnsignedShort? && u.s == n % 0x1_0000
  {
    UnsignedShort(ShortCast(n) % 0x1_0000)
  }

  /**
   * apply(UnaryOperation): the result is cast to byte (or short) before the
   * constructor runs. For a byte the constructor therefore sees a negative
   * int whenever bit 7 of the result is set, and flags overflow then.
   */
  function ApplyUnary(u: UnsignedDataType, op: nat -> int): (r: UnsignedDataType)
    ensures r.UnsignedByte? == u.UnsignedByte?
    ensures r.UnsignedByte? ==> r.b == op(u.b) % 0x100 && (r.overflow <==> r.b >= 0x80)
    ensures r.UnsignedShort? ==> r.s == op(u.s) % 0x1_0000
  {
    if u.UnsignedByte? then NewUnsignedByte(ByteCast(op(u.b)))
    else NewUnsignedShort(ShortCast(op(u.s)))
  }

  /** apply(BinaryOperation, UnsignedByte): a byte made from op of both values. */
  function ApplyWithByte(u: UnsignedDataType, op: (nat, nat) -> int, other: UnsignedDataType): (r: UnsignedDataType)
    requires other.UnsignedByte?
    ensures r.UnsignedByte? && r.b == op(u.Value(), other.b) % 0x100
    ensures r.overflow <==> !(0 <= op(u.Value(), other.b) < 0x100)
  {
    NewUnsignedByte(op(u.Value(), other.b))
  }

  /** apply(BinaryOperation, UnsignedShort): a short made from op of both values. */
  function ApplyWithShort(u: UnsignedDataType, op: (nat, nat) -> int, other: UnsignedDataType): (r: UnsignedDataType)
    requires other.UnsignedShort?
    ensures r.UnsignedShort? && r.s == op(u.Value(), other.s) % 0x1_0000
  {
    NewUnsignedShort(op(u.Value(), other.s))
  }

  /** lastOperationLeadToOverflow: the flag the constructor of a byte set; a short never has one. */
  function LastOperationLeadToOverflow(u: UnsignedDataType): (flag: bool)
    ensures u.UnsignedShort? ==> !flag
    ensures u.UnsignedByte? ==> (flag <==> u.overflow)
  {
    u.UnsignedByte? && u.overflow
  }

  /**
   * What the flag reports after an operation: a byte result is flagged
   * exactly when the int the operation produced lies outside 0..255 (the
   * carry and borrow setBorrowCarryFlag reads), a unary byte result exactly
   * when bit 7 of its result is set, and a short result never.
   */
  lemma OverflowOfOperation(u: UnsignedDataType, op: (nat, nat) -> int, other: UnsignedDataType, unary: nat -> int)
    ensures other.UnsignedByte? ==>
      (LastOperationLeadToOverflow(ApplyWithByte(u, op, other)) <==> !(0 <= op(u.Value(), other.b) < 0x100))
    ensures other.UnsignedShort? ==> !LastOperationLeadToOverflow(ApplyWithShort(u, op, other))
    ensures u.UnsignedByte? ==> (LastOperationLeadToOverflow(ApplyUnary(u, unary)) <==> unary(u.b) % 0x100 >= 0x80)
    ensures u.UnsignedShort? ==> !LastOperationLeadToOverflow(ApplyUnary(u, unary))
  {
  }

  /** equals: two unsigned values are equal when their values are, whatever their widths and flags. */
  predicate Equals(u: UnsignedDataType, v: UnsignedDataType)
  {
    u.Value() == v.Value()
  }

  function HashCode(u: UnsignedDataType): int
  {
    u.Value()
  }

  /** compareTo: the difference of the two values. */
  function CompareTo(u: UnsignedDataType, v: UnsignedDataType): int
  {
    u.Value() - v.Value()
  }

  function ToString(u: UnsignedDataType): string
  {
    IntToString(u.Value())
  }

  /** Equal values have equal hash codes, and compareTo agrees with equals and is antisymmetric. */
  lemma EqualsContract(u: UnsignedDataType, v: UnsignedDataType)
    ensures Equals(u, v) ==> HashCode(u) == HashCode(v)
    ensures CompareTo(u, v) == 0 <==> Equals(u, v)
    ensures CompareTo(u, v) == -CompareTo(v, u)
    ensures CompareTo(u, v) < 0 <==> u.Value() < v.Value()
  {
  }

  /** The decimal text of a value parses back to that value. */
  lemma ToStringParses(u: UnsignedDataType)
    ensures ParseInt(ToString(u)) == Some(u.Value() as int)
  {
    ParseIntToString(u.Value());
  }
}
