/** The 16-bit program counter. */
module ProgramCounter {
  import opened Unsigned

  class ProgramCounter {
    var count: Short

    constructor (start: Short)
      ensures count == start
    {
      count := start;
    }

    /** The no-argument constructor: the counter starts at 0. */
    constructor Zero()
      ensures count == 0
    {
      count := 0;
    }

    /** incrementCounter: one step forward, wrapping from 0xFFFF to 0. */
    method IncrementCounter()
      modifies this
      ensures count == (old(count) + 1) % 0x1_0000
    {
      count := NewUnsignedShort(count + 1).s;
    }

    /** incrementCounterN(n): n steps forward, modulo 0x10000. */
    method IncrementCounterN(n: int)
      modifies this
      ensures count == (old(count) + n) % 0x1_0000
    {
      count := NewUnsignedShort(count + n).s;
    }

    function GetCounter(): Short
      reads this
    {
      count
    }

    method JumpTo(address: Short)
      modifies this
      ensures count == address
    {
      count := address;
    }
  }
}
