/**
 * What single instructions do, stated against the plain meaning of each
 * opcode rather than against the dispatch that computes it: carries and
 * borrows, the shifted-out bit, which words are rejected, the skip
 * instructions, call and return, and the memory instructions FX33, FX55
 * and FX65.
 */
module InstructionProperties {
  import opened Wrappers
  import opened JavaText
  import opened Unsigned
  import opened OpCodes
  import opened Constants
  import opened Exceptions
  import opened Semantics

  // ------------------------------------------------------------ 8XYN flags

  /** 8XY4: VX := (VX + VY) mod 256 and VF := 1 exactly when the sum passes 255; VF is written first, so VX wins when X is F. */
  lemma AddSetsCarry(m: Machine, c: OpCode, r: nat)
    requires Valid(m) && c.Valid() && r < 255
    requires c.nibbles[0] == 0x8 && c.nibbles[3] == 0x4
    ensures var x, y, o := c.nibbles[1], c.nibbles[2], Decode(m, c, r);
      var sum := V(m, x) + V(m, y);
      && o.status == Completed(None)
      && o.machine == m.(registers := o.machine.registers)
      && V(o.machine, x) == sum % 0x100
      && (x != VF ==> V(o.machine, VF) == if sum > 0xFF then 1 else 0)
      && forall i: RegisterIndex :: i != x && i != VF ==> V(o.machine, i) == V(m, i)
  {
  }

  /**
   * 8XY5: VX := (VX - VY) mod 256; 8XY7: VX := (VY - VX) mod 256. VF is 0
   * exactly when the difference went below zero, so equal operands give 1.
   */
  lemma SubtractSetsBorrow(m: Machine, c: OpCode, r: nat)
    requires Valid(m) && c.Valid() && r < 255
    requires c.nibbles[0] == 0x8 && (c.nibbles[3] == 0x5 || c.nibbles[3] == 0x7)
    ensures var x, y, o := c.nibbles[1], c.nibbles[2], Decode(m, c, r);
      var minuend := if c.nibbles[3] == 0x5 then V(m, x) else V(m, y);
      var subtrahend := if c.nibbles[3] == 0x5 then V(m, y) else V(m, x);
      && o.status == Completed(None)
      && o.machine == m.(registers := o.machine.registers)
      && V(o.machine, x) == (minuend - subtrahend) % 0x100
      && (x != VF ==> V(o.machine, VF) == if minuend < subtrahend then 0 else 1)
      && forall i: RegisterIndex :: i != x && i != VF ==> V(o.machine, i) == V(m, i)
  {
  }

  /**
   * 8XY6 and 8XYE: VX shifted by one, and VF := the bit shifted out. VF is
   * written after VX, so the shifted-out bit wins when X is F.
   */
  lemma ShiftSetsOutBit(m: Machine, c: OpCode, r: nat)
    requires Valid(m) && c.Valid() && r < 255
    requires c.nibbles[0] == 0x8 && (c.nibbles[3] == 0x6 || c.nibbles[3] == 0xE)
    ensures var x, o := c.nibbles[1], Decode(m, c, r);
      var right := c.nibbles[3] == 0x6;
      && o.status == Completed(None)
      && o.machine == m.(registers := o.machine.registers)
      && V(o.machine, VF) == (if right then V(m, x) % 2 else V(m, x) / 0x80)
      && (x != VF ==> V(o.machine, x) == if right then V(m, x) / 2 else (V(m, x) * 2) % 0x100)
      && forall i: RegisterIndex :: i != x && i != VF ==> V(o.machine, i) == V(m, i)
  {
  }

  // ------------------------------------------------------------ rejected words

  /** The words decodeOpCode has a handler for. */
  predicate Recognised(c: OpCode)
    requires c.Valid()
  {
    var x, y, n := c.nibbles[1], c.nibbles[2], c.nibbles[3];
    match c.nibbles[0]
    case 0x0 => x == 0
    case 0x8 => n <= 0x7 || n == 0xE
    case 0xE => y == 0x9 || y == 0xA
    case 0xF =>
      || (y == 0x0 && (n == 0x7 || n == 0xA))
      || (y == 0x1 && (n == 0x5 || n == 0x8 || n == 0xE))
      || y == 0x2
      || (y == 0x3 && n == 0x3)
      || ((y == 0x5 || y == 0x6) && n == 0x5)
    case _ => true
  }

  /** UnknownOPCodeException is raised for exactly the unrecognised words, and before anything changes. */
  lemma UnknownOpCodes(m: Machine, c: OpCode, r: nat)
    requires Valid(m) && c.Valid() && r < 255
    ensures Decode(m, c, r).status == Failed(UnknownOpCode) <==> !Recognised(c)
    ensures !Recognised(c) ==> Decode(m, c, r).machine == m
  {
  }

  // ------------------------------------------------------------ 0x0 group, call and return

  /** 0x00?0 clears the screen; 0x00?N with N not 0 pops the return address, and an empty stack throws. */
  lemma ZeroGroup(m: Machine, c: OpCode, r: nat)
    requires Valid(m) && c.Valid() && r < 255
    requires c.nibbles[0] == 0x0 && c.nibbles[1] == 0x0
    ensures var o := Decode(m, c, r);
      if c.nibbles[3] == 0x0 then o == Done(m.(screen := ScreenMemory.BlankScreen()))
      else if |m.stack| == 0 then o == Throw(m, EmptyStack)
      else o == Done(m.(stack := m.stack[..|m.stack| - 1], pc := m.stack[|m.stack| - 1]))
  {
  }

  /** The word 0x0000 has the nibbles of 00E0's group with N = 0. */
  lemma ZeroNibbles(high: Byte, low: Byte)
    requires high == 0 && low == 0
    ensures var c := NewOpCode(Word(high, low)); c.nibbles[0] == 0 && c.nibbles[1] == 0 && c.nibbles[3] == 0
  {
    assert Word(high, low) == 0;
  }

  /** A step is fetch, then decode, then the cycle count when the instruction completes. */
  lemma StepDecoded(m: Machine, r: nat)
    requires Valid(m) && r < 255 && Fetch(m).1.Success?
    requires Decode(Fetch(m).0, Fetch(m).1.value, r).status.Completed?
    ensures var o := Decode(Fetch(m).0, Fetch(m).1.value, r);
      Step(m, r) == Outcome(CountCycle(o.machine), o.status)
  {
  }

  /**
   * A zero word at PC (the program area of a fresh memory) clears the
   * screen: the step moves PC on by two and counts a cycle.
   */
  lemma ZeroWordStep(m: Machine, r: nat)
    requires Valid(m) && r < 255 && !m.stop && !m.pause && m.cycles < IntMax
    requires m.pc + 1 < MemoryLength && m.memory[m.pc] == 0 && m.memory[m.pc + 1] == 0
    ensures Step(m, r) == Done(m.(pc := m.pc + 2, screen := ScreenMemory.BlankScreen(), cycles := m.cycles + 1))
  {
    ZeroNibbles(m.memory[m.pc], m.memory[m.pc + 1]);
    ZeroGroup(Fetch(m).0, Fetch(m).1.value, r);
    StepDecoded(m, r);
  }

  /** 2NNN jumps to NNN, and a following 00EE (any 0x00?N, N not 0) comes back to the machine as it was. */
  lemma CallThenReturn(m: Machine, call: OpCode, ret: OpCode, r: nat)
    requires Valid(m) && call.Valid() && ret.Valid() && r < 255
    requires call.nibbles[0] == 0x2
    requires ret.nibbles[0] == 0x0 && ret.nibbles[1] == 0x0 && ret.nibbles[3] != 0x0
    ensures var o := Decode(m, call, r);
      && o.status == Completed(None)
      && o.machine.pc == call.fullOpCode % 0x1000
      && |o.machine.stack| == |m.stack| + 1
      && Decode(o.machine, ret, r) == Done(m)
  {
    var o := Decode(m, call, r);
    assert o.machine.stack[..|m.stack|] == m.stack;
  }

  /**
   * The word is fetched high byte first and PC has passed it before the
   * handler runs, so 2NNN pushes the address of the next instruction.
   */
  lemma CallPushesNextAddress(m: Machine, r: nat)
    requires Valid(m) && r < 255
    requires m.pc + 1 < MemoryLength && m.memory[m.pc] / 0x10 == 0x2
    ensures var o := Step(m, r);
      && o.status == Completed(None)
      && o.machine.stack == m.stack + [m.pc + 2]
      && o.machine.pc == (m.memory[m.pc] as int % 0x10) * 0x100 + m.memory[m.pc + 1]
  {
    var high, low := m.memory[m.pc], m.memory[m.pc + 1];
    var w := Word(high, low);
    HexDigits(w);
    assert w / 0x1000 == high / 0x10 && w % 0x1000 == (high as int % 0x10) * 0x100 + low by {
      Bits.DivModUnique(w, 0x1000, high / 0x10, (high as int % 0x10) * 0x100 + low);
    }
  }

  // ------------------------------------------------------------ skips

  /**
   * 3XNN, 4XNN, 5XY?, 9XY?, EX9? and EXA?: PC moves on by exactly 2 when
   * the comparison holds, and nothing else changes.
   */
  lemma SkipsOnComparison(m: Machine, w: Short, r: nat)
    requires Valid(m) && r < 255
    requires var c := NewOpCode(w);
      c.nibbles[0] in {0x3, 0x4, 0x5, 0x9} || (c.nibbles[0] == 0xE && c.nibbles[2] in {0x9, 0xA})
    ensures var c := NewOpCode(w);
      var g, vx, vy, nn := c.nibbles[0], V(m, c.nibbles[1]), V(m, c.nibbles[2]), c.nibbles[2] as int * 0x10 + c.nibbles[3];
      var holds :=
        if g == 0x3 then vx == nn
        else if g == 0x4 then vx != nn
        else if g == 0x5 then vx == vy
        else if g == 0x9 then vx != vy
        else if c.nibbles[2] == 0x9 then vx == m.keyCode
        else vx != m.keyCode;
      Decode(m, c, r) == Done(m.(pc := if holds then (m.pc + 2) % 0x1_0000 else m.pc))
  {
    HexDigits(w);
  }

  /** 5XY?, 9XY?, EX9?, EXA? and FX2? do not look at their low nibble. */
  lemma LowNibbleIgnored(m: Machine, c: OpCode, d: OpCode, r: nat)
    requires Valid(m) && c.Valid() && d.Valid() && r < 255
    requires c.nibbles[..3] == d.nibbles[..3]
    requires var g, y := c.nibbles[0], c.nibbles[2];
      g == 0x5 || g == 0x9 || (g == 0xE && (y == 0x9 || y == 0xA)) || (g == 0xF && y == 0x2)
    ensures Decode(m, c, r) == Decode(m, d, r)
  {
    assert c.nibbles[0] == d.nibbles[0] && c.nibbles[1] == d.nibbles[1] && c.nibbles[2] == d.nibbles[2];
  }

  /** FX29: I := (VX * 5) mod 256, the address of the glyph for the low hexadecimal digit of VX. */
  lemma SpriteAddressOfDigit(m: Machine, c: OpCode, r: nat)
    requires Valid(m) && c.Valid() && r < 255
    requires c.nibbles[0] == 0xF && c.nibbles[2] == 0x2
    ensures var o := Decode(m, c, r);
      && o.status == Completed(None)
      && o.machine == m.(address := o.machine.address)
      && o.machine.address == (V(m, c.nibbles[1]) * 5) % 0x100
      && (V(m, c.nibbles[1]) < 16 ==> o.machine.address == 5 * V(m, c.nibbles[1]))
  {
  }

  // ------------------------------------------------------------ FX33, FX55, FX65

  /** FX33 with I + 2 inside memory: the three decimal digits of VX at I, I + 1, I + 2, and no other cell changed. */
  lemma DecimalDigitsStored(m: Machine, x: RegisterIndex)
    requires Valid(m) && m.address + 3 <= MemoryLength
    ensures var o, a := StoreBinaryCodedDecimals(m, x), m.address;
      && o.status == Completed(None)
      && o.machine == m.(memory := o.machine.memory)
      && o.machine.memory[a] < 3 && o.machine.memory[a + 1] < 10 && o.machine.memory[a + 2] < 10
      && 100 * o.machine.memory[a] + 10 * o.machine.memory[a + 1] + o.machine.memory[a + 2] == V(m, x)
      && forall i :: 0 <= i < MemoryLength && !(a <= i < a + 3) ==> o.machine.memory[i] == m.memory[i]
  {
  }

  /** FX55 completes while every cell it touches lies inside memory, and leaves I as it was. */
  lemma {:induction false} DumpCompletes(m: Machine, count: nat)
    requires Valid(m) && count <= RegisterLength && m.address + count <= MemoryLength
    ensures Dump(m, count).status == Completed(None) && Dump(m, count).machine.address == m.address
  {
    if count > 0 {
      DumpCompletes(m, count - 1);
      var p := Dump(m, count - 1).machine;
      assert Offset(p, count - 1) == m.address + count - 1;
    }
  }

  /** FX65 completes while every cell it touches lies inside memory, and leaves I as it was. */
  lemma {:induction false} LoadCompletes(m: Machine, count: nat)
    requires Valid(m) && count <= RegisterLength && m.address + count <= MemoryLength
    ensures Load(m, count).status == Completed(None) && Load(m, count).machine.address == m.address
  {
    if count > 0 {
      LoadCompletes(m, count - 1);
      var p := Load(m, count - 1).machine;
      assert Offset(p, count - 1) == m.address + count - 1;
    }
  }

  /** One more register of FX55: V[count - 1] goes to cell I + count - 1 of the machine so far. */
  lemma DumpNext(m: Machine, count: nat)
    requires Valid(m) && 0 < count <= RegisterLength && m.address + count <= MemoryLength
    ensures var p := Dump(m, count - 1).machine;
      Dump(m, count) == Done(p.(memory := p.memory[m.address + count - 1 := V(p, count - 1)]))
  {
    DumpCompletes(m, count - 1);
    var p := Dump(m, count - 1).machine;
    assert Offset(p, count - 1) == m.address + count - 1;
  }

  /** One more register of FX65: V[count - 1] := cell I + count - 1 of the machine so far. */
  lemma LoadNext(m: Machine, count: nat)
    requires Valid(m) && 0 < count <= RegisterLength && m.address + count <= MemoryLength
    ensures var p := Load(m, count - 1).machine;
      Load(m, count) == Done(SetV(p, count - 1, p.memory[m.address + count - 1]))
  {
    LoadCompletes(m, count - 1);
    var p := Load(m, count - 1).machine;
    assert Offset(p, count - 1) == m.address + count - 1;
  }

  /** FX55 within memory: cell I + i holds V[i] for i below the count, and nothing else changes, I included. */
  lemma {:induction false} DumpWrites(m: Machine, count: nat)
    requires Valid(m) && count <= RegisterLength && m.address + count <= MemoryLength
    ensures var o := Dump(m, count);
      && o.status == Completed(None)
      && o.machine == m.(memory := o.machine.memory)
      && forall i :: 0 <= i < MemoryLength ==>
        o.machine.memory[i] == if m.address <= i < m.address + count then V(m, i - m.address) else m.memory[i]
  {
    if count > 0 {
      DumpWrites(m, count - 1);
      DumpNext(m, count);
    }
  }

  /** FX65 within memory: V[i] := cell I + i for i below the count, and nothing else changes, I included. */
  lemma {:induction false} LoadReads(m: Machine, count: nat)
    requires Valid(m) && count <= RegisterLength && m.address + count <= MemoryLength
    ensures var o := Load(m, count);
      && o.status == Completed(None)
      && o.machine == m.(registers := o.machine.registers)
      && forall i: RegisterIndex :: V(o.machine, i) == if i < count then m.memory[m.address + i] else V(m, i)
  {
    if count > 0 {
      LoadReads(m, count - 1);
      LoadNext(m, count);
      var p := Load(m, count - 1).machine;
      forall i: RegisterIndex
        ensures V(Load(m, count).machine, i) == if i < count then m.memory[m.address + i] else V(m, i)
      {
        assert V(p, i) == if i < count - 1 then m.memory[m.address + i] else V(m, i);
      }
    }
  }

  /** FX55 and FX65 throw exactly when the last cell they touch, I + count - 1, lies outside memory. */
  lemma {:induction false} TransferOutsideMemory(m: Machine, count: nat)
    requires Valid(m) && 0 < count <= RegisterLength && MemoryLength < m.address + count
    ensures Dump(m, count).status == Failed(IndexOutOfBounds)
    ensures Load(m, count).status == Failed(IndexOutOfBounds)
  {
    if m.address < MemoryLength {
      // The first k cells are inside memory; cell I + k is the first outside.
      var k := MemoryLength - m.address;
      DumpCompletes(m, k);
      LoadCompletes(m, k);
      assert Offset(Dump(m, k).machine, k) == MemoryLength;
      assert Offset(Load(m, k).machine, k) == MemoryLength;
      DumpStaysFailed(m, k + 1, count);
      LoadStaysFailed(m, k + 1, count);
    } else {
      DumpStaysFailed(m, 1, count);
      LoadStaysFailed(m, 1, count);
    }
  }

  /** FX65 after FX55 with the same X and I reads back what was written: the registers are as they were. */
  lemma DumpThenLoad(m: Machine, count: nat)
    requires Valid(m) && count <= RegisterLength && m.address + count <= MemoryLength
    ensures Load(Dump(m, count).machine, count) == Dump(m, count)
  {
    var dumped := Dump(m, count);
    var d := dumped.machine;
    DumpWrites(m, count);
    var loaded := Load(d, count);
    LoadReads(d, count);
    Reloaded(m, d, loaded.machine, count);
    assert loaded.machine == d && loaded.status == dumped.status;
  }

  /** Registers read back from the cells they were dumped to are the registers that were dumped. */
  lemma Reloaded(m: Machine, d: Machine, l: Machine, count: nat)
    requires Valid(m) && Valid(d) && Valid(l) && count <= RegisterLength && m.address + count <= MemoryLength
    requires d == m.(memory := d.memory)
    requires forall i :: m.address <= i < m.address + count ==> d.memory[i] == V(m, i - m.address)
    requires l == d.(registers := l.registers)
    requires forall i: RegisterIndex :: V(l, i) == if i < count then d.memory[d.address + i] else V(d, i)
    ensures l == d
  {
    forall i: RegisterIndex ensures l.registers[i] == d.registers[i] {
      if i < count {
        assert d.memory[m.address + i] == V(m, i);
      }
      assert V(l, i) == V(d, i);
    }
    assert l.registers == d.registers;
  }

  /** The same round trip as words: FX65 after FX55 leaves the machine FX55 produced. */
  lemma StoreThenLoadRegisters(m: Machine, store: OpCode, load: OpCode, r: nat)
    requires Valid(m) && store.Valid() && load.Valid() && r < 255
    requires store.nibbles[0] == 0xF && store.nibbles[2] == 0x5 && store.nibbles[3] == 0x5
    requires load.nibbles[0] == 0xF && load.nibbles[2] == 0x6 && load.nibbles[3] == 0x5
    requires store.nibbles[1] == load.nibbles[1] && m.address + store.nibbles[1] < MemoryLength
    ensures Decode(Decode(m, store, r).machine, load, r) == Decode(m, store, r)
  {
    DumpThenLoad(m, store.nibbles[1] as int + 1);
  }

  // ------------------------------------------------------------ the cycle counter

  /**
   * A step counts a cycle only when its instruction completed while the CPU
   * was neither stopped nor paused, and the counter stops at Integer.MAX_VALUE.
   */
  lemma StepCountsCycle(m: Machine, r: nat)
    requires Valid(m) && r < 255
    ensures var o := Step(m, r);
      && o.machine.keyCode == m.keyCode && o.machine.stop == m.stop && o.machine.pause == m.pause
      && o.machine.cycles ==
        if o.status.Completed? && !m.stop && !m.pause && m.cycles < IntMax then m.cycles + 1 else m.cycles
  {
  }
}
