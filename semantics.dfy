/**
 * The instruction set as a function on a value snapshot of the machine:
 * one fetch-decode-execute cycle of decodeNextOpCode, with the same nested
 * dispatch on nibbles, the same order of register writes and the same
 * exceptions. An exception leaves the effects made before it in place, so
 * a failing outcome carries the machine as it was at the throw.
 */
module Semantics {
  import opened Wrappers
  import opened JavaText
  import opened Bits
  import opened Unsigned
  import opened OpCodes
  import opened Constants
  import opened Exceptions
  import opened ScreenMemory
  import opened Timers
  import opened Keys

  type RegisterIndex = x: int | 0 <= x < 16

  /** The register written by carries, borrows, shifted-out bits and collisions. */
  const VF: RegisterIndex := 0xF

  /** Everything an instruction reads or writes. */
  datatype Machine = Machine(
    memory: seq<Byte>,
    registers: seq<Byte>,
    screen: seq<seq<bool>>,
    stack: seq<Short>,
    pc: Short,
    address: Short,
    delay: Int32,
    sound: Int32,
    onValue: Option<Interrupt>,
    keyCode: Int32,
    stop: bool,
    pause: bool,
    cycles: Int32)

  ghost predicate Valid(m: Machine)
  {
    |m.memory| == MemoryLength && |m.registers| == RegisterLength && IsScreen(m.screen)
  }

  /** No instruction changes the key code, the stop and pause flags, the cycle count or the sound callback. */
  ghost predicate SameControl(m: Machine, n: Machine)
  {
    n.keyCode == m.keyCode && n.stop == m.stop && n.pause == m.pause
    && n.cycles == m.cycles && n.onValue == m.onValue
  }

  /**
   * How an instruction ends: normally (with the callback it fired, if any),
   * blocked in FX0A waiting for a key, or with an exception.
   */
  datatype Status = Completed(fired: Option<Interrupt>) | AwaitingKey | Failed(error: Exception)

  datatype Outcome = Outcome(machine: Machine, status: Status)

  function Done(m: Machine): Outcome
  {
    Outcome(m, Completed(None))
  }

  function Throw(m: Machine, e: Exception): Outcome
  {
    Outcome(m, Failed(e))
  }

  // ------------------------------------------------------------ components

  function V(m: Machine, x: RegisterIndex): Byte
    requires Valid(m)
  {
    m.registers[x]
  }

  function SetV(m: Machine, x: RegisterIndex, v: Byte): (n: Machine)
    requires Valid(m)
    ensures Valid(n) && SameControl(m, n)
  {
    m.(registers := m.registers[x := v])
  }

  /** incrementCounterN(2) when the condition holds. */
  function Skip(m: Machine, cond: bool): Machine
  {
    if cond then m.(pc := (m.pc + 2) % 0x1_0000) else m
  }

  function ReadCell(m: Machine, i: int): (r: Result<Byte, Exception>)
    requires Valid(m)
    ensures r.Success? <==> 0 <= i < MemoryLength
  {
    if 0 <= i < MemoryLength then Success(m.memory[i]) else Failure(IndexOutOfBounds)
  }

  function WriteCell(m: Machine, i: int, v: Byte): (r: Result<Machine, Exception>)
    requires Valid(m)
    ensures r.Success? <==> 0 <= i < MemoryLength
    ensures r.Success? ==> Valid(r.value) && SameControl(m, r.value)
  {
    if 0 <= i < MemoryLength then Success(m.(memory := m.memory[i := v])) else Failure(IndexOutOfBounds)
  }

  /** I + k, as an UnsignedShort sum. */
  function Offset(m: Machine, k: nat): Short
  {
    (m.address + k) % 0x1_0000
  }

  // ------------------------------------------------------------ 0NNN, 1NNN, 2NNN

  function ClearScreen(m: Machine): (n: Machine)
    requires Valid(m)
    ensures Valid(n) && SameControl(m, n)
  {
    m.(screen := BlankScreen())
  }

  /** 00EE: pop the return address into PC; an empty stack throws before anything changes. */
  function ReturnFromSubRoutine(m: Machine): (o: Outcome)
    requires Valid(m)
    ensures Valid(o.machine) && SameControl(m, o.machine)
  {
    if |m.stack| == 0 then Throw(m, EmptyStack)
    else Done(m.(stack := m.stack[..|m.stack| - 1], pc := m.stack[|m.stack| - 1]))
  }

  function GotoOp(m: Machine, nnn: Short): Machine
  {
    m.(pc := nnn)
  }

  /** 2NNN: the counter, already past this instruction, is pushed, then PC := NNN. */
  function CallSubRoutine(m: Machine, nnn: Short): Machine
  {
    m.(stack := m.stack + [m.pc], pc := nnn)
  }

  // ------------------------------------------------------------ 6XNN, 7XNN, 8XYN

  /** 8XY4, 8XY5 and 8XY7: VZ := VX op VY, with VF written first from the overflow of the byte result. */
  function ArithmeticOperation(m: Machine, x: RegisterIndex, y: RegisterIndex, z: RegisterIndex, add: bool): (n: Machine)
    requires Valid(m)
    ensures Valid(n) && SameControl(m, n)
  {
    var result := if add then V(m, x) + V(m, y) else V(m, x) - V(m, y);
    var overflow := !(0 <= result < 0x100);
    var flag := if add then (if overflow then 1 else 0) else (if overflow then 0 else 1);
    SetV(SetV(m, VF, flag), z, result % 0x100)
  }

  /** 8XY6: VX := VX >> 1, then VF := the bit shifted out. */
  function ShiftRight(m: Machine, x: RegisterIndex): (n: Machine)
    requires Valid(m)
    ensures Valid(n) && SameControl(m, n)
  {
    var v := V(m, x);
    SetV(SetV(m, x, v / 2), VF, v % 2)
  }

  /** 8XYE: VX := VX << 1 truncated to a byte, then VF := the bit shifted out. */
  function ShiftLeft(m: Machine, x: RegisterIndex): (n: Machine)
    requires Valid(m)
    ensures Valid(n) && SameControl(m, n)
  {
    var v := V(m, x);
    SetV(SetV(m, x, (2 * v) % 0x100), VF, v / 0x80)
  }

  function Op8XYN(m: Machine, x: RegisterIndex, y: RegisterIndex, n: Nibble): (o: Outcome)
    requires Valid(m)
    ensures Valid(o.machine) && SameControl(m, o.machine)
  {
    match n
    case 0x0 => Done(SetV(m, x, V(m, y)))
    case 0x1 => Done(SetV(m, x, BitOr(V(m, x), V(m, y)) % 0x100))
    case 0x2 => Done(SetV(m, x, BitAnd(V(m, x), V(m, y))))
    case 0x3 => Done(SetV(m, x, BitXor(V(m, x), V(m, y)) % 0x100))
    case 0x4 => Done(ArithmeticOperation(m, x, y, x, true))
    case 0x5 => Done(ArithmeticOperation(m, x, y, x, false))
    case 0x6 => Done(ShiftRight(m, x))
    case 0x7 => Done(ArithmeticOperation(m, y, x, x, false))
    case 0xE => Done(ShiftLeft(m, x))
    case _ => Throw(m, UnknownOpCode)
  }

  // ------------------------------------------------------------ DXYN

  /** Bit c of a sprite row, counting from the most significant (mask 0x80 >> c). */
  predicate SpriteBit(data: Byte, c: nat)
    requires c < 8
  {
    (data / Pow2(7 - c)) % 2 == 1
  }

  /** Toggles one pixel; a pixel that was lit sets VF to 1 first. */
  function FlipPixel(m: Machine, x: nat, y: nat): (n: Machine)
    requires Valid(m)
    ensures Valid(n) && SameControl(m, n)
  {
    var lit := m.screen[x % ScreenWidth][y % ScreenHeight];
    var m1 := if lit then SetV(m, VF, 1) else m;
    m1.(screen := SetPixel(m1.screen, x, y, !lit))
  }

  /** drawLineOfSprite for the first c columns: each set bit toggles pixel (cx + column, y). */
  function DrawLine(m: Machine, cx: nat, y: nat, data: Byte, c: nat): (n: Machine)
    requires Valid(m) && c <= 8
    ensures Valid(n) && SameControl(m, n)
  {
    if c == 0 then m
    else
      var n := DrawLine(m, cx, y, data, c - 1);
      if SpriteBit(data, c - 1) then FlipPixel(n, cx + c - 1, y) else n
  }

  /** Column c of a sprite row: the pixel at cx + c flips where bit c of the row is set. */
  lemma DrawLineNext(m: Machine, cx: nat, y: nat, data: Byte, c: nat)
    requires Valid(m) && c < 8
    ensures DrawLine(m, cx, y, data, c + 1) ==
      if SpriteBit(data, c) then FlipPixel(DrawLine(m, cx, y, data, c), cx + c, y) else DrawLine(m, cx, y, data, c)
  {
  }

  /** The first rows of a sprite, row k read from I + k and drawn on line cy + k; a row outside memory throws. */
  function DrawRows(m: Machine, cx: nat, cy: nat, rows: nat): (o: Outcome)
    requires Valid(m)
    ensures Valid(o.machine) && SameControl(m, o.machine)
    ensures o.status == Completed(None) || o.status == Failed(IndexOutOfBounds)
  {
    if rows == 0 then Done(m)
    else
      var o := DrawRows(m, cx, cy, rows - 1);
      if o.status.Failed? then o
      else match ReadCell(o.machine, Offset(o.machine, rows - 1))
        case Failure(e) => Throw(o.machine, e)
        case Success(data) => Done(DrawLine(o.machine, cx, cy + rows - 1, data, 8))
  }

  /** A row that throws ends the sprite: drawing more rows leaves the failed outcome as it is. */
  lemma {:induction false} DrawRowsStaysFailed(m: Machine, cx: nat, cy: nat, rows: nat, more: nat)
    requires Valid(m) && rows <= more && DrawRows(m, cx, cy, rows).status.Failed?
    ensures DrawRows(m, cx, cy, more) == DrawRows(m, cx, cy, rows)
  {
    if rows < more {
      DrawRowsStaysFailed(m, cx, cy, rows, more - 1);
    }
  }

  /** DXYN: VF := 0, then the N-row sprite at I is XORed onto the screen at (VX, VY). */
  function DrawSprite(m: Machine, x: RegisterIndex, y: RegisterIndex, height: Nibble): (o: Outcome)
    requires Valid(m)
    ensures Valid(o.machine) && SameControl(m, o.machine)
  {
    var m1 := SetV(m, VF, 0);
    DrawRows(m1, V(m1, x), V(m1, y), height)
  }

  // ------------------------------------------------------------ FX33, FX55, FX65

  /** FX33: hundreds, tens and units of VX to I, I + 1, I + 2, each write able to throw. */
  function StoreBinaryCodedDecimals(m: Machine, x: RegisterIndex): (o: Outcome)
    requires Valid(m)
    ensures Valid(o.machine) && SameControl(m, o.machine)
  {
    var v := V(m, x);
    match WriteCell(m, m.address, v / 100)
    case Failure(e) => Throw(m, e)
    case Success(m1) =>
      match WriteCell(m1, Offset(m, 1), (v % 100) / 10)
      case Failure(e) => Throw(m1, e)
      case Success(m2) =>
        match WriteCell(m2, Offset(m, 2), (v % 100) % 10)
        case Failure(e) => Throw(m2, e)
        case Success(m3) => Done(m3)
  }

  /** FX55 for the first count registers: V[i] to I + i, each write able to throw. */
  function Dump(m: Machine, count: nat): (o: Outcome)
    requires Valid(m) && count <= RegisterLength
    ensures Valid(o.machine) && SameControl(m, o.machine)
    ensures o.status == Completed(None) || o.status == Failed(IndexOutOfBounds)
  {
    if count == 0 then Done(m)
    else
      var o := Dump(m, count - 1);
      if o.status.Failed? then o
      else match WriteCell(o.machine, Offset(o.machine, count - 1), V(o.machine, count - 1))
        case Failure(e) => Throw(o.machine, e)
        case Success(m1) => Done(m1)
  }

  /** A write that throws ends FX55: the registers after it are not dumped. */
  lemma {:induction false} DumpStaysFailed(m: Machine, count: nat, more: nat)
    requires Valid(m) && count <= more <= RegisterLength && Dump(m, count).status.Failed?
    ensures Dump(m, more) == Dump(m, count)
  {
    if count < more {
      DumpStaysFailed(m, count, more - 1);
    }
  }

  /** FX65 for the first count registers: I + i to V[i], each read able to throw. */
  function Load(m: Machine, count: nat): (o: Outcome)
    requires Valid(m) && count <= RegisterLength
    ensures Valid(o.machine) && SameControl(m, o.machine)
    ensures o.status == Completed(None) || o.status == Failed(IndexOutOfBounds)
  {
    if count == 0 then Done(m)
    else
      var o := Load(m, count - 1);
      if o.status.Failed? then o
      else match ReadCell(o.machine, Offset(o.machine, count - 1))
        case Failure(e) => Throw(o.machine, e)
        case Success(v) => Done(SetV(o.machine, count - 1, v))
  }

  /** A read that throws ends FX65: the registers after it are not loaded. */
  lemma {:induction false} LoadStaysFailed(m: Machine, count: nat, more: nat)
    requires Valid(m) && count <= more <= RegisterLength && Load(m, count).status.Failed?
    ensures Load(m, more) == Load(m, count)
  {
    if count < more {
      LoadStaysFailed(m, count, more - 1);
    }
  }

  // ------------------------------------------------------------ EX9E, EXA1, FX..

  /** FX0A: blocks while no key is pressed and the CPU is not stopped; then VX := the key code as a byte. */
  function WaitForInput(m: Machine, x: RegisterIndex): (o: Outcome)
    requires Valid(m)
    ensures Valid(o.machine) && SameControl(m, o.machine)
  {
    if m.keyCode == NoKey && !m.stop then Outcome(m, AwaitingKey)
    else Done(SetV(m, x, m.keyCode % 0x100))
  }

  /** FX18: the sound timer takes VX, then onValue fires; with none installed that is a NullPointerException. */
  function SetSoundTimer(m: Machine, x: RegisterIndex): (o: Outcome)
    requires Valid(m)
    ensures Valid(o.machine) && SameControl(m, o.machine)
  {
    var m1 := m.(sound := V(m, x));
    match m.onValue
    case None => Throw(m1, NullPointer)
    case Some(i) => Outcome(m1, Completed(Some(i)))
  }

  function OpEXYZ(m: Machine, x: RegisterIndex, y: Nibble): (o: Outcome)
    requires Valid(m)
    ensures Valid(o.machine) && SameControl(m, o.machine)
  {
    match y
    case 0x9 => Done(Skip(m, V(m, x) == m.keyCode))
    case 0xA => Done(Skip(m, V(m, x) != m.keyCode))
    case _ => Throw(m, UnknownOpCode)
  }

  function OpFXYZ(m: Machine, x: RegisterIndex, y: Nibble, z: Nibble): (o: Outcome)
    requires Valid(m)
    ensures Valid(o.machine) && SameControl(m, o.machine)
  {
    match y
    case 0x0 =>
      (match z
       case 0x7 => Done(SetV(m, x, m.delay % 0x100))
       case 0xA => WaitForInput(m, x)
       case _ => Throw(m, UnknownOpCode))
    case 0x1 =>
      (match z
       case 0x5 => Done(m.(delay := V(m, x)))
       case 0x8 => SetSoundTimer(m, x)
       case 0xE => Done(m.(address := (V(m, x) + m.address) % 0x1_0000))
       case _ => Throw(m, UnknownOpCode))
    case 0x2 => Done(m.(address := (V(m, x) * 5) % 0x100))
    case 0x3 => if z == 0x3 then StoreBinaryCodedDecimals(m, x) else Throw(m, UnknownOpCode)
    case 0x5 => if z == 0x5 then Dump(m, x + 1) else Throw(m, UnknownOpCode)
    case 0x6 => if z == 0x5 then Load(m, x + 1) else Throw(m, UnknownOpCode)
    case _ => Throw(m, UnknownOpCode)
  }

  // ------------------------------------------------------------ decode and step

  /**
   * decodeOpCode: dispatch on the first nibble, then on the nibbles each
   * group looks at; r is the value random.nextInt(255) returns for CXNN.
   */
  function Decode(m: Machine, c: OpCode, r: nat): (o: Outcome)
    requires Valid(m) && c.Valid() && r < 255
    ensures Valid(o.machine) && SameControl(m, o.machine)
  {
    var x, y, n := c.nibbles[1], c.nibbles[2], c.nibbles[3];
    var nnn, nn := c.fullOpCode % 0x1000, c.fullOpCode % 0x100;
    match c.nibbles[0]
    case 0x0 =>
      if x != 0 then Throw(m, UnknownOpCode)
      else if n == 0 then Done(ClearScreen(m))
      else ReturnFromSubRoutine(m)
    case 0x1 => Done(GotoOp(m, nnn))
    case 0x2 => Done(CallSubRoutine(m, nnn))
    case 0x3 => Done(Skip(m, V(m, x) == nn))
    case 0x4 => Done(Skip(m, V(m, x) != nn))
    case 0x5 => Done(Skip(m, V(m, x) == V(m, y)))
    case 0x6 => Done(SetV(m, x, nn))
    case 0x7 => Done(SetV(m, x, (V(m, x) + nn) % 0x100))
    case 0x8 => Op8XYN(m, x, y, n)
    case 0x9 => Done(Skip(m, V(m, x) != V(m, y)))
    case 0xA => Done(m.(address := nnn))
    case 0xB => Done(m.(pc := (V(m, 0) + nnn) % 0x1_0000))
    case 0xC => Done(SetV(m, x, BitAnd(nn, r)))
    case 0xD => DrawSprite(m, x, y, n)
    case 0xE => OpEXYZ(m, x, y)
    case 0xF => OpFXYZ(m, x, y, n)
  }

  /**
   * Only FX0A waits, and only while no key is down and the CPU is running;
   * a wait leaves the machine exactly as it was.
   */
  lemma AwaitingKeyOnlyForFX0A(m: Machine, c: OpCode, r: nat)
    requires Valid(m) && c.Valid() && r < 255
    ensures Decode(m, c, r).status.AwaitingKey? <==>
      c.nibbles[0] == 0xF && c.nibbles[2] == 0x0 && c.nibbles[3] == 0xA && m.keyCode == NoKey && !m.stop
    ensures Decode(m, c, r).status.AwaitingKey? ==> Decode(m, c, r).machine == m
  {
  }

  /** The cycle counter advances only while running, and saturates at Integer.MAX_VALUE. */
  function CountCycle(m: Machine): (n: Machine)
    ensures n == m || (m.cycles < IntMax && n == m.(cycles := m.cycles + 1))
  {
    if !m.stop && !m.pause && m.cycles < IntMax then m.(cycles := m.cycles + 1) else m
  }

  /** The word at PC, high byte first, as getNextOpCode assembles it. */
  function Word(high: Byte, low: Byte): (w: Short)
    ensures w / 0x100 == high && w % 0x100 == low
  {
    DivModUnique(high * 0x100 + low, 0x100, high, low);
    high * 0x100 + low
  }

  /**
   * getNextOpCode: the byte at PC, PC + 1, the byte at the new PC, PC + 1.
   * A read outside memory throws with PC advanced past the bytes already read.
   */
  function Fetch(m: Machine): (f: (Machine, Result<OpCode, Exception>))
    requires Valid(m)
    ensures Valid(f.0) && f.0 == m.(pc := f.0.pc)
    ensures f.1.Success? ==> m.pc + 1 < MemoryLength && f.0.pc == m.pc + 2
    ensures f.1.Success? ==> f.1.value == NewOpCode(Word(m.memory[m.pc], m.memory[m.pc + 1]))
    ensures f.1.Failure? ==> f.1.error == IndexOutOfBounds
  {
    // Each increment follows a successful read, so PC < MemoryLength and PC + 1 does not wrap.
    match ReadCell(m, m.pc)
    case Failure(e) => (m, Failure(e))
    case Success(high) =>
      var m1 := m.(pc := m.pc + 1);
      match ReadCell(m1, m1.pc)
      case Failure(e) => (m1, Failure(e))
      case Success(low) => (m1.(pc := m1.pc + 1), Success(NewOpCode(Word(high, low))))
  }

  /**
   * decodeNextOpCode: fetch, decode and execute, then count the cycle. While
   * FX0A waits for a key the machine is as before the fetch, so the same
   * instruction runs again once a key is pressed or the CPU is stopped.
   */
  function Step(m: Machine, r: nat): (o: Outcome)
    requires Valid(m) && r < 255
    ensures Valid(o.machine)
    ensures o.status.AwaitingKey? ==> o.machine == m
  {
    var f := Fetch(m);
    match f.1
    case Failure(e) => Throw(f.0, e)
    case Success(c) =>
      var o := Decode(f.0, c, r);
      match o.status
      case Completed(_) => Outcome(CountCycle(o.machine), o.status)
      case AwaitingKey => Outcome(m, AwaitingKey)
      case Failed(_) => o
  }

  /** One tick of the timer thread: both timers count down. */
  function TickTimers(m: Machine): Machine
  {
    m.(delay := Tick(m.delay), sound := Tick(m.sound))
  }
}
