/**
 * The central processing unit: the hardware components it drives and the
 * handlers of decodeNextOpCode, each of which reads and pokes the
 * components in place. Snapshot() reads the whole machine as a Semantics
 * value, and every handler is proved to change it exactly as the
 * corresponding function of Semantics says.
 */
module Cpu {
  import opened Wrappers
  import opened JavaText
  import opened Bits
  import opened Unsigned
  import opened OpCodes
  import opened Constants
  import opened Exceptions
  import opened Keys
  import opened Timers
  import opened Semantics
  import Mem = Memory
  import Reg = Registers
  import Scr = ScreenMemory
  import Stk = Chip8Stack
  import PC = ProgramCounter
  import AR = AddressRegister

  /** The operation strings "|", "&" and "^" of assignLogicOperation. */
  datatype LogicOperation = Or | And | Xor

  /** The two register actions of interactWithReg: FX55 dumps V0..VX to memory, FX65 loads them. */
  datatype RegisterAction = Dump | Load

  /** interactWithReg on the first count registers, as Semantics states it. */
  function Interaction(m: Machine, action: RegisterAction, count: nat): (o: Outcome)
    requires Semantics.Valid(m) && count <= RegisterLength
  {
    if action == Dump then Semantics.Dump(m, count) else Semantics.Load(m, count)
  }

  /** Once a register action has thrown, the later registers are not touched. */
  lemma InteractionStaysFailed(m: Machine, action: RegisterAction, count: nat, more: nat)
    requires Semantics.Valid(m) && count <= more <= RegisterLength
    requires Interaction(m, action, count).status.Failed?
    ensures Interaction(m, action, more) == Interaction(m, action, count)
  {
    if action == Dump {
      DumpStaysFailed(m, count, more);
    } else {
      LoadStaysFailed(m, count, more);
    }
  }

  class CentralProcessingUnit {
    const memory: Mem.Memory
    const screenMemory: Scr.ScreenMemory
    const registers: Reg.Registers
    const addressRegister: AR.AddressRegister
    const programCounter: PC.ProgramCounter
    const stack: Stk.Chip8Stack
    const delayTimer: Timer
    const soundTimer: SoundTimer
    var keyCode: Int32
    var opCodeString: string
    var cycles: Int32
    var stop: bool
    var pause: bool

    ghost predicate Valid()
      reads this, memory, registers, screenMemory, soundTimer
    {
      memory.Valid() && registers.Valid() && screenMemory.Valid()
      && memory.cells != registers.cells && delayTimer != soundTimer.timer
    }

    /** The machine as Semantics sees it. */
    ghost function Snapshot(): (m: Machine)
      requires Valid()
      reads this, memory, memory.cells, registers, registers.cells, screenMemory, screenMemory.pixels
      reads stack, programCounter, addressRegister, delayTimer, soundTimer, soundTimer.timer
      ensures Semantics.Valid(m)
    {
      Machine(memory.cells[..], registers.cells[..], screenMemory.Grid(), stack.contents,
        programCounter.count, addressRegister.address, delayTimer.value, soundTimer.timer.value,
        soundTimer.onValue, keyCode, stop, pause, cycles)
    }

    /** The constructor without a synthesizer: both sound callbacks are empty actions. */
    constructor (memory: Mem.Memory, screenMemory: Scr.ScreenMemory, registers: Reg.Registers,
                 addressRegister: AR.AddressRegister, programCounter: PC.ProgramCounter,
                 stack: Stk.Chip8Stack, delayTimer: Timer, soundTimer: SoundTimer)
      requires memory.Valid() && registers.Valid() && screenMemory.Valid()
      requires memory.cells != registers.cells && delayTimer != soundTimer.timer
      modifies soundTimer, soundTimer.timer
      ensures Valid()
      ensures this.memory == memory && this.screenMemory == screenMemory && this.registers == registers
      ensures this.addressRegister == addressRegister && this.programCounter == programCounter
      ensures this.stack == stack && this.delayTimer == delayTimer && this.soundTimer == soundTimer
      ensures soundTimer.onValue == Some(DoNothing) && soundTimer.timer.onZero == Some(DoNothing)
      ensures soundTimer.timer.value == old(soundTimer.timer.value)
      ensures keyCode == NoKey && opCodeString == "" && cycles == 0 && !stop && !pause
    {
      this.memory := memory;
      this.screenMemory := screenMemory;
      this.registers := registers;
      this.addressRegister := addressRegister;
      this.programCounter := programCounter;
      this.stack := stack;
      this.delayTimer := delayTimer;
      this.soundTimer := soundTimer;
      keyCode := NoKey;
      opCodeString := "";
      cycles := 0;
      stop := false;
      pause := false;
      new;
      soundTimer.SetOnValue(DoNothing);
      soundTimer.timer.SetOnZero(DoNothing);
    }

    /**
     * The constructor with a synthesizer: when there is one, the sound timer
     * plays a note on every set value and stops it at zero; when there is
     * none, the callbacks are left as they were.
     */
    constructor WithSynthesizer(memory: Mem.Memory, screenMemory: Scr.ScreenMemory, registers: Reg.Registers,
                                addressRegister: AR.AddressRegister, programCounter: PC.ProgramCounter,
                                stack: Stk.Chip8Stack, delayTimer: Timer, soundTimer: SoundTimer,
                                hasSynthesizer: bool)
      requires memory.Valid() && registers.Valid() && screenMemory.Valid()
      requires memory.cells != registers.cells && delayTimer != soundTimer.timer
      modifies soundTimer, soundTimer.timer
      ensures Valid()
      ensures this.memory == memory && this.screenMemory == screenMemory && this.registers == registers
      ensures this.addressRegister == addressRegister && this.programCounter == programCounter
      ensures this.stack == stack && this.delayTimer == delayTimer && this.soundTimer == soundTimer
      ensures hasSynthesizer ==> soundTimer.onValue == Some(NoteOn) && soundTimer.timer.onZero == Some(NoteOff)
      ensures !hasSynthesizer ==>
        soundTimer.onValue == old(soundTimer.onValue) && soundTimer.timer.onZero == old(soundTimer.timer.onZero)
      ensures soundTimer.timer.value == old(soundTimer.timer.value)
      ensures keyCode == NoKey && opCodeString == "" && cycles == 0 && !stop && !pause
    {
      this.memory := memory;
      this.screenMemory := screenMemory;
      this.registers := registers;
      this.addressRegister := addressRegister;
      this.programCounter := programCounter;
      this.stack := stack;
      this.delayTimer := delayTimer;
      this.soundTimer := soundTimer;
      keyCode := NoKey;
      opCodeString := "";
      cycles := 0;
      stop := false;
      pause := false;
      new;
      if hasSynthesizer {
        soundTimer.SetOnValue(NoteOn);
        soundTimer.timer.SetOnZero(NoteOff);
      }
    }

    // ---------------------------------------------------------- control

    /** reset: registers, PC, screen, I, both timers, the stack and the cycle count back to their start values. */
    method Reset()
      requires Valid()
      modifies this, registers.cells, programCounter, screenMemory.pixels, addressRegister
      modifies delayTimer, soundTimer.timer, stack
      ensures Valid()
      ensures Snapshot() == old(Snapshot()).(
        registers := seq(RegisterLength, _ => 0), pc := ProgramCounterStart, screen := Scr.BlankScreen(),
        address := 0, delay := 0, sound := 0, stack := [], cycles := 0)
    {
      cycles := 0;
      registers.Clear();
      programCounter.JumpTo(NewUnsignedShort(ProgramCounterStart).s);
      screenMemory.Reset();
      addressRegister.SetAddress(NewUnsignedShort(0).s);
      delayTimer.Reset();
      soundTimer.timer.Reset();
      stack.Clear();
      assert registers.cells[..] == seq(RegisterLength, _ => 0);
    }

    /** clearMemory: the program area is zeroed, the interpreter area below it kept. */
    method ClearMemory()
      requires Valid()
      modifies memory.cells
      ensures Snapshot() == old(Snapshot()).(memory := memory.cells[..])
      ensures forall i :: 0 <= i < MemoryLength ==>
        memory.cells[i] == if i < ProgramCounterStart then old(memory.cells[i]) else 0
    {
      memory.Clear();
    }

    /** updateTimer: one tick of both timers, reporting the onZero callbacks that fired. */
    method UpdateTimer() returns (delayFired: Option<Interrupt>, soundFired: Option<Interrupt>)
      requires Valid()
      modifies delayTimer, soundTimer.timer
      ensures Snapshot() == TickTimers(old(Snapshot()))
      ensures delayFired == if old(delayTimer.value) == 0 then delayTimer.onZero else None
      ensures soundFired == if old(soundTimer.timer.value) == 0 then soundTimer.timer.onZero else None
    {
      delayFired := delayTimer.DecrementValue();
      soundFired := soundTimer.timer.DecrementValue();
    }

    method SetKeyCode(code: Int32)
      requires Valid()
      modifies this
      ensures Valid() && Snapshot() == old(Snapshot()).(keyCode := code)
    {
      keyCode := code;
    }

    method SetStop(isStop: bool)
      requires Valid()
      modifies this
      ensures Valid() && Snapshot() == old(Snapshot()).(stop := isStop)
    {
      stop := isStop;
    }

    method SetPause(isPause: bool)
      requires Valid()
      modifies this
      ensures Valid() && Snapshot() == old(Snapshot()).(pause := isPause)
    {
      pause := isPause;
    }

    method SetCycles(count: Int32)
      requires Valid()
      modifies this
      ensures Valid() && Snapshot() == old(Snapshot()).(cycles := count)
    {
      cycles := count;
    }

    method SetOpCode(text: string)
      requires Valid()
      modifies this
      ensures Valid() && Snapshot() == old(Snapshot()) && opCodeString == text
    {
      opCodeString := text;
    }

    // ---------------------------------------------------------- fetch, decode

    /**
     * decodeNextOpCode: fetch, decode and execute, then count the cycle
     * unless stopped, paused or saturated. The wait of FX0A is the outcome
     * AwaitingKey, with PC set back so that the same word is fetched again.
     */
    method DecodeNextOpCode(r: nat) returns (status: Status)
      requires Valid() && r < 255
      modifies this, memory.cells, registers.cells, screenMemory.pixels, stack, programCounter
      modifies addressRegister, delayTimer, soundTimer.timer
      ensures Valid()
      ensures Outcome(Snapshot(), status) == Step(old(Snapshot()), r)
    {
      var start := programCounter.GetCounter();
      ghost var m := Snapshot();
      var fetched := GetNextOpCode();
      if fetched.Failure? {
        return Failed(fetched.error);
      }
      ghost var m1 := Snapshot();
      assert m1 == m.(pc := m1.pc);
      ghost var decoded := Decode(m1, fetched.value, r);
      AwaitingKeyOnlyForFX0A(m1, fetched.value, r);
      assert Step(m, r) == match decoded.status
        case Completed(_) => Outcome(CountCycle(decoded.machine), decoded.status)
        case AwaitingKey => Outcome(m, AwaitingKey)
        case Failed(_) => decoded;
      status := DecodeOpCode(fetched.value, r);
      if status.AwaitingKey? {
        assert Snapshot() == m1;
        RollBack(start);
        assert Snapshot() == m;
      } else if status.Completed? {
        assert Snapshot() == decoded.machine;
        IncrementCycles();
      }
    }

    /** While FX0A waits, PC goes back to the wait instruction so that it runs again. */
    method RollBack(start: Short)
      requires Valid()
      modifies programCounter
      ensures Valid() && Snapshot() == old(Snapshot()).(pc := start)
    {
      programCounter.JumpTo(start);
    }

    /** The cycle counter after an executed instruction: one more while running, saturating at Integer.MAX_VALUE. */
    method IncrementCycles()
      requires Valid()
      modifies this
      ensures Valid() && Snapshot() == Semantics.CountCycle(old(Snapshot()))
    {
      if !stop && !pause && cycles < IntMax {
        cycles := cycles + 1;
      }
    }

    /** (high << 8) | low, the word getNextOpCode assembles from its two reads. */
    static method Assemble(high: Byte, low: Byte) returns (opCode: Short)
      ensures opCode == Word(high, low)
    {
      opCode := high * 0x100;
      Pow2Nibbles();
      OrLowBits(high, low, 8);
      opCode := BitOr(opCode, low);
    }

    /** getNextOpCode: the byte at PC shifted left by eight, or-ed with the byte after it. */
    method GetNextOpCode() returns (r: Result<OpCode, Exception>)
      requires Valid()
      modifies programCounter
      ensures (Snapshot(), r) == Fetch(old(Snapshot()))
    {
      ghost var m := Snapshot();
      var high := memory.Read(programCounter.GetCounter());
      if high.Failure? {
        return Failure(high.error);
      }
      IncrementPC();
      assert Snapshot() == m.(pc := m.pc + 1);
      var low := memory.Read(programCounter.GetCounter());
      if low.Failure? {
        return Failure(low.error);
      }
      var opCode := Assemble(high.value, low.value);
      IncrementPC();
      assert Snapshot() == m.(pc := m.pc + 2);
      r := Success(NewOpCode(opCode));
    }

    /** programCounter.incrementCounter(), seen on the whole machine: PC + 1 in 16 bits. */
    method IncrementPC()
      requires Valid()
      modifies programCounter
      ensures Valid() && Snapshot() == old(Snapshot()).(pc := (old(programCounter.count) + 1) % 0x1_0000)
    {
      programCounter.IncrementCounter();
    }

    /**
     * decodeOpCode: the switch on the first nibble. The source has one
     * switch over all sixteen groups; here its cases are taken four groups
     * at a time by DecodeOpCode0To3 .. DecodeOpCodeCToF, only so that each
     * proof against Decode stays small. The cases themselves are the
     * source's, in its order.
     */
    method DecodeOpCode(opCode: OpCode, r: nat) returns (status: Status)
      requires Valid() && opCode.Valid() && r < 255
      modifies memory.cells, registers.cells, screenMemory.pixels, stack, programCounter
      modifies addressRegister, delayTimer, soundTimer.timer
      ensures Outcome(Snapshot(), status) == Decode(old(Snapshot()), opCode, r)
    {
      var group := GetByte(opCode, 0);
      if group < 0x4 {
        status := DecodeOpCode0To3(opCode);
      } else if group < 0x8 {
        status := DecodeOpCode4To7(opCode);
      } else if group < 0xC {
        status := DecodeOpCode8ToB(opCode);
      } else {
        status := DecodeOpCodeCToF(opCode, r);
      }
    }

    /** decodeOpCode for the first nibbles 0 to 3: screen clear and return, jump, call, skip on VX == NN. */
    method DecodeOpCode0To3(opCode: OpCode) returns (status: Status)
      requires Valid() && opCode.Valid() && GetByte(opCode, 0) < 0x4
      modifies screenMemory.pixels, stack, programCounter
      ensures Outcome(Snapshot(), status) == Decode(old(Snapshot()), opCode, 0)
    {
      status := Completed(None);
      match GetByte(opCode, 0)
      case 0x0 => status := OpCode0XYZ(opCode);
      case 0x1 =>
        var nnn := MaskAddress(opCode);
        GotoOp(nnn);
      case 0x2 =>
        var nnn := MaskAddress(opCode);
        CallSubRoutine(nnn);
      case 0x3 =>
        var nn := MaskByte(opCode);
        SkipIfEqual(GetByte(opCode, 1), NewUnsignedByte(nn));
    }

    /** decodeOpCode for the first nibbles 4 to 7: skips, VX := NN and VX += NN. */
    method DecodeOpCode4To7(opCode: OpCode) returns (status: Status)
      requires Valid() && opCode.Valid() && 0x4 <= GetByte(opCode, 0) < 0x8
      modifies registers.cells, programCounter
      ensures Outcome(Snapshot(), status) == Decode(old(Snapshot()), opCode, 0)
    {
      status := Completed(None);
      match GetByte(opCode, 0)
      case 0x4 =>
        var nn := MaskByte(opCode);
        SkipIfNotEqual(GetByte(opCode, 1), NewUnsignedByte(nn));
      case 0x5 => SkipIfEqualReg(GetByte(opCode, 1), GetByte(opCode, 2));
      case 0x6 =>
        var nn := MaskByte(opCode);
        SetRegister(GetByte(opCode, 1), NewUnsignedByte(nn));
      case 0x7 =>
        var nn := MaskByte(opCode);
        AddRegister(GetByte(opCode, 1), NewUnsignedByte(nn));
    }

    /** decodeOpCode for the first nibbles 8 to B: register arithmetic, skip, I := NNN, jump to V0 + NNN. */
    method DecodeOpCode8ToB(opCode: OpCode) returns (status: Status)
      requires Valid() && opCode.Valid() && 0x8 <= GetByte(opCode, 0) < 0xC
      modifies registers.cells, programCounter, addressRegister
      ensures Outcome(Snapshot(), status) == Decode(old(Snapshot()), opCode, 0)
    {
      status := Completed(None);
      match GetByte(opCode, 0)
      case 0x8 => status := OpCode8XYN(opCode);
      case 0x9 => SkipIfNotEqualReg(GetByte(opCode, 1), GetByte(opCode, 2));
      case 0xA =>
        var nnn := MaskAddress(opCode);
        SetAddress(NewUnsignedShort(nnn));
      case 0xB =>
        var nnn := MaskAddress(opCode);
        SetPC(NewUnsignedShort(nnn));
    }

    /** decodeOpCode for the first nibbles C to F; CXNN uses the random value r. */
    method DecodeOpCodeCToF(opCode: OpCode, r: nat) returns (status: Status)
      requires Valid() && opCode.Valid() && 0xC <= GetByte(opCode, 0) && r < 255
      modifies memory.cells, registers.cells, screenMemory.pixels, programCounter
      modifies addressRegister, delayTimer, soundTimer.timer
      ensures Outcome(Snapshot(), status) == Decode(old(Snapshot()), opCode, r)
    {
      status := Completed(None);
      match GetByte(opCode, 0)
      case 0xC =>
        var nn := MaskByte(opCode);
        RandomAnd(GetByte(opCode, 1), NewUnsignedByte(nn), r);
      case 0xD => status := DrawSprite(GetByte(opCode, 1), GetByte(opCode, 2), GetByte(opCode, 3));
      case 0xE => status := OpCodeEXYZ(opCode);
      case 0xF => status := OpCodeFXYZ(opCode);
    }

    /** opCode & 0x0FFF: the address NNN, the low three nibbles. */
    static method MaskAddress(opCode: OpCode) returns (nnn: nat)
      ensures nnn == opCode.fullOpCode % 0x1000
    {
      LowMasks(opCode);
      nnn := ApplyMask(opCode, 0x0FFF);
    }

    /** opCode & 0x00FF: the constant NN, the low byte. */
    static method MaskByte(opCode: OpCode) returns (nn: nat)
      ensures nn == opCode.fullOpCode % 0x100
    {
      LowMasks(opCode);
      nn := ApplyMask(opCode, 0x00FF);
    }

    /** The 0 group: 00?0 clears the screen, 00?N with N != 0 returns, anything else is unknown. */
    method OpCode0XYZ(opCode: OpCode) returns (status: Status)
      requires Valid() && opCode.Valid() && GetByte(opCode, 0) == 0
      modifies screenMemory.pixels, stack, programCounter
      ensures Outcome(Snapshot(), status) == Decode(old(Snapshot()), opCode, 0)
    {
      if GetByte(opCode, 1) != 0 {
        return Failed(UnknownOpCode);
      }
      if GetByte(opCode, 3) == 0 {
        screenMemory.Reset();
        status := Completed(None);
      } else {
        status := ReturnFromSubRoutine();
      }
    }

    /** The F group, dispatched on the third nibble and then on the fourth. */
    method OpCodeFXYZ(opCode: OpCode) returns (status: Status)
      requires Valid() && opCode.Valid()
      modifies memory.cells, registers.cells, addressRegister, delayTimer, soundTimer.timer
      ensures Outcome(Snapshot(), status) == OpFXYZ(old(Snapshot()), opCode.nibbles[1], opCode.nibbles[2], opCode.nibbles[3])
    {
      var x, z := GetByte(opCode, 1), GetByte(opCode, 3);
      match GetByte(opCode, 2)
      case 0x0 => status := OpCodeFX0Y(x, z);
      case 0x1 => status := OpCodeFX1Y(x, z);
      case 0x2 =>
        GotoSpriteAddress(x);
        status := Completed(None);
      case 0x3 =>
        if z == 0x3 {
          status := StoreBinaryCodedDecimals(x);
        } else {
          status := Failed(UnknownOpCode);
        }
      case 0x5 =>
        if z == 0x5 {
          status := InteractWithReg(x, Dump);
        } else {
          status := Failed(UnknownOpCode);
        }
      case 0x6 =>
        if z == 0x5 {
          status := InteractWithReg(x, Load);
        } else {
          status := Failed(UnknownOpCode);
        }
      case _ => status := Failed(UnknownOpCode);
    }

    method OpCodeFX0Y(x: Nibble, z: Nibble) returns (status: Status)
      requires Valid()
      modifies registers.cells
      ensures Outcome(Snapshot(), status) == OpFXYZ(old(Snapshot()), x, 0x0, z)
    {
      if z == 0x7 {
        GetDelayTimer(x);
        status := Completed(None);
      } else if z == 0xA {
        status := WaitForInput(x);
      } else {
        status := Failed(UnknownOpCode);
      }
    }

    method OpCodeFX1Y(x: Nibble, z: Nibble) returns (status: Status)
      requires Valid()
      modifies addressRegister, delayTimer, soundTimer.timer
      ensures Outcome(Snapshot(), status) == OpFXYZ(old(Snapshot()), x, 0x1, z)
    {
      if z == 0x5 {
        SetDelayTimer(x);
        status := Completed(None);
      } else if z == 0x8 {
        status := SetSoundTimer(x);
      } else if z == 0xE {
        SetAddressReg(x);
        status := Completed(None);
      } else {
        status := Failed(UnknownOpCode);
      }
    }

    /** The E group: EX9E and EXA1 skip on the pressed key; the fourth nibble is not looked at. */
    method OpCodeEXYZ(opCode: OpCode) returns (status: Status)
      requires Valid() && opCode.Valid()
      modifies programCounter
      ensures Outcome(Snapshot(), status) == OpEXYZ(old(Snapshot()), opCode.nibbles[1], opCode.nibbles[2])
    {
      status := Completed(None);
      if GetByte(opCode, 2) == 0x9 {
        SkipIfKeyPressed(GetByte(opCode, 1));
      } else if GetByte(opCode, 2) == 0xA {
        SkipIfKeyNotPressed(GetByte(opCode, 1));
      } else {
        status := Failed(UnknownOpCode);
      }
    }

    /** The 8 group, dispatched on the last nibble. */
    method OpCode8XYN(opCode: OpCode) returns (status: Status)
      requires Valid() && opCode.Valid()
      modifies registers.cells
      ensures Outcome(Snapshot(), status) == Op8XYN(old(Snapshot()), opCode.nibbles[1], opCode.nibbles[2], opCode.nibbles[3])
    {
      var x, y := GetByte(opCode, 1), GetByte(opCode, 2);
      status := Completed(None);
      match GetByte(opCode, 3)
      case 0x0 => Assign(x, y);
      case 0x1 => AssignLogicOperation(Or, x, y);
      case 0x2 => AssignLogicOperation(And, x, y);
      case 0x3 => AssignLogicOperation(Xor, x, y);
      case 0x4 => AssignArithmeticOperation(true, x, y, x);
      case 0x5 => AssignArithmeticOperation(false, x, y, x);
      case 0x6 => ShiftRight(x);
      case 0x7 => AssignArithmeticOperation(false, y, x, x);
      case 0xE => ShiftLeft(x);
      case _ => status := Failed(UnknownOpCode);
    }

    // ---------------------------------------------------------- registers

    /** peek(Vx) as an UnsignedByte. */
    function Peek(x: Nibble): (u: UnsignedDataType)
      requires Valid()
      reads this, memory, registers, registers.cells, screenMemory, soundTimer
      ensures u == UnsignedByte(registers.cells[x], false)
    {
      NewUnsignedByte(registers.Peek(x).value)
    }

    method SetRegister(x: Nibble, value: UnsignedDataType)
      requires Valid() && value.UnsignedByte?
      modifies registers.cells
      ensures Snapshot() == SetV(old(Snapshot()), x, value.b)
    {
      PokeRegister(x, value.b);
    }

    /** 7XNN: VX := VX + NN as a byte; VF is not touched. */
    method AddRegister(x: Nibble, value: UnsignedDataType)
      requires Valid() && value.UnsignedByte?
      modifies registers.cells
      ensures Snapshot() == SetV(old(Snapshot()), x, (old(registers.cells[x]) + value.b) % 0x100)
    {
      PokeRegister(x, ApplyWithByte(Peek(x), (a, b) => a + b, value).b);
    }

    method Assign(x: Nibble, y: Nibble)
      requires Valid()
      modifies registers.cells
      ensures Snapshot() == Op8XYN(old(Snapshot()), x, y, 0x0).machine
    {
      PokeRegister(x, registers.Peek(y).value);
    }

    method AssignLogicOperation(operation: LogicOperation, x: Nibble, y: Nibble)
      requires Valid()
      modifies registers.cells
      ensures Snapshot() == Op8XYN(old(Snapshot()), x, y, match operation case Or => 0x1 case And => 0x2 case Xor => 0x3).machine
    {
      var result;
      match operation {
        case Or => result := ApplyWithByte(Peek(x), (a: nat, b: nat) => BitOr(a, b), Peek(y));
        case And =>
          result := ApplyWithByte(Peek(x), (a: nat, b: nat) => BitAnd(a, b), Peek(y));
          assert result.b == BitAnd(registers.cells[x], registers.cells[y]);
        case Xor => result := ApplyWithByte(Peek(x), (a: nat, b: nat) => BitXor(a, b), Peek(y));
      }
      PokeRegister(x, result.b);
    }

    /** VZ := VX op VY, with the carry or borrow flag written to VF before VZ. */
    method AssignArithmeticOperation(add: bool, x: Nibble, y: Nibble, z: Nibble)
      requires Valid()
      modifies registers.cells
      ensures Snapshot() == Semantics.ArithmeticOperation(old(Snapshot()), x, y, z, add)
    {
      var result;
      if add {
        result := ArithmeticOperation(x, y, (a, b) => a + b, 1, 0);
      } else {
        result := ArithmeticOperation(x, y, (a, b) => a - b, 0, 1);
      }
      PokeRegister(z, result.b);
    }

    method ArithmeticOperation(x: Nibble, y: Nibble, op: (nat, nat) -> int, onOverflow: Byte, noOverflow: Byte)
      returns (result: UnsignedDataType)
      requires Valid()
      modifies registers.cells
      ensures result == NewUnsignedByte(op(old(registers.cells[x]), old(registers.cells[y])))
      ensures Snapshot() == SetV(old(Snapshot()), VF, if result.overflow then onOverflow else noOverflow)
    {
      result := ApplyWithByte(Peek(x), op, Peek(y));
      SetBorrowCarryFlag(result, onOverflow, noOverflow);
    }

    method SetBorrowCarryFlag(value: UnsignedDataType, onOverflow: Byte, noOverflow: Byte)
      requires Valid()
      modifies registers.cells
      ensures Snapshot() == SetV(old(Snapshot()), VF, if LastOperationLeadToOverflow(value) then onOverflow else noOverflow)
    {
      if LastOperationLeadToOverflow(value) {
        PokeRegister(0xF, NewUnsignedByte(onOverflow).b);
      } else {
        PokeRegister(0xF, NewUnsignedByte(noOverflow).b);
      }
    }

    method ShiftRight(x: Nibble)
      requires Valid()
      modifies registers.cells
      ensures Snapshot() == Semantics.ShiftRight(old(Snapshot()), x)
    {
      var leastSignificantBit, result := ShiftedRight(Peek(x));
      PokeRegister(x, result);
      PokeRegister(0xF, leastSignificantBit);
    }

    /** The two values 8XY6 takes from VX: VX & 1, and VX >> 1. */
    static method ShiftedRight(value: UnsignedDataType) returns (leastSignificantBit: Byte, result: Byte)
      requires value.UnsignedByte?
      ensures leastSignificantBit == value.b % 2 && result == value.b / 2
    {
      LowMask(value.b, 1);
      leastSignificantBit := ApplyUnary(value, (a: nat) => BitAnd(a, 1)).b;
      result := ApplyUnary(value, (a: nat) => a / 2).b;
    }

    method ShiftLeft(x: Nibble)
      requires Valid()
      modifies registers.cells
      ensures Snapshot() == Semantics.ShiftLeft(old(Snapshot()), x)
    {
      var mostSignificantBit, result := ShiftedLeft(Peek(x));
      PokeRegister(x, result);
      PokeRegister(0xF, mostSignificantBit);
    }

    /** The two values 8XYE takes from VX: (VX & 0x80) >> 7, and VX << 1 as a byte. */
    static method ShiftedLeft(value: UnsignedDataType) returns (mostSignificantBit: Byte, result: Byte)
      requires value.UnsignedByte?
      ensures mostSignificantBit == value.b / 0x80 && result == (value.b as int * 2) % 0x100
    {
      HighBit(value.b);
      mostSignificantBit := ApplyUnary(value, (a: nat) => BitAnd(a, 0x80) / 0x80).b;
      result := ApplyUnary(value, (a: nat) => 2 * a).b;
    }

    /** registers.poke(x, value), seen on the whole machine: only VX changes. */
    method PokeRegister(x: Nibble, value: Byte)
      requires Valid()
      modifies registers.cells
      ensures Valid() && Snapshot() == SetV(old(Snapshot()), x, value)
    {
      var ok := registers.Poke(x, value);
    }

    /** CXNN: VX := NN & r, where r is the value random.nextInt(255) returned. */
    method RandomAnd(x: Nibble, value: UnsignedDataType, r: nat)
      requires Valid() && value.UnsignedByte? && r < 255
      modifies registers.cells
      ensures Snapshot() == SetV(old(Snapshot()), x, BitAnd(value.b, r))
    {
      var result := ApplyWithByte(value, (a: nat, b: nat) => BitAnd(a, b), NewUnsignedByte(r));
      PokeRegister(x, result.b);
    }

    // ---------------------------------------------------------- PC, stack, I

    method ReturnFromSubRoutine() returns (status: Status)
      requires Valid()
      modifies stack, programCounter
      ensures Outcome(Snapshot(), status) == Semantics.ReturnFromSubRoutine(old(Snapshot()))
    {
      var top := stack.Pop();
      if top.Failure? {
        return Failed(top.error);
      }
      programCounter.JumpTo(top.value);
      status := Completed(None);
    }

    method GotoOp(address: nat)
      requires Valid() && address < 0x1000
      modifies programCounter
      ensures Snapshot() == Semantics.GotoOp(old(Snapshot()), address)
    {
      programCounter.JumpTo(NewUnsignedShort(address).s);
    }

    /** 2NNN: push the counter (already past this instruction), then jump. */
    method CallSubRoutine(address: nat)
      requires Valid() && address < 0x1000
      modifies stack, programCounter
      ensures Snapshot() == Semantics.CallSubRoutine(old(Snapshot()), address)
    {
      stack.Push(programCounter.GetCounter());
      programCounter.JumpTo(NewUnsignedShort(address).s);
    }

    method SkipIfEqual(x: Nibble, value: UnsignedDataType)
      requires Valid() && value.UnsignedByte?
      modifies programCounter
      ensures Snapshot() == Skip(old(Snapshot()), old(registers.cells[x]) == value.b)
    {
      if Equals(Peek(x), value) {
        programCounter.IncrementCounterN(2);
      }
    }

    method SkipIfNotEqual(x: Nibble, value: UnsignedDataType)
      requires Valid() && value.UnsignedByte?
      modifies programCounter
      ensures Snapshot() == Skip(old(Snapshot()), old(registers.cells[x]) != value.b)
    {
      if !Equals(Peek(x), value) {
        programCounter.IncrementCounterN(2);
      }
    }

    method SkipIfEqualReg(x: Nibble, y: Nibble)
      requires Valid()
      modifies programCounter
      ensures Snapshot() == Skip(old(Snapshot()), old(registers.cells[x]) == old(registers.cells[y]))
    {
      if Equals(Peek(x), Peek(y)) {
        programCounter.IncrementCounterN(2);
      }
    }

    method SkipIfNotEqualReg(x: Nibble, y: Nibble)
      requires Valid()
      modifies programCounter
      ensures Snapshot() == Skip(old(Snapshot()), old(registers.cells[x]) != old(registers.cells[y]))
    {
      if !Equals(Peek(x), Peek(y)) {
        programCounter.IncrementCounterN(2);
      }
    }

    method SkipIfKeyPressed(x: Nibble)
      requires Valid()
      modifies programCounter
      ensures Snapshot() == Skip(old(Snapshot()), old(registers.cells[x]) == keyCode)
    {
      if Peek(x).Value() == keyCode {
        programCounter.IncrementCounterN(2);
      }
    }

    method SkipIfKeyNotPressed(x: Nibble)
      requires Valid()
      modifies programCounter
      ensures Snapshot() == Skip(old(Snapshot()), old(registers.cells[x]) != keyCode)
    {
      if !(Peek(x).Value() == keyCode) {
        programCounter.IncrementCounterN(2);
      }
    }

    method SetAddress(address: UnsignedDataType)
      requires Valid() && address.UnsignedShort?
      modifies addressRegister
      ensures Snapshot() == old(Snapshot()).(address := address.s)
    {
      addressRegister.SetAddress(address.s);
    }

    /** BNNN: PC := V0 + NNN as a short. */
    method SetPC(address: UnsignedDataType)
      requires Valid() && address.UnsignedShort?
      modifies programCounter
      ensures Snapshot() == old(Snapshot()).(pc := (old(registers.cells[0]) + address.s) % 0x1_0000)
    {
      var result := ApplyWithShort(Peek(0), (a, b) => a + b, address);
      programCounter.JumpTo(result.s);
    }

    // ---------------------------------------------------------- FX..

    method GotoSpriteAddress(x: Nibble)
      requires Valid()
      modifies addressRegister
      ensures Snapshot() == OpFXYZ(old(Snapshot()), x, 0x2, 0x9).machine
    {
      ghost var m := Snapshot();
      assert OpFXYZ(m, x, 0x2, 0x9).machine == m.(address := (V(m, x) * 5) % 0x100);
      var address := SpriteAddress(Peek(x));
      addressRegister.SetAddress(NewUnsignedShort(address).s);
    }

    /** VX.applyUnary(v -> v * 5): the glyph of digit VX starts at 5 * VX, taken as a byte. */
    static method SpriteAddress(value: UnsignedDataType) returns (address: Byte)
      requires value.UnsignedByte?
      ensures address == (value.b as int * 5) % 0x100
    {
      address := ApplyUnary(value, (a: nat) => a * 5).b;
    }

    method GetDelayTimer(x: Nibble)
      requires Valid()
      modifies registers.cells
      ensures Snapshot() == OpFXYZ(old(Snapshot()), x, 0x0, 0x7).machine
    {
      PokeRegister(x, NewUnsignedByte(delayTimer.GetValue()).b);
    }

    /** FX0A: the poll loop of the source becomes the outcome AwaitingKey, with nothing changed. */
    method WaitForInput(x: Nibble) returns (status: Status)
      requires Valid()
      modifies registers.cells
      ensures Outcome(Snapshot(), status) == Semantics.WaitForInput(old(Snapshot()), x)
    {
      if keyCode == NoKey && !stop {
        return AwaitingKey;
      }
      PokeRegister(x, NewUnsignedByte(keyCode).b);
      status := Completed(None);
    }

    method SetDelayTimer(x: Nibble)
      requires Valid()
      modifies delayTimer
      ensures Snapshot() == OpFXYZ(old(Snapshot()), x, 0x1, 0x5).machine
    {
      delayTimer.SetValue(Peek(x).Value());
    }

    method SetSoundTimer(x: Nibble) returns (status: Status)
      requires Valid()
      modifies soundTimer.timer
      ensures Outcome(Snapshot(), status) == Semantics.SetSoundTimer(old(Snapshot()), x)
    {
      var fired := soundTimer.SetValue(Peek(x).Value());
      status := if fired.Success? then Completed(Some(fired.value)) else Failed(fired.error);
    }

    /** FX1E: I := VX + I as a short. */
    method SetAddressReg(x: Nibble)
      requires Valid()
      modifies addressRegister
      ensures Snapshot() == OpFXYZ(old(Snapshot()), x, 0x1, 0xE).machine
    {
      var result := ApplyWithShort(Peek(x), (a, b) => a + b, UnsignedShort(addressRegister.GetAddress()));
      addressRegister.SetAddress(result.s);
    }

    method StoreBinaryCodedDecimals(x: Nibble) returns (status: Status)
      requires Valid()
      modifies memory.cells
      ensures Outcome(Snapshot(), status) == Semantics.StoreBinaryCodedDecimals(old(Snapshot()), x)
    {
      var decimalValue := Peek(x).Value();
      var hundreds := NewUnsignedByte(decimalValue / 100);
      var tens := NewUnsignedByte((decimalValue % 100) / 10);
      var units := NewUnsignedByte((decimalValue % 100) % 10);
      var address := UnsignedShort(addressRegister.GetAddress());
      ghost var m := Snapshot();
      var ok := WriteDigit(address.s, hundreds.b);
      if !ok {
        return Failed(IndexOutOfBounds);
      }
      var next := ApplyUnary(address, (a: nat) => a + 1).s;
      assert next == Offset(m, 1);
      ok := WriteDigit(next, tens.b);
      if !ok {
        return Failed(IndexOutOfBounds);
      }
      next := ApplyUnary(address, (a: nat) => a + 2).s;
      assert next == Offset(m, 2);
      ok := WriteDigit(next, units.b);
      if !ok {
        return Failed(IndexOutOfBounds);
      }
      status := Completed(None);
    }

    /** One memory.write of storeBinaryCodedDecimals; false where the write throws. */
    method WriteDigit(address: Short, digit: Byte) returns (ok: bool)
      requires Valid()
      modifies memory.cells
      ensures Valid()
      ensures ok <==> WriteCell(old(Snapshot()), address, digit).Success?
      ensures ok ==> WriteCell(old(Snapshot()), address, digit) == Success(Snapshot())
      ensures !ok ==> Snapshot() == old(Snapshot())
    {
      ok := memory.Write(address, digit);
    }

    /** interactWithReg: the action for registers 0..X in turn, at addresses I + i. */
    method InteractWithReg(x: Nibble, action: RegisterAction) returns (status: Status)
      requires Valid()
      modifies memory.cells, registers.cells
      ensures Outcome(Snapshot(), status) == Interaction(old(Snapshot()), action, x + 1)
    {
      ghost var start := Snapshot();
      var i := 0;
      while i <= x
        invariant 0 <= i <= x + 1
        invariant Valid()
        invariant Interaction(start, action, i) == Done(Snapshot())
        decreases x + 1 - i
      {
        var ok := InteractOnce(action, i, start);
        if !ok {
          InteractionStaysFailed(start, action, i + 1, x + 1);
          return Failed(IndexOutOfBounds);
        }
        i := i + 1;
      }
      status := Completed(None);
    }

    /** One round of interactWithReg's loop: register i against address I + i. */
    method InteractOnce(action: RegisterAction, i: Nibble, ghost m0: Machine) returns (ok: bool)
      requires Valid() && Semantics.Valid(m0)
      requires Interaction(m0, action, i) == Done(Snapshot())
      modifies memory.cells, registers.cells
      ensures Valid()
      ensures ok ==> Interaction(m0, action, i + 1) == Done(Snapshot())
      ensures !ok ==> Interaction(m0, action, i + 1) == Throw(Snapshot(), IndexOutOfBounds)
    {
      var address := ApplyWithShort(UnsignedShort(addressRegister.GetAddress()), (a: nat, b: nat) => a + b, NewUnsignedShort(i)).s;
      assert address == Offset(Snapshot(), i);
      ok := Execute(action, address, i);
    }

    /** The register action on one address and register; false where memory throws. */
    method Execute(action: RegisterAction, address: Short, i: Nibble) returns (ok: bool)
      requires Valid()
      modifies memory.cells, registers.cells
      ensures action == Dump ==> (ok <==> address < MemoryLength)
      ensures action == Dump && ok ==> Snapshot() == old(Snapshot()).(memory := old(memory.cells[..])[address := old(registers.cells[i])])
      ensures action == Load ==> (ok <==> address < MemoryLength)
      ensures action == Load && ok ==> Snapshot() == SetV(old(Snapshot()), i, old(memory.cells[address]))
      ensures !ok ==> Snapshot() == old(Snapshot())
    {
      if action == Dump {
        ok := memory.Write(address, registers.Peek(i).value);
      } else {
        var value := memory.Read(address);
        ok := value.Success?;
        if ok {
          PokeRegister(i, value.value);
        }
      }
    }

    // ---------------------------------------------------------- DXYN

    /** DXYN: VF := 0, read the coordinates, then draw the rows 0 .. N - 1 from I on. */
    method DrawSprite(x: Nibble, y: Nibble, height: Nibble) returns (status: Status)
      requires Valid()
      modifies registers.cells, screenMemory.pixels
      ensures Outcome(Snapshot(), status) == Semantics.DrawSprite(old(Snapshot()), x, y, height)
    {
      PokeRegister(0xF, NewUnsignedByte(0).b);
      var coordX := Peek(x).Value();
      var coordY := Peek(y).Value();
      assert Snapshot() == SetV(old(Snapshot()), VF, 0);
      status := DrawRowsOfSprite(coordX, coordY, height);
    }

    /** The loop of drawSprite: rows 0 .. height - 1 from I on, stopping at the first read that throws. */
    method DrawRowsOfSprite(coordX: nat, coordY: nat, height: Nibble) returns (status: Status)
      requires Valid()
      modifies registers.cells, screenMemory.pixels
      ensures Outcome(Snapshot(), status) == DrawRows(old(Snapshot()), coordX, coordY, height)
    {
      var mask := 0x80;
      var yLine := UnsignedShort(0);
      while yLine.s < height
        invariant Valid()
        invariant yLine.UnsignedShort? && yLine.s <= height
        invariant DrawRows(old(Snapshot()), coordX, coordY, yLine.s) == Done(Snapshot())
        decreases height - yLine.s
      {
        var ok := DrawRowOfSprite(coordX, coordY, mask, yLine, old(Snapshot()));
        if !ok {
          DrawRowsStaysFailed(old(Snapshot()), coordX, coordY, yLine.s + 1, height);
          return Failed(IndexOutOfBounds);
        }
        yLine := NextLine(yLine);
      }
      status := Completed(None);
    }

    /** yLine.applyUnary(v -> v + 1) for a row below 16. */
    static method NextLine(yLine: UnsignedDataType) returns (next: UnsignedDataType)
      requires yLine.UnsignedShort? && yLine.s < 16
      ensures next.UnsignedShort? && next.s == yLine.s + 1
    {
      next := ApplyUnary(yLine, (v: nat) => v + 1);
    }

    /** One pass of the loop in drawSprite: the row at I + yLine is read, then drawn; false where the read throws. */
    method DrawRowOfSprite(coordX: nat, coordY: nat, mask: nat, yLine: UnsignedDataType, ghost start: Machine) returns (ok: bool)
      requires Valid() && mask == 0x80 && yLine.UnsignedShort? && Semantics.Valid(start)
      requires DrawRows(start, coordX, coordY, yLine.s) == Done(Snapshot())
      modifies registers.cells, screenMemory.pixels
      ensures Valid()
      ensures ok ==> DrawRows(start, coordX, coordY, yLine.s + 1) == Done(Snapshot())
      ensures !ok ==> DrawRows(start, coordX, coordY, yLine.s + 1) == Throw(Snapshot(), IndexOutOfBounds)
    {
      var address := ApplyWithShort(UnsignedShort(addressRegister.GetAddress()), (a: nat, b: nat) => a + b, yLine).s;
      assert address == Offset(Snapshot(), yLine.s);
      var data := memory.Read(address);
      if data.Failure? {
        return false;
      }
      DrawLineOfSprite(coordX, coordY, data.value, mask, yLine.s);
      ok := true;
    }

    /** drawLineOfSprite: for each column, a set bit toggles the pixel after the collision check. */
    method DrawLineOfSprite(xCoordinate: nat, yCoordinate: nat, data: Byte, mask: nat, yLine: nat)
      requires Valid() && mask == 0x80
      modifies registers.cells, screenMemory.pixels
      ensures Snapshot() == DrawLine(old(Snapshot()), xCoordinate, yCoordinate + yLine, data, 8)
    {
      var bit := mask;
      TopMask();
      var xPixel := 0;
      ghost var start := Snapshot();
      while xPixel < 8
        invariant 0 <= xPixel <= 8
        invariant xPixel < 8 ==> bit == Pow2(7 - xPixel)
        invariant Valid()
        invariant Snapshot() == DrawLine(start, xCoordinate, yCoordinate + yLine, data, xPixel)
      {
        DrawPixel(xCoordinate, yCoordinate + yLine, data, xPixel, bit, start);
        if xPixel < 7 {
          HalveMask(7 - xPixel);
        }
        bit := bit / 2;
        xPixel := xPixel + 1;
      }
    }

    /** One column of drawLineOfSprite: where data has the mask's bit, the collision check and the toggle. */
    method DrawPixel(xCoordinate: nat, y: nat, data: Byte, xPixel: nat, bit: nat, ghost start: Machine)
      requires Valid() && xPixel < 8 && bit == Pow2(7 - xPixel) && Semantics.Valid(start)
      requires Snapshot() == DrawLine(start, xCoordinate, y, data, xPixel)
      modifies registers.cells, screenMemory.pixels
      ensures Valid()
      ensures Snapshot() == DrawLine(start, xCoordinate, y, data, xPixel + 1)
    {
      DrawLineNext(start, xCoordinate, y, data, xPixel);
      var isSet := IsBitSet(data, xPixel, bit);
      if isSet {
        TogglePixel(xCoordinate + xPixel, y);
      }
    }

    /** (data & bit) != 0 as drawLineOfSprite computes it, on UnsignedBytes: column xPixel of the sprite row is set. */
    static method IsBitSet(data: Byte, xPixel: nat, bit: nat) returns (isSet: bool)
      requires xPixel < 8 && bit == Pow2(7 - xPixel)
      ensures isSet <==> SpriteBit(data, xPixel)
    {
      MaskBit(data, 7 - xPixel, bit);
      Pow2Below(7 - xPixel, 7);
      TopMask();
      var masked := ApplyWithByte(NewUnsignedByte(data), (a: nat, b: nat) => BitAnd(a, b), NewUnsignedByte(bit));
      assert masked.b == BitAnd(data, bit) % 0x100;
      isSet := masked.b != 0;
    }

    /** A set sprite bit: VF := 1 where the pixel was lit, then the pixel is inverted. */
    method TogglePixel(x: nat, y: nat)
      requires Valid()
      modifies registers.cells, screenMemory.pixels
      ensures Valid() && Snapshot() == FlipPixel(old(Snapshot()), x, y)
    {
      SetCollisionRegister(x, y);
      var on := screenMemory.Read(x, y);
      screenMemory.Write(x, y, !on);
    }

    method SetCollisionRegister(x: nat, y: nat)
      requires Valid()
      modifies registers.cells
      ensures screenMemory.Grid()[x % Scr.ScreenWidth][y % Scr.ScreenHeight] ==>
        Snapshot() == SetV(old(Snapshot()), VF, 1)
      ensures !screenMemory.Grid()[x % Scr.ScreenWidth][y % Scr.ScreenHeight] ==>
        Snapshot() == old(Snapshot())
    {
      if screenMemory.Read(x, y) {
        PokeRegister(0xF, NewUnsignedByte(1).b);
      }
    }
  }

  /** data & mask, taken as a byte, is non-zero exactly when the single bit k of the mask is set in data. */
  lemma MaskBit(data: Byte, k: nat, mask: nat)
    requires k < 8 && mask == Pow2(k)
    ensures (BitAnd(data, mask) % 0x100 != 0) <==> (data / Pow2(k)) % 2 == 1
  {
    var bit := (data / mask) % 2;
    SingleBitMask(data, k);
    BitTimes(bit, mask);
    TopMask();
    Pow2Below(k, 7);
    var masked := BitAnd(data, mask);
    assert masked == if bit == 0 then 0 else mask;
    assert masked < 0x100;
  }

  lemma BitTimes(bit: nat, p: nat)
    requires bit < 2
    ensures bit * p == if bit == 0 then 0 else p
  {
  }

  lemma {:induction false} Pow2Below(k: nat, n: nat)
    requires k <= n
    ensures Pow2(k) <= Pow2(n)
  {
    if k < n {
      Pow2Below(k, n - 1);
    }
  }

  lemma TopMask()
    ensures Pow2(7) == 0x80
  {
    Pow2Nibbles();
  }

  /** mask >> 1 moves the mask to the next lower bit. */
  lemma HalveMask(k: nat)
    requires 0 < k
    ensures Pow2(k) / 2 == Pow2(k - 1)
  {
  }

  /** (v & 0x80) >> 7 is the top bit of a byte. */
  lemma HighBit(v: Byte)
    ensures BitAnd(v, 0x80) / 0x80 == v / 0x80
  {
    Pow2Nibbles();
    assert Pow2(8) == 2 * Pow2(7);
    SingleBitMask(v, 7);
  }
}
