/**
 * The emulator driver: it owns a CPU and runs it for a number of cycles
 * given as a real, carrying the fractional part over to the next call.
 * The random value each step draws for CXNN is supplied from a sequence.
 */
module Emulation {
  import opened JavaText
  import opened Constants
  import opened Keys
  import opened Timers
  import opened Semantics
  import opened Wrappers
  import opened OpCodes
  import Mem = Memory
  import Reg = Registers
  import Scr = ScreenMemory
  import Stk = Chip8Stack
  import PC = ProgramCounter
  import AR = AddressRegister
  import Cpu
  import InstructionProperties

  /** One pass of executeCPUCycles' loop: a step, after which an exception stops the CPU. */
  function Cycle(m: Machine, r: nat): (n: Machine)
    requires Semantics.Valid(m) && r < 255
    ensures Semantics.Valid(n) && n.pause == m.pause
    ensures n.stop <==> m.stop || Step(m, r).status.Failed?
    ensures n.cycles == if Step(m, r).status.Completed? && !m.stop && !m.pause && m.cycles < IntMax then m.cycles + 1 else m.cycles
  {
    InstructionProperties.StepCountsCycle(m, r);
    var o := Step(m, r);
    if o.status.Failed? then o.machine.(stop := true) else o.machine
  }

  ghost predicate RandomValues(randoms: seq<nat>)
  {
    forall i :: 0 <= i < |randoms| ==> randoms[i] < 255
  }

  /**
   * trace holds the machine before the first pass and after each pass, pass
   * k drawing randoms[k]: the history of one run of executeCPUCycles' loop.
   */
  ghost predicate IsRun(trace: seq<Machine>, randoms: seq<nat>)
  {
    && 0 < |trace| <= |randoms| + 1 && RandomValues(randoms)
    && (forall k :: 0 <= k < |trace| ==> Semantics.Valid(trace[k]))
    && (forall k :: 0 <= k < |trace| - 1 ==> trace[k + 1] == Cycle(trace[k], randoms[k]))
  }

  /** A run goes on by the pass that follows its last machine. */
  lemma ExtendRun(trace: seq<Machine>, randoms: seq<nat>, next: Machine)
    requires IsRun(trace, randoms) && |trace| <= |randoms|
    requires next == Cycle(trace[|trace| - 1], randoms[|trace| - 1])
    ensures IsRun(trace + [next], randoms)
  {
    var t := trace + [next];
    forall k | 0 <= k < |t| ensures Semantics.Valid(t[k]) {
      if k < |trace| {
        assert t[k] == trace[k];
      } else {
        assert t[k] == next;
      }
    }
    forall k | 0 <= k < |t| - 1 ensures t[k + 1] == Cycle(t[k], randoms[k]) {
      if k < |trace| - 1 {
        assert t[k] == trace[k] && t[k + 1] == trace[k + 1];
      } else {
        assert t[k] == trace[|trace| - 1] && t[k + 1] == next;
      }
    }
  }

  /** How many passes executeCPUCycles(cycles) makes: the whole part of cycles, or none below 1. */
  function Passes(cycles: real): (n: nat)
    ensures cycles >= 1.0 ==> n as real <= cycles < n as real + 1.0
    ensures cycles < 1.0 ==> n == 0
  {
    if cycles < 1.0 then 0 else cycles.Floor
  }

  /** Passes(cycles) is the one count i for which the loop, having made i passes, has less than one cycle left. */
  lemma PassesCounted(cycles: real, i: nat)
    ensures i as real + 1.0 <= cycles ==> i < Passes(cycles)
    ensures i <= Passes(cycles) && cycles < i as real + 1.0 ==> i == Passes(cycles)
  {
  }

  /** The machine createEmulator builds: the glyphs loaded, everything else cleared, PC at 0x200. */
  function FreshMachine(hasSynthesizer: bool): (m: Machine)
    ensures Semantics.Valid(m) && m.pc == ProgramCounterStart && m.cycles == 0 && !m.stop && !m.pause
    ensures forall i :: |Mem.Glyphs| <= i < MemoryLength ==> m.memory[i] == 0
  {
    Machine(seq(MemoryLength, i => Mem.InitialCell(i)), seq(RegisterLength, _ => 0), Scr.BlankScreen(), [],
      ProgramCounterStart, 0, 0, 0, if hasSynthesizer then Some(NoteOn) else None, NoKey, false, false, 0)
  }

  lemma StoppedCycle(m: Machine, r: nat)
    requires Semantics.Valid(m) && r < 255 && m.stop
    ensures Cycle(m, r).stop && Cycle(m, r).cycles == m.cycles
  {
  }

  /** Once stopped, the CPU stays stopped and counts no more cycles, whatever it runs. */
  lemma {:induction false} StoppedRunCountsNothing(trace: seq<Machine>, randoms: seq<nat>, k: nat)
    requires IsRun(trace, randoms) && k < |trace| && trace[0].stop
    ensures trace[k].stop && trace[k].cycles == trace[0].cycles
  {
    if k > 0 {
      StoppedRunCountsNothing(trace, randoms, k - 1);
      StoppedCycle(trace[k - 1], randoms[k - 1]);
    }
  }

  lemma CompletedCycle(m: Machine, r: nat)
    requires Semantics.Valid(m) && r < 255 && !m.stop && !m.pause && m.cycles < IntMax
    requires Step(m, r).status.Completed?
    ensures Cycle(m, r).cycles == m.cycles + 1 && !Cycle(m, r).stop && !Cycle(m, r).pause
  {
  }

  /**
   * A running CPU whose instructions all complete counts one cycle per pass,
   * and is neither stopped nor paused afterwards.
   */
  lemma {:induction false} CompletedRunCountsCycles(trace: seq<Machine>, randoms: seq<nat>, k: nat)
    requires IsRun(trace, randoms) && k < |trace|
    requires !trace[0].stop && !trace[0].pause && trace[0].cycles + k <= IntMax
    requires forall j :: 0 <= j < k ==> Step(trace[j], randoms[j]).status.Completed?
    ensures trace[k].cycles == trace[0].cycles + k && !trace[k].stop && !trace[k].pause
  {
    if k > 0 {
      CompletedRunCountsCycles(trace, randoms, k - 1);
      CompletedCycle(trace[k - 1], randoms[k - 1]);
    }
  }

  lemma ZeroWordCycle(m: Machine, r: nat)
    requires Semantics.Valid(m) && r < 255 && !m.stop && !m.pause && m.cycles < IntMax
    requires m.pc + 1 < MemoryLength && m.memory[m.pc] == 0 && m.memory[m.pc + 1] == 0
    ensures var n := Cycle(m, r);
      n.cycles == m.cycles + 1 && n.pc == m.pc + 2 && n.memory == m.memory && !n.stop && !n.pause
  {
    InstructionProperties.ZeroWordStep(m, r);
  }

  /**
   * A running CPU over a stretch of zero words (each 0x0000, which clears
   * the screen) counts one cycle per pass and moves PC on by two.
   */
  lemma {:induction false} ZeroWordsCountCycles(trace: seq<Machine>, randoms: seq<nat>, k: nat)
    requires IsRun(trace, randoms) && k < |trace|
    requires !trace[0].stop && !trace[0].pause && trace[0].cycles + k <= IntMax
    requires trace[0].pc + 2 * k <= MemoryLength
    requires forall i :: trace[0].pc <= i < trace[0].pc + 2 * k ==> trace[0].memory[i] == 0
    ensures trace[k].cycles == trace[0].cycles + k && trace[k].pc == trace[0].pc + 2 * k
    ensures trace[k].memory == trace[0].memory && !trace[k].stop && !trace[k].pause
  {
    if k > 0 {
      ZeroWordsCountCycles(trace, randoms, k - 1);
      var p := trace[k - 1];
      assert p.memory[p.pc] == 0 && p.memory[p.pc + 1] == 0;
      ZeroWordCycle(p, randoms[k - 1]);
    }
  }

  /** A fresh emulator run for 100 passes has counted 100 cycles. */
  lemma HundredCyclesOnFreshEmulator(hasSynthesizer: bool, trace: seq<Machine>, randoms: seq<nat>)
    requires IsRun(trace, randoms) && |trace| == 101 && trace[0] == FreshMachine(hasSynthesizer)
    ensures trace[100].cycles == 100
  {
    ZeroWordsCountCycles(trace, randoms, 100);
  }

  /** The components createEmulator wires together, freshly made. */
  method FreshCentralProcessingUnit(hasSynthesizer: bool) returns (cpu: Cpu.CentralProcessingUnit)
    ensures cpu.Valid() && cpu.Snapshot() == FreshMachine(hasSynthesizer)
  {
    var memory := new Mem.Memory();
    assert memory.cells[..] == seq(MemoryLength, i => Mem.InitialCell(i));
    var registers := new Reg.Registers();
    assert registers.cells[..] == seq(RegisterLength, _ => 0);
    var screenMemory := new Scr.ScreenMemory();
    var addressRegister := new AR.AddressRegister(0);
    var programCounter := new PC.ProgramCounter(ProgramCounterStart);
    var stack := new Stk.Chip8Stack([]);
    var delayTimer := new Timer();
    var soundTimer := new SoundTimer();
    cpu := new Cpu.CentralProcessingUnit.WithSynthesizer(memory, screenMemory, registers,
      addressRegister, programCounter, stack, delayTimer, soundTimer, hasSynthesizer);
  }

  class Emulator {
    var centralProcessingUnit: Cpu.CentralProcessingUnit

    ghost predicate Valid()
      reads this, centralProcessingUnit, centralProcessingUnit.memory, centralProcessingUnit.registers
      reads centralProcessingUnit.screenMemory, centralProcessingUnit.soundTimer
    {
      centralProcessingUnit.Valid()
    }

    /** The CPU as Semantics sees it. */
    ghost function Machine(): Semantics.Machine
      requires Valid()
      reads this, centralProcessingUnit, centralProcessingUnit.memory, centralProcessingUnit.memory.cells
      reads centralProcessingUnit.registers, centralProcessingUnit.registers.cells
      reads centralProcessingUnit.screenMemory, centralProcessingUnit.screenMemory.pixels
      reads centralProcessingUnit.stack, centralProcessingUnit.programCounter, centralProcessingUnit.addressRegister
      reads centralProcessingUnit.delayTimer, centralProcessingUnit.soundTimer, centralProcessingUnit.soundTimer.timer
    {
      centralProcessingUnit.Snapshot()
    }

    /**
     * createEmulator: fresh components, PC at PROGRAM_COUNTER_START, and the
     * sound callbacks of a synthesizer when one could be opened.
     */
    constructor (hasSynthesizer: bool)
      ensures Valid() && Machine() == FreshMachine(hasSynthesizer)
    {
      var cpu := FreshCentralProcessingUnit(hasSynthesizer);
      centralProcessingUnit := cpu;
    }

    /**
     * executeCPUCycles: one pass per whole cycle, an exception stopping the
     * CPU and the loop going on; the fractional part is returned. The ghost
     * trace is the machine before the first pass and after each pass.
     */
    method ExecuteCpuCycles(cycles: real, randoms: seq<nat>) returns (rest: real, ghost trace: seq<Semantics.Machine>)
      requires Valid() && Passes(cycles) <= |randoms| && RandomValues(randoms)
      modifies centralProcessingUnit, centralProcessingUnit.memory.cells, centralProcessingUnit.registers.cells
      modifies centralProcessingUnit.screenMemory.pixels, centralProcessingUnit.stack
      modifies centralProcessingUnit.programCounter, centralProcessingUnit.addressRegister
      modifies centralProcessingUnit.delayTimer, centralProcessingUnit.soundTimer.timer
      ensures Valid() && IsRun(trace, randoms) && |trace| == Passes(cycles) + 1
      ensures trace[0] == old(Machine()) && trace[Passes(cycles)] == Machine()
      ensures rest == cycles - Passes(cycles) as real
      ensures cycles < 1.0 ==> rest == cycles
      ensures cycles >= 0.0 ==> 0.0 <= rest < 1.0
    {
      ghost var passes := Passes(cycles);
      trace := [Machine()];
      var remaining := cycles;
      var i: nat := 0;
      while remaining >= 1.0
        invariant i <= passes && remaining == cycles - i as real
        invariant Valid() && IsRun(trace, randoms) && |trace| == i + 1
        invariant trace[0] == old(Machine()) && trace[i] == Machine()
        decreases passes - i
      {
        PassesCounted(cycles, i);
        trace := ExecutePass(trace, randoms, i);
        remaining := remaining - 1.0;
        i := i + 1;
      }
      PassesCounted(cycles, i);
      rest := remaining;
    }

    /** Pass i + 1 of executeCPUCycles' loop, which extends the run by the machine it leaves. */
    method ExecutePass(ghost trace: seq<Semantics.Machine>, randoms: seq<nat>, i: nat)
      returns (ghost extended: seq<Semantics.Machine>)
      requires Valid() && IsRun(trace, randoms) && |trace| == i + 1 && i < |randoms| && trace[i] == Machine()
      modifies centralProcessingUnit, centralProcessingUnit.memory.cells, centralProcessingUnit.registers.cells
      modifies centralProcessingUnit.screenMemory.pixels, centralProcessingUnit.stack
      modifies centralProcessingUnit.programCounter, centralProcessingUnit.addressRegister
      modifies centralProcessingUnit.delayTimer, centralProcessingUnit.soundTimer.timer
      ensures Valid() && extended == trace + [Machine()] && IsRun(extended, randoms)
    {
      ExecuteCpuCycle(randoms[i]);
      ExtendRun(trace, randoms, Machine());
      extended := trace + [Machine()];
    }

    /** One pass of the loop in executeCPUCycles. */
    method ExecuteCpuCycle(r: nat)
      requires Valid() && r < 255
      modifies centralProcessingUnit, centralProcessingUnit.memory.cells, centralProcessingUnit.registers.cells
      modifies centralProcessingUnit.screenMemory.pixels, centralProcessingUnit.stack
      modifies centralProcessingUnit.programCounter, centralProcessingUnit.addressRegister
      modifies centralProcessingUnit.delayTimer, centralProcessingUnit.soundTimer.timer
      ensures Valid() && Machine() == Cycle(old(Machine()), r)
    {
      var status := centralProcessingUnit.DecodeNextOpCode(r);
      if status.Failed? {
        centralProcessingUnit.SetStop(true);
      }
    }

    /** stop: the CPU is stopped (its timer thread and synthesizer are not modelled). */
    method Stop()
      requires Valid()
      modifies centralProcessingUnit
      ensures Valid() && Machine() == old(Machine()).(stop := true)
    {
      centralProcessingUnit.SetStop(true);
    }

    /** setCentralProcessingUnit: the emulator drives the given CPU from now on. */
    method SetCentralProcessingUnit(cpu: Cpu.CentralProcessingUnit)
      requires cpu.Valid()
      modifies this
      ensures centralProcessingUnit == cpu && Valid()
    {
      centralProcessingUnit := cpu;
    }
  }
}
