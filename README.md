# CHIP-8 emulator core in Dafny

This project models the interpreter core of a Java CHIP-8 emulator and proves
properties of it. The machine is 4095 bytes of memory with the sixteen digit
glyphs at 0..79, sixteen byte registers V0..VF, the 16-bit address register I
and program counter, an unbounded return stack, a delay timer and a sound
timer, and a 64 x 32 monochrome screen whose coordinates wrap.

The model has two layers.

- `Semantics` describes one fetch-decode-execute cycle (`decodeNextOpCode`)
  as a function on a value snapshot `Machine` of the whole CPU. It keeps the
  nested dispatch on nibbles, the order of the register writes and the
  exceptions of the Java code. An exception keeps the effects made before it,
  so a failed outcome carries the machine as it was at the throw.
- The hardware classes (`Memory`, `Registers`, `ScreenMemory`, `Chip8Stack`,
  `ProgramCounter`, `AddressRegister`, `Timer`, `SoundTimer`) are Dafny
  classes whose arrays and fields the methods change in place.
  `Cpu.CentralProcessingUnit` drives them. `Snapshot()` reads the whole CPU
  as a `Semantics.Machine`, and every handler is proved to change that
  snapshot exactly as the matching function of `Semantics` says.
  `Emulation.Emulator` runs the CPU for a real number of cycles.

The properties the emulator promises are proved as lemmas about `Semantics`:

- `InstructionProperties` covers carries and borrows, shifts, skips,
  call/return, FX33, the FX55/FX65 round trip, unknown opcodes and cycle
  counting.
- `SpriteProperties` covers DXYN: the pixels it toggles, the collision flag,
  and that drawing twice restores the screen.
- `Emulation` covers runs of the driver loop.

The text formats are modelled on strings, with the Java library calls they
rely on written out in `JavaText` (`String.trim`, `String.split`,
`Integer.parseInt`, `String.valueOf`, `Arrays.toString`):

- The save state (`SaveStates`) is proved to read back what it writes.
- The key configuration (`KeyConfigurations`) has its `config{ ... }` text
  form proved to read back as the same map, whatever order the map's
  iteration takes.

The class `KeyConfigurations.KeyConfiguration` stands for both key
configuration classes:

- `src/main/java/de/nihas101/chip8/utils/keyConfiguration/KeyConfiguration.java`,
  which the table cites;
- the older `src/main/java/de/nihas101/chip8/utils/KeyConfiguration.java`,
  whose members (lines 18-75) are the same standard map, `entrySet`,
  `contains`, `getOrNOP` and `setEmulatorKeyHashMap`, without the text form.

Constants follow `src/main/java/de/nihas101/chip8/utils/Constants.java`:

- `MEMORY_LENGTH` is 0xfff;
- `PROGRAM_COUNTER_START` is 0x200;
- `REGISTER_LENGTH` is 16;
- the save-state tags are c, o, m, s, r, a, p, k, d, t and i.

Where the Java code and its documentation disagree, the model follows the
code:

- Memory has 4095 cells, not 4096, so address 0xFFF is out of range.
- Unary `apply` on an UnsignedByte narrows through Java's `(byte)` cast.
  Its overflow flag is therefore set exactly when the wrapped result is 128
  or more.
- The main-tree `SoundTimer` extends `Chip8Timer`, which exists only in the
  legacy tree. It is modelled on `hardware/timers/Timer.java`, whose logic is
  the same.
- `UnsignedShort` is modelled as reducing an int modulo 2^16.
- The emulator's `stopCPU()` call is modelled as `setStop(true)`.

## Model

| member | source | states |
|---|---|---|
| Memory.Glyph | src/main/java/de/nihas101/chip8/hardware/memory/Memory.java:98-287 | Each digit glyph is five rows, as setup0 .. setupF write them. |
| Memory.CellValue | src/main/java/de/nihas101/chip8/hardware/memory/Memory.java:26-29 | A cell text reads to a value exactly when Integer.parseInt accepts the trimmed text; the value is the parsed number narrowed to a byte. |
| Memory.CellValues | src/main/java/de/nihas101/chip8/hardware/memory/Memory.java:26-29 | Reading cell texts succeeds exactly when they fit the memory and every one parses; each cell is what its text reads as; otherwise NumberFormatException or ArrayIndexOutOfBoundsException. |
| Memory.Memory.constructor | src/main/java/de/nihas101/chip8/hardware/memory/Memory.java:20-24 | A fresh memory holds the sixteen digit glyphs at 0 .. 79 and zeros elsewhere. |
| Memory.Memory.FromValues | src/main/java/de/nihas101/chip8/hardware/memory/Memory.java:26-29 | The memory built from read values holds them from cell 0 on, and zeros after them. |
| Memory.Memory.SetupCharacter | src/main/java/de/nihas101/chip8/hardware/memory/Memory.java:289-295 | setupCharacter copies the five glyph rows to start .. start + 4 and leaves every other cell alone. |
| Memory.Memory.Write | src/main/java/de/nihas101/chip8/hardware/memory/Memory.java:60-62 | write sets exactly one cell; an index outside the array is an exception and changes nothing. |
| Memory.Memory.Read | src/main/java/de/nihas101/chip8/hardware/memory/Memory.java:70-73 | read returns the cell inside the 4095-cell memory, addresses 0 .. 4094, and throws IndexOutOfBoundsException outside it. |
| Memory.Memory.Clear | src/main/java/de/nihas101/chip8/hardware/memory/Memory.java:75-77 | clear zeroes the cells from 0x200 up and keeps the cells below 0x200. |
| ScreenMemory.BlankScreen | src/main/java/de/nihas101/chip8/hardware/memory/ScreenMemory.java:51-55 | The blank picture is 64 by 32 with every pixel dark. |
| ScreenMemory.SetPixel | src/main/java/de/nihas101/chip8/hardware/memory/ScreenMemory.java:41-46 | Setting a pixel, with coordinates taken modulo the screen size, changes exactly that pixel. |
| ScreenMemory.SameScreen | src/main/java/de/nihas101/chip8/hardware/memory/ScreenMemory.java:11 | Two pictures with the same pixels are equal. |
| ScreenMemory.RowCells | src/main/java/de/nihas101/chip8/hardware/memory/ScreenMemory.java:74-79 | A text row of n cells has 3n characters. |
| ScreenMemory.Rows | src/main/java/de/nihas101/chip8/hardware/memory/ScreenMemory.java:73-81 | n text rows have 193n characters. |
| ScreenMemory.RowCellsAt | src/main/java/de/nihas101/chip8/hardware/memory/ScreenMemory.java:74-79 | Cell x of a text row is " 1 " for a lit pixel and " 0 " for a dark one. |
| ScreenMemory.RowsAt | src/main/java/de/nihas101/chip8/hardware/memory/ScreenMemory.java:73-81 | Row y of the text shows the pixels of screen row y and ends in a newline. |
| ScreenMemory.ScreenTextShowsPixels | src/main/java/de/nihas101/chip8/hardware/memory/ScreenMemory.java:71-83 | toString has 193 characters per row; the middle character of cell (x, y) is '1' exactly when the pixel is lit; each row ends in a newline. |
| ScreenMemory.ScreenMemory.Grid | src/main/java/de/nihas101/chip8/hardware/memory/ScreenMemory.java:11 | The picture is 64 columns of 32 pixels and shows the array's pixels. |
| ScreenMemory.ScreenMemory.constructor | src/main/java/de/nihas101/chip8/hardware/memory/ScreenMemory.java:13-15 | A new screen is dark. |
| ScreenMemory.ScreenMemory.Read | src/main/java/de/nihas101/chip8/hardware/memory/ScreenMemory.java:27-33 | read returns the pixel at (x mod 64, y mod 32). |
| ScreenMemory.ScreenMemory.Write | src/main/java/de/nihas101/chip8/hardware/memory/ScreenMemory.java:41-46 | write sets the pixel at (x mod 64, y mod 32) and keeps every other pixel. |
| ScreenMemory.ScreenMemory.Reset | src/main/java/de/nihas101/chip8/hardware/memory/ScreenMemory.java:51-55 | reset makes every pixel dark. |
| ScreenMemory.ScreenMemory.ToString | src/main/java/de/nihas101/chip8/hardware/memory/ScreenMemory.java:71-83 | toString has 193 characters per row; the middle character of cell (x, y) is '1' exactly when that pixel is lit; every row ends in a newline. |
| Unsigned.Value | src/main/java/de/nihas101/chip8/unsignedDataTypes/UnsignedDataType.java:7 | Plain accessor: the getter of the field unsignedDataType; no property is claimed for it. |
| Unsigned.ByteCast | src/main/java/de/nihas101/chip8/unsignedDataTypes/UnsignedByte.java:10 | The (byte) cast gives the value in -128 .. 127 congruent to n modulo 256. |
| Unsigned.ShortCast | src/main/java/de/nihas101/chip8/unsignedDataTypes/UnsignedShort.java:8 | The (short) cast gives the value in -32768 .. 32767 congruent to n modulo 65536. |
| Unsigned.NewUnsignedByte | src/main/java/de/nihas101/chip8/unsignedDataTypes/UnsignedByte.java:9-12 | new UnsignedByte(n) keeps the low eight bits of n and flags overflow exactly when n is not in 0 .. 255. |
| Unsigned.NewUnsignedShort | src/main/java/de/nihas101/chip8/unsignedDataTypes/UnsignedShort.java:7-9 | new UnsignedShort(n) keeps the low sixteen bits of n. |
| Unsigned.ApplyUnary | src/main/java/de/nihas101/chip8/unsignedDataTypes/UnsignedByte.java:20-22 | A unary operation on a byte gives the low eight bits of the result, flagged exactly when bit 7 of the result is set (the (byte) cast makes it negative first). |
| Unsigned.ApplyWithByte | src/main/java/de/nihas101/chip8/unsignedDataTypes/UnsignedDataType.java:58-60 | A binary operation with a byte gives the low eight bits of the result, flagged exactly when the result is not in 0 .. 255. |
| Unsigned.ApplyWithShort | src/main/java/de/nihas101/chip8/unsignedDataTypes/UnsignedDataType.java:69-71 | A binary operation with a short gives the low sixteen bits of the result. |
| Unsigned.LastOperationLeadToOverflow | src/main/java/de/nihas101/chip8/unsignedDataTypes/UnsignedDataType.java:73-75 | A byte returns exactly the overflow flag its constructor set, and a short is never flagged. |
| Unsigned.OverflowOfOperation | src/main/java/de/nihas101/chip8/unsignedDataTypes/UnsignedDataType.java:58-75 | After a binary operation into a byte the getter reports overflow exactly when the int result lies outside 0 .. 255. After a unary byte operation it reports overflow exactly when bit 7 of the result is set. After a short operation it never reports overflow. |
| Unsigned.EqualsContract | src/main/java/de/nihas101/chip8/unsignedDataTypes/UnsignedDataType.java:18-41 | equals, hashCode and compareTo agree: equal values hash alike, compareTo is zero exactly for equal values, is antisymmetric and orders by value. |
| Unsigned.ToStringParses | src/main/java/de/nihas101/chip8/unsignedDataTypes/UnsignedDataType.java:47-49 | The text of a value parses back to the value. |
| OpCodes.NewOpCode | src/main/java/de/nihas101/chip8/opcodes/OPCode.java:10-17 | The nibbles of new OPCode(op) are the four hexadecimal digits of op, most significant first. |
| OpCodes.MasksGiveNibbles | src/main/java/de/nihas101/chip8/opcodes/OPCode.java:10-17 | Each nibble is (op & mask) >> shift with the constructor's mask and shift. |
| OpCodes.NibbleMask | src/main/java/de/nihas101/chip8/opcodes/OPCode.java:13-16 | Masking with 0xF shifted left and shifting back right gives the nibble at that position. |
| OpCodes.ApplyMask | src/main/java/de/nihas101/chip8/opcodes/OPCode.java:44-46 | applyMask gives a value no larger than the opcode and no larger than the mask. |
| OpCodes.NibblesRecombine | src/main/java/de/nihas101/chip8/opcodes/OPCode.java:10-17 | The nibbles put back together give the opcode again. |
| OpCodes.LowMasks | src/main/java/de/nihas101/chip8/opcodes/OPCode.java:44-46 | Masking with 0x0FFF and 0x00FF keeps the low twelve and the low eight bits. |
| OpCodes.AddressMask | src/main/java/de/nihas101/chip8/opcodes/OPCode.java:44-46 | Masking with 0x0FFF keeps the address NNN, the low three nibbles. |
| OpCodes.ByteMask | src/main/java/de/nihas101/chip8/opcodes/OPCode.java:44-46 | Masking with 0x00FF keeps the byte NN, the low two nibbles. |
| RomLoader.ReadBuffer | src/main/java/de/nihas101/chip8/utils/RomLoader.java:28-44 | The buffer after the read holds the leading file bytes as signed bytes and zeros after them. |
| RomLoader.ReadCount | src/main/java/de/nihas101/chip8/utils/RomLoader.java:28-44 | The read count is positive exactly when the file could be read and is not empty; it is at most the buffer size and the file size. |
| RomLoader.LoadIntoMemory | src/main/java/de/nihas101/chip8/utils/RomLoader.java:67-72 | Buffer byte i goes to cell 0x200 + i as an unsigned byte; cells below 0x200 stay. |
| RomLoader.LoadRom | src/main/java/de/nihas101/chip8/utils/RomLoader.java:28-44 | When a byte was read, the program area holds the ROM bytes followed by zeros and the area below 0x200 stays; otherwise memory is unchanged. |
| AddressRegister.AddressRegister.constructor | src/main/java/de/nihas101/chip8/hardware/memory/AddressRegister.java:19-21 | The register holds the address it is created with. |
| AddressRegister.AddressRegister.Zero | src/main/java/de/nihas101/chip8/hardware/memory/AddressRegister.java:15-17 | The no-argument register holds 0. |
| AddressRegister.AddressRegister.SetAddress | src/main/java/de/nihas101/chip8/hardware/memory/AddressRegister.java:35-37 | setAddress replaces the held address. |
| Chip8Stack.Chip8Stack.constructor | src/main/java/de/nihas101/chip8/hardware/memory/Chip8Stack.java:17-19 | A new stack holds the given addresses. |
| Chip8Stack.Chip8Stack.Push | src/main/java/de/nihas101/chip8/hardware/memory/Chip8Stack.java:33-35 | push appends the address on top. |
| Chip8Stack.Chip8Stack.Pop | src/main/java/de/nihas101/chip8/hardware/memory/Chip8Stack.java:41-43 | pop returns and removes the top address; on an empty stack it throws EmptyStackException and leaves the stack as it was. |
| Chip8Stack.Chip8Stack.GetSize | src/main/java/de/nihas101/chip8/hardware/memory/Chip8Stack.java:49-51 | Plain accessor: the getter of the stack's size; no property is claimed for it. |
| Chip8Stack.Chip8Stack.Clear | src/main/java/de/nihas101/chip8/hardware/memory/Chip8Stack.java:53-55 | clear empties the stack. |
| Chip8Stack.PushThenPop | src/main/java/de/nihas101/chip8/hardware/memory/Chip8Stack.java:33-43 | A pop undoes a push: the pushed address comes back and the stack is as it was. |
| ProgramCounter.ProgramCounter.constructor | src/main/java/de/nihas101/chip8/hardware/memory/ProgramCounter.java:15-17 | The counter starts at the given address. |
| ProgramCounter.ProgramCounter.Zero | src/main/java/de/nihas101/chip8/hardware/memory/ProgramCounter.java:19-21 | The no-argument counter starts at 0. |
| ProgramCounter.ProgramCounter.IncrementCounter | src/main/java/de/nihas101/chip8/hardware/memory/ProgramCounter.java:26-28 | One step forward, wrapping from 0xFFFF to 0. |
| ProgramCounter.ProgramCounter.IncrementCounterN | src/main/java/de/nihas101/chip8/hardware/memory/ProgramCounter.java:35-37 | n steps forward, modulo 0x10000. |
| ProgramCounter.ProgramCounter.JumpTo | src/main/java/de/nihas101/chip8/hardware/memory/ProgramCounter.java:56-58 | jumpTo sets the counter to the address. |
| Registers.RegisterValue | src/main/java/de/nihas101/chip8/hardware/memory/Registers.java:27-31 | A register text reads to a value exactly when Integer.parseInt accepts it; the value is the parsed number narrowed to a byte. |
| Registers.ReadRegisters | src/main/java/de/nihas101/chip8/hardware/memory/Registers.java:27-31 | The first n registers read in index order; success exactly when there are n texts and each parses; register i is the value of text i; otherwise NumberFormatException or ArrayIndexOutOfBoundsException. |
| Registers.RegisterValues | src/main/java/de/nihas101/chip8/hardware/memory/Registers.java:27-31 | Reading the register file gives sixteen values; fewer than sixteen texts is an exception. |
| Registers.ReadRegistersIgnoresExtra | src/main/java/de/nihas101/chip8/hardware/memory/Registers.java:27-31 | Texts after the sixteenth play no part in the result. |
| Registers.Registers.constructor | src/main/java/de/nihas101/chip8/hardware/memory/Registers.java:22-25 | All sixteen registers start at zero. |
| Registers.Registers.FromValues | src/main/java/de/nihas101/chip8/hardware/memory/Registers.java:27-31 | The register file built from the read values holds exactly them. |
| Registers.Registers.Peek | src/main/java/de/nihas101/chip8/hardware/memory/Registers.java:62-64 | peek returns register Vx for Vx in 0..15 and an ArrayIndexOutOfBoundsException for any other index. |
| Registers.Registers.Poke | src/main/java/de/nihas101/chip8/hardware/memory/Registers.java:71-73 | poke sets register Vx and keeps the others for Vx in 0..15; any other index is an ArrayIndexOutOfBoundsException and changes nothing. |
| Registers.Registers.Clear | src/main/java/de/nihas101/chip8/hardware/memory/Registers.java:75-78 | clear sets every register to zero. |
| Timers.Tick | src/main/java/de/nihas101/chip8/hardware/timers/Timer.java:30-36 | One tick decrements a non-zero value in 32-bit arithmetic, wrapping at Integer.MIN_VALUE; zero stays zero. |
| Timers.CountsDown | src/main/java/de/nihas101/chip8/hardware/timers/Timer.java:30-36 | A timer set to v >= 0 reads v - n after n ticks, and then stays at zero. |
| Timers.Timer.constructor | src/main/java/de/nihas101/chip8/hardware/timers/Timer.java:12-13 | A new timer is zero with no zero interrupt. |
| Timers.Timer.WithValue | src/main/java/de/nihas101/chip8/hardware/timers/Timer.java:15-17 | A timer created with a value holds it. |
| Timers.Timer.SetValue | src/main/java/de/nihas101/chip8/hardware/timers/Timer.java:23-25 | setValue stores the value and keeps the interrupt. |
| Timers.Timer.DecrementValue | src/main/java/de/nihas101/chip8/hardware/timers/Timer.java:30-36 | decrementValue applies one tick; when the value was zero, the onZero interrupt fires if one is installed. |
| Timers.Timer.SetOnZero | src/main/java/de/nihas101/chip8/hardware/timers/Timer.java:50-52 | setOnZero installs the interrupt and keeps the value. |
| Timers.Timer.Reset | src/main/java/de/nihas101/chip8/hardware/timers/Timer.java:54-56 | reset sets the value to zero. |
| Timers.SoundTimer.constructor | src/main/java/de/nihas101/chip8/hardware/timers/SoundTimer.java:6-7 | A new sound timer is zero, with no interrupts installed. |
| Timers.SoundTimer.SetValue | src/main/java/de/nihas101/chip8/hardware/timers/SoundTimer.java:14-17 | setValue stores the value first and then fires onValue; with no onValue installed it throws NullPointerException after the store. |
| Timers.SoundTimer.SetOnValue | src/main/java/de/nihas101/chip8/hardware/timers/SoundTimer.java:23-25 | setOnValue installs the interrupt. |
| Cpu.InteractionStaysFailed | src/main/java/de/nihas101/chip8/hardware/CentralProcessingUnit.java:351-356 | Once FX55/FX65 has thrown on one register, the registers after it are left untouched. |
| Cpu.CentralProcessingUnit.constructor | src/main/java/de/nihas101/chip8/hardware/CentralProcessingUnit.java:100-129 | The CPU holds exactly the parts it is given; without a synthesizer both sound callbacks are empty actions and the sound timer keeps its value. |
| Cpu.CentralProcessingUnit.WithSynthesizer | src/main/java/de/nihas101/chip8/hardware/CentralProcessingUnit.java:56-98 | With a synthesizer the sound timer plays a note on every set value and stops it at zero; without one the callbacks are left as they were. |
| Cpu.CentralProcessingUnit.Reset | src/main/java/de/nihas101/chip8/hardware/CentralProcessingUnit.java:151-160 | Registers, PC (0x200), screen, I, both timers, the stack and the cycle count return to their start values; memory, key code and flags are kept. |
| Cpu.CentralProcessingUnit.ClearMemory | src/main/java/de/nihas101/chip8/hardware/CentralProcessingUnit.java:162-164 | The program area from 0x200 on is zeroed and the interpreter area with the font below it is kept; nothing else changes. |
| Cpu.CentralProcessingUnit.UpdateTimer | src/main/java/de/nihas101/chip8/hardware/CentralProcessingUnit.java:169-172 | Both timers count down one tick (Semantics.TickTimers), reporting the onZero callback of each timer that was at zero. |
| Cpu.CentralProcessingUnit.SetKeyCode | src/main/java/de/nihas101/chip8/hardware/CentralProcessingUnit.java:943-945 | Only the pressed key code changes. |
| Cpu.CentralProcessingUnit.SetStop | src/main/java/de/nihas101/chip8/hardware/CentralProcessingUnit.java:959-961 | Only the stop flag changes. |
| Cpu.CentralProcessingUnit.SetPause | src/main/java/de/nihas101/chip8/hardware/CentralProcessingUnit.java:972-974 | Only the pause flag changes. |
| Cpu.CentralProcessingUnit.SetCycles | src/main/java/de/nihas101/chip8/hardware/CentralProcessingUnit.java:988-990 | Only the cycle count changes. |
| Cpu.CentralProcessingUnit.SetOpCode | src/main/java/de/nihas101/chip8/hardware/CentralProcessingUnit.java:992-994 | The trace text is replaced and the machine state is untouched. |
| Cpu.CentralProcessingUnit.DecodeNextOpCode | src/main/java/de/nihas101/chip8/hardware/CentralProcessingUnit.java:179-184 | One CPU cycle on the objects is exactly one Semantics.Step of the machine they represent, the FX0A wait included. |
| Cpu.CentralProcessingUnit.RollBack | src/main/java/de/nihas101/chip8/hardware/CentralProcessingUnit.java:473-486 | While FX0A waits, only PC changes, back to the waiting instruction. |
| Cpu.CentralProcessingUnit.IncrementCycles | src/main/java/de/nihas101/chip8/hardware/CentralProcessingUnit.java:179-184 | The cycle counter advances as Semantics.CountCycle says: only while running, saturating at Integer.MAX_VALUE. |
| Cpu.CentralProcessingUnit.Assemble | src/main/java/de/nihas101/chip8/hardware/CentralProcessingUnit.java:890-901 | The word or-ed from the shifted high byte and the low byte equals Semantics.Word, whose high byte is high and low byte is low. |
| Cpu.CentralProcessingUnit.GetNextOpCode | src/main/java/de/nihas101/chip8/hardware/CentralProcessingUnit.java:890-901 | The fetch on the objects is Semantics.Fetch: on success PC moves past two bytes and the opcode is the big-endian word there; a read outside memory throws with PC past the bytes read. |
| Cpu.CentralProcessingUnit.IncrementPC | src/main/java/de/nihas101/chip8/hardware/memory/ProgramCounter.java:26-28 | Only PC changes, to PC + 1 in 16 bits. |
| Cpu.CentralProcessingUnit.DecodeOpCode | src/main/java/de/nihas101/chip8/hardware/CentralProcessingUnit.java:193-254 | Executing an opcode on the objects is Semantics.Decode of the machine, for every opcode and random value. |
| Cpu.CentralProcessingUnit.DecodeOpCode0To3 | src/main/java/de/nihas101/chip8/hardware/CentralProcessingUnit.java:194-208 | First nibbles 0 to 3 (screen clear/return, jump, call, skip if VX == NN) agree with Semantics.Decode. |
| Cpu.CentralProcessingUnit.DecodeOpCode4To7 | src/main/java/de/nihas101/chip8/hardware/CentralProcessingUnit.java:209-226 | First nibbles 4 to 7 (skips, VX := NN, VX += NN) agree with Semantics.Decode. |
| Cpu.CentralProcessingUnit.DecodeOpCode8ToB | src/main/java/de/nihas101/chip8/hardware/CentralProcessingUnit.java:227-239 | First nibbles 8 to B (register arithmetic, skip on VX != VY, I := NNN, jump to V0 + NNN) agree with Semantics.Decode. |
| Cpu.CentralProcessingUnit.DecodeOpCodeCToF | src/main/java/de/nihas101/chip8/hardware/CentralProcessingUnit.java:240-254 | First nibbles C to F (random, sprite, key skips, F group) agree with Semantics.Decode for the random value r. |
| Cpu.CentralProcessingUnit.MaskAddress | src/main/java/de/nihas101/chip8/hardware/CentralProcessingUnit.java:198-200 | opCode & 0x0FFF is the low twelve bits, the address NNN. |
| Cpu.CentralProcessingUnit.MaskByte | src/main/java/de/nihas101/chip8/hardware/CentralProcessingUnit.java:204-208 | opCode & 0x00FF is the low byte, the constant NN. |
| Cpu.CentralProcessingUnit.OpCode0XYZ | src/main/java/de/nihas101/chip8/hardware/CentralProcessingUnit.java:494-510 | The 0 group agrees with Semantics.Decode: 00?0 clears the screen, 00?N returns, other words are unknown opcodes. |
| Cpu.CentralProcessingUnit.OpCodeFXYZ | src/main/java/de/nihas101/chip8/hardware/CentralProcessingUnit.java:262-285 | The F group agrees with Semantics.OpFXYZ, unknown combinations included. |
| Cpu.CentralProcessingUnit.OpCodeFX0Y | src/main/java/de/nihas101/chip8/hardware/CentralProcessingUnit.java:399-410 | FX07 and FX0A agree with Semantics.OpFXYZ. |
| Cpu.CentralProcessingUnit.OpCodeFX1Y | src/main/java/de/nihas101/chip8/hardware/CentralProcessingUnit.java:418-432 | FX15, FX18 and FX1E agree with Semantics.OpFXYZ. |
| Cpu.CentralProcessingUnit.OpCodeEXYZ | src/main/java/de/nihas101/chip8/hardware/CentralProcessingUnit.java:566-577 | EX9E and EXA1 agree with Semantics.OpEXYZ; other third nibbles are unknown opcodes. |
| Cpu.CentralProcessingUnit.OpCode8XYN | src/main/java/de/nihas101/chip8/hardware/CentralProcessingUnit.java:526-558 | The 8 group agrees with Semantics.Op8XYN for every last nibble. |
| Cpu.CentralProcessingUnit.Peek | src/main/java/de/nihas101/chip8/hardware/memory/Registers.java:62-64 | peek reads VX as an UnsignedByte with no overflow. |
| Cpu.CentralProcessingUnit.SetRegister | src/main/java/de/nihas101/chip8/hardware/CentralProcessingUnit.java:700-704 | 6XNN: only VX changes, to NN. |
| Cpu.CentralProcessingUnit.AddRegister | src/main/java/de/nihas101/chip8/hardware/CentralProcessingUnit.java:712-716 | 7XNN: only VX changes, to VX + NN modulo 256; VF is not written. |
| Cpu.CentralProcessingUnit.Assign | src/main/java/de/nihas101/chip8/hardware/CentralProcessingUnit.java:724-728 | 8XY0 agrees with Semantics.Op8XYN: VX := VY. |
| Cpu.CentralProcessingUnit.AssignLogicOperation | src/main/java/de/nihas101/chip8/hardware/CentralProcessingUnit.java:730-747 | 8XY1, 8XY2 and 8XY3 agree with Semantics.Op8XYN. |
| Cpu.CentralProcessingUnit.AssignArithmeticOperation | src/main/java/de/nihas101/chip8/hardware/CentralProcessingUnit.java:749-763 | 8XY4, 8XY5 and 8XY7 agree with Semantics.ArithmeticOperation: the flag is written before the result. |
| Cpu.CentralProcessingUnit.ArithmeticOperation | src/main/java/de/nihas101/chip8/hardware/CentralProcessingUnit.java:765-769 | The result is the byte of the operation with its overflow bit; only VF changes, to the overflow or no-overflow value. |
| Cpu.CentralProcessingUnit.SetBorrowCarryFlag | src/main/java/de/nihas101/chip8/hardware/CentralProcessingUnit.java:771-774 | Only VF changes, to the overflow value exactly when the last operation overflowed. |
| Cpu.CentralProcessingUnit.ShiftRight | src/main/java/de/nihas101/chip8/hardware/CentralProcessingUnit.java:781-790 | 8XY6 agrees with Semantics.ShiftRight. |
| Cpu.CentralProcessingUnit.ShiftedRight | src/main/java/de/nihas101/chip8/hardware/CentralProcessingUnit.java:781-790 | VX & 1 is the low bit and VX >> 1 is VX halved. |
| Cpu.CentralProcessingUnit.ShiftLeft | src/main/java/de/nihas101/chip8/hardware/CentralProcessingUnit.java:797-806 | 8XYE agrees with Semantics.ShiftLeft. |
| Cpu.CentralProcessingUnit.ShiftedLeft | src/main/java/de/nihas101/chip8/hardware/CentralProcessingUnit.java:797-806 | (VX & 0x80) >> 7 is the top bit and VX << 1 is VX doubled modulo 256. |
| Cpu.CentralProcessingUnit.PokeRegister | src/main/java/de/nihas101/chip8/hardware/memory/Registers.java:71-73 | poke changes only VX. |
| Cpu.CentralProcessingUnit.RandomAnd | src/main/java/de/nihas101/chip8/hardware/CentralProcessingUnit.java:664-669 | CXNN: only VX changes, to NN & r for the random value r below 255. |
| Cpu.CentralProcessingUnit.ReturnFromSubRoutine | src/main/java/de/nihas101/chip8/hardware/CentralProcessingUnit.java:515-518 | 00EE agrees with Semantics.ReturnFromSubRoutine: PC := popped address; an empty stack throws and changes nothing. |
| Cpu.CentralProcessingUnit.GotoOp | src/main/java/de/nihas101/chip8/hardware/CentralProcessingUnit.java:880-883 | 1NNN agrees with Semantics.GotoOp: only PC changes, to NNN. |
| Cpu.CentralProcessingUnit.CallSubRoutine | src/main/java/de/nihas101/chip8/hardware/CentralProcessingUnit.java:865-873 | 2NNN agrees with Semantics.CallSubRoutine: the counter is pushed, then PC := NNN. |
| Cpu.CentralProcessingUnit.SkipIfEqual | src/main/java/de/nihas101/chip8/hardware/CentralProcessingUnit.java:828-834 | 3XNN: PC skips two bytes exactly when VX == NN; nothing else changes. |
| Cpu.CentralProcessingUnit.SkipIfNotEqual | src/main/java/de/nihas101/chip8/hardware/CentralProcessingUnit.java:814-820 | 4XNN: PC skips two bytes exactly when VX != NN. |
| Cpu.CentralProcessingUnit.SkipIfEqualReg | src/main/java/de/nihas101/chip8/hardware/CentralProcessingUnit.java:842-846 | 5XY0: PC skips two bytes exactly when VX == VY. |
| Cpu.CentralProcessingUnit.SkipIfNotEqualReg | src/main/java/de/nihas101/chip8/hardware/CentralProcessingUnit.java:854-858 | 9XY0: PC skips two bytes exactly when VX != VY. |
| Cpu.CentralProcessingUnit.SkipIfKeyPressed | src/main/java/de/nihas101/chip8/hardware/CentralProcessingUnit.java:606-611 | EX9E: PC skips two bytes exactly when VX equals the pressed key code. |
| Cpu.CentralProcessingUnit.SkipIfKeyNotPressed | src/main/java/de/nihas101/chip8/hardware/CentralProcessingUnit.java:594-599 | EXA1: PC skips two bytes exactly when VX differs from the pressed key code. |
| Cpu.CentralProcessingUnit.SetAddress | src/main/java/de/nihas101/chip8/hardware/CentralProcessingUnit.java:676-680 | ANNN: only I changes, to NNN. |
| Cpu.CentralProcessingUnit.SetPC | src/main/java/de/nihas101/chip8/hardware/CentralProcessingUnit.java:687-692 | BNNN: only PC changes, to V0 + NNN in 16 bits. |
| Cpu.CentralProcessingUnit.GotoSpriteAddress | src/main/java/de/nihas101/chip8/hardware/CentralProcessingUnit.java:293-297 | FX29 agrees with Semantics.OpFXYZ: I := the font glyph address of VX. |
| Cpu.CentralProcessingUnit.SpriteAddress | src/main/java/de/nihas101/chip8/hardware/CentralProcessingUnit.java:293-297 | The glyph address is 5 * VX taken as a byte. |
| Cpu.CentralProcessingUnit.GetDelayTimer | src/main/java/de/nihas101/chip8/hardware/CentralProcessingUnit.java:584-587 | FX07 agrees with Semantics.OpFXYZ: VX := the delay timer. |
| Cpu.CentralProcessingUnit.WaitForInput | src/main/java/de/nihas101/chip8/hardware/CentralProcessingUnit.java:473-486 | FX0A agrees with Semantics.WaitForInput: it waits, changing nothing, while no key is pressed and the CPU runs; then VX := the key code. |
| Cpu.CentralProcessingUnit.SetDelayTimer | src/main/java/de/nihas101/chip8/hardware/CentralProcessingUnit.java:462-466 | FX15 agrees with Semantics.OpFXYZ: the delay timer := VX. |
| Cpu.CentralProcessingUnit.SetSoundTimer | src/main/java/de/nihas101/chip8/hardware/CentralProcessingUnit.java:451-455 | FX18 agrees with Semantics.SetSoundTimer, the missing-callback exception included. |
| Cpu.CentralProcessingUnit.SetAddressReg | src/main/java/de/nihas101/chip8/hardware/CentralProcessingUnit.java:439-444 | FX1E agrees with Semantics.OpFXYZ: I := VX + I in 16 bits. |
| Cpu.CentralProcessingUnit.StoreBinaryCodedDecimals | src/main/java/de/nihas101/chip8/hardware/CentralProcessingUnit.java:379-391 | FX33 agrees with Semantics.StoreBinaryCodedDecimals, including a throw part-way through. |
| Cpu.CentralProcessingUnit.WriteDigit | src/main/java/de/nihas101/chip8/hardware/memory/Memory.java:60-62 | One write succeeds exactly when the address is in memory and then matches Semantics.WriteCell; a failed write changes nothing. |
| Cpu.CentralProcessingUnit.InteractWithReg | src/main/java/de/nihas101/chip8/hardware/CentralProcessingUnit.java:351-356 | FX55/FX65 over registers 0..X agree with Semantics.Dump or Semantics.Load, stopping at the first access that throws. |
| Cpu.CentralProcessingUnit.InteractOnce | src/main/java/de/nihas101/chip8/hardware/CentralProcessingUnit.java:351-356 | One loop round extends the Interaction by register i, as a success or as the IndexOutOfBounds throw. |
| Cpu.CentralProcessingUnit.Execute | src/main/java/de/nihas101/chip8/hardware/CentralProcessingUnit.java:336-349 | dumpReg writes V[i] to the address and loadReg reads it into V[i], each succeeding exactly when the address is in memory; a failure changes nothing. |
| Cpu.CentralProcessingUnit.DrawSprite | src/main/java/de/nihas101/chip8/hardware/CentralProcessingUnit.java:620-637 | DXYN agrees with Semantics.DrawSprite. |
| Cpu.CentralProcessingUnit.DrawRowsOfSprite | src/main/java/de/nihas101/chip8/hardware/CentralProcessingUnit.java:620-637 | The row loop agrees with Semantics.DrawRows for the sprite's height, stopping at the first row that throws. |
| Cpu.CentralProcessingUnit.NextLine | src/main/java/de/nihas101/chip8/hardware/CentralProcessingUnit.java:620-637 | The row counter advances by one as an UnsignedShort. |
| Cpu.CentralProcessingUnit.DrawRowOfSprite | src/main/java/de/nihas101/chip8/hardware/CentralProcessingUnit.java:620-637 | One loop round extends Semantics.DrawRows by one row, as a success or as the IndexOutOfBounds throw. |
| Cpu.CentralProcessingUnit.DrawLineOfSprite | src/main/java/de/nihas101/chip8/hardware/CentralProcessingUnit.java:639-652 | One sprite row agrees with Semantics.DrawLine over all eight columns. |
| Cpu.CentralProcessingUnit.DrawPixel | src/main/java/de/nihas101/chip8/hardware/CentralProcessingUnit.java:639-652 | One column extends Semantics.DrawLine by that column. |
| Cpu.CentralProcessingUnit.IsBitSet | src/main/java/de/nihas101/chip8/hardware/CentralProcessingUnit.java:639-652 | (data & mask) != 0 holds exactly when bit xPixel of the row, counted from the top, is set. |
| Cpu.CentralProcessingUnit.TogglePixel | src/main/java/de/nihas101/chip8/hardware/CentralProcessingUnit.java:639-652 | A set bit agrees with Semantics.FlipPixel: VF := 1 on a lit pixel, then the pixel is inverted. |
| Cpu.CentralProcessingUnit.SetCollisionRegister | src/main/java/de/nihas101/chip8/hardware/CentralProcessingUnit.java:654-656 | VF := 1 exactly when the pixel, wrapped onto the screen, is lit; otherwise nothing changes. |
| Semantics.SetV | src/main/java/de/nihas101/chip8/hardware/memory/Registers.java:71-73 | Writing a register keeps the machine well formed and leaves key code, flags, cycles and sound callback alone. |
| Semantics.ReadCell | src/main/java/de/nihas101/chip8/hardware/memory/Memory.java:70-73 | A read succeeds exactly when the address is inside the 4095-cell memory, addresses 0 .. 4094. |
| Semantics.WriteCell | src/main/java/de/nihas101/chip8/hardware/memory/Memory.java:60-62 | A write succeeds exactly when the address is inside memory and keeps the machine well formed. |
| Semantics.ClearScreen | src/main/java/de/nihas101/chip8/hardware/memory/ScreenMemory.java:51-55 | 00E0 keeps the machine well formed and the control state as it was. |
| Semantics.ReturnFromSubRoutine | src/main/java/de/nihas101/chip8/hardware/CentralProcessingUnit.java:515-518 | 00EE keeps the machine well formed and the control state unchanged, on success and on an empty stack. |
| Semantics.ArithmeticOperation | src/main/java/de/nihas101/chip8/hardware/CentralProcessingUnit.java:749-769 | 8XY4/8XY5/8XY7 keep the machine well formed and the control state unchanged. |
| Semantics.ShiftRight | src/main/java/de/nihas101/chip8/hardware/CentralProcessingUnit.java:781-790 | 8XY6 keeps the machine well formed and the control state unchanged. |
| Semantics.ShiftLeft | src/main/java/de/nihas101/chip8/hardware/CentralProcessingUnit.java:797-806 | 8XYE keeps the machine well formed and the control state unchanged. |
| Semantics.Op8XYN | src/main/java/de/nihas101/chip8/hardware/CentralProcessingUnit.java:526-558 | The 8 group keeps the machine well formed and the control state unchanged, unknown opcodes included. |
| Semantics.FlipPixel | src/main/java/de/nihas101/chip8/hardware/CentralProcessingUnit.java:639-656 | Toggling a pixel keeps the machine well formed and the control state unchanged. |
| Semantics.DrawLine | src/main/java/de/nihas101/chip8/hardware/CentralProcessingUnit.java:639-652 | Drawing a row keeps the machine well formed and the control state unchanged. |
| Semantics.DrawLineNext | src/main/java/de/nihas101/chip8/hardware/CentralProcessingUnit.java:639-652 | Column c of a row flips pixel (cx + c, y) exactly when bit c of the row is set, and does nothing else. |
| Semantics.DrawRows | src/main/java/de/nihas101/chip8/hardware/CentralProcessingUnit.java:620-637 | Drawing rows keeps the machine well formed; it completes or fails with IndexOutOfBounds and nothing else. |
| Semantics.DrawRowsStaysFailed | src/main/java/de/nihas101/chip8/hardware/CentralProcessingUnit.java:620-637 | A row that throws ends the sprite: further rows change nothing. |
| Semantics.DrawSprite | src/main/java/de/nihas101/chip8/hardware/CentralProcessingUnit.java:620-637 | DXYN keeps the machine well formed and the control state unchanged. |
| Semantics.StoreBinaryCodedDecimals | src/main/java/de/nihas101/chip8/hardware/CentralProcessingUnit.java:379-391 | FX33 keeps the machine well formed and the control state unchanged. |
| Semantics.Dump | src/main/java/de/nihas101/chip8/hardware/CentralProcessingUnit.java:336-339 | FX55 keeps the machine well formed; it completes or fails with IndexOutOfBounds and nothing else. |
| Semantics.DumpStaysFailed | src/main/java/de/nihas101/chip8/hardware/CentralProcessingUnit.java:351-356 | A write that throws ends FX55: the registers after it are not dumped. |
| Semantics.Load | src/main/java/de/nihas101/chip8/hardware/CentralProcessingUnit.java:346-349 | FX65 keeps the machine well formed; it completes or fails with IndexOutOfBounds and nothing else. |
| Semantics.LoadStaysFailed | src/main/java/de/nihas101/chip8/hardware/CentralProcessingUnit.java:351-356 | A read that throws ends FX65: the registers after it are not loaded. |
| Semantics.WaitForInput | src/main/java/de/nihas101/chip8/hardware/CentralProcessingUnit.java:473-486 | FX0A keeps the machine well formed and the control state unchanged. |
| Semantics.SetSoundTimer | src/main/java/de/nihas101/chip8/hardware/CentralProcessingUnit.java:451-455 | FX18 keeps the machine well formed and the control state unchanged. |
| Semantics.OpEXYZ | src/main/java/de/nihas101/chip8/hardware/CentralProcessingUnit.java:566-577 | The E group keeps the machine well formed and the control state unchanged. |
| Semantics.OpFXYZ | src/main/java/de/nihas101/chip8/hardware/CentralProcessingUnit.java:262-285 | The F group keeps the machine well formed and the control state unchanged. |
| Semantics.Decode | src/main/java/de/nihas101/chip8/hardware/CentralProcessingUnit.java:193-254 | Every opcode keeps the machine well formed and the control state unchanged. |
| Semantics.AwaitingKeyOnlyForFX0A | src/main/java/de/nihas101/chip8/hardware/CentralProcessingUnit.java:473-486 | Only FX0A waits, and exactly when no key is down and the CPU is not stopped; a wait leaves the machine as it was. |
| Semantics.CountCycle | src/main/java/de/nihas101/chip8/hardware/CentralProcessingUnit.java:179-184 | The cycle count either stays or goes up by exactly one, and only below Integer.MAX_VALUE. |
| Semantics.Word | src/main/java/de/nihas101/chip8/hardware/CentralProcessingUnit.java:890-901 | The assembled word has high as its upper byte and low as its lower byte. |
| Semantics.Fetch | src/main/java/de/nihas101/chip8/hardware/CentralProcessingUnit.java:890-901 | Only PC changes; on success PC advances by two past an in-memory word which becomes the opcode; otherwise IndexOutOfBounds. |
| Semantics.Step | src/main/java/de/nihas101/chip8/hardware/CentralProcessingUnit.java:179-184 | A cycle keeps the machine well formed, and a cycle that waits for a key leaves the machine exactly as it was. |
| InstructionProperties.AddSetsCarry | src/main/java/de/nihas101/chip8/hardware/CentralProcessingUnit.java:749-774 | 8XY4: VX := (VX + VY) mod 256 and VF := 1 exactly when the sum exceeds 255; with X = F the sum wins over the flag. |
| InstructionProperties.SubtractSetsBorrow | src/main/java/de/nihas101/chip8/hardware/CentralProcessingUnit.java:749-774 | 8XY5 and 8XY7: VX := the difference mod 256 and VF := 0 exactly when it went below zero (equal operands give 1). |
| InstructionProperties.ShiftSetsOutBit | src/main/java/de/nihas101/chip8/hardware/CentralProcessingUnit.java:781-806 | 8XY6 and 8XYE: VX shifted by one and VF := the bit shifted out, which wins when X = F. |
| InstructionProperties.UnknownOpCodes | src/main/java/de/nihas101/chip8/hardware/CentralProcessingUnit.java:193-254 | UnknownOPCodeException is thrown exactly for the words no handler recognises, and before anything changes. |
| InstructionProperties.ZeroGroup | src/main/java/de/nihas101/chip8/hardware/CentralProcessingUnit.java:494-518 | 00?0 clears the screen; 00?N with N != 0 pops the return address into PC, and an empty stack throws with the machine unchanged. |
| InstructionProperties.ZeroNibbles | src/main/java/de/nihas101/chip8/opcodes/OPCode.java:10-17 | The word 0x0000 splits into nibbles that select the screen clear. |
| InstructionProperties.StepDecoded | src/main/java/de/nihas101/chip8/hardware/CentralProcessingUnit.java:179-184 | A completed step is the fetch, then the decode of the fetched opcode, then the cycle count. |
| InstructionProperties.ZeroWordStep | src/main/java/de/nihas101/chip8/hardware/CentralProcessingUnit.java:179-184 | A zero word at PC clears the screen, moves PC on by two and counts one cycle. |
| InstructionProperties.CallThenReturn | src/main/java/de/nihas101/chip8/hardware/CentralProcessingUnit.java:515-518 | 2NNN jumps to NNN, and a 00EE after it gives back exactly the machine before the call. |
| InstructionProperties.CallPushesNextAddress | src/main/java/de/nihas101/chip8/hardware/CentralProcessingUnit.java:865-873 | A 2NNN step pushes PC + 2, the address of the next instruction, and jumps to NNN. |
| InstructionProperties.SkipsOnComparison | src/main/java/de/nihas101/chip8/hardware/CentralProcessingUnit.java:814-858 | 3XNN, 4XNN, 5XY0, 9XY0, EX9E and EXA1 move PC on by exactly 2 when their comparison holds and change nothing otherwise. |
| InstructionProperties.LowNibbleIgnored | src/main/java/de/nihas101/chip8/hardware/CentralProcessingUnit.java:566-577 | 5XY?, 9XY?, EX9?, EXA? and FX2? behave the same for every low nibble. |
| InstructionProperties.SpriteAddressOfDigit | src/main/java/de/nihas101/chip8/hardware/CentralProcessingUnit.java:293-297 | FX29: I := (VX * 5) mod 256, the glyph address of VX's low digit; nothing else changes. |
| InstructionProperties.DecimalDigitsStored | src/main/java/de/nihas101/chip8/hardware/CentralProcessingUnit.java:379-391 | FX33 inside memory stores the hundreds, tens and units of VX at I, I + 1, I + 2 and changes no other cell. |
| InstructionProperties.DumpCompletes | src/main/java/de/nihas101/chip8/hardware/CentralProcessingUnit.java:336-356 | FX55 completes when every cell it touches is inside memory, and keeps I. |
| InstructionProperties.LoadCompletes | src/main/java/de/nihas101/chip8/hardware/CentralProcessingUnit.java:346-356 | FX65 completes when every cell it touches is inside memory, and keeps I. |
| InstructionProperties.DumpNext | src/main/java/de/nihas101/chip8/hardware/CentralProcessingUnit.java:336-339 | One more register of FX55 writes V[i] to cell I + i of the machine so far. |
| InstructionProperties.LoadNext | src/main/java/de/nihas101/chip8/hardware/CentralProcessingUnit.java:346-349 | One more register of FX65 reads cell I + i into V[i] of the machine so far. |
| InstructionProperties.DumpWrites | src/main/java/de/nihas101/chip8/hardware/CentralProcessingUnit.java:336-356 | FX55 inside memory: cell I + i holds V[i] for each i below the count, and no other part of the machine changes. |
| InstructionProperties.LoadReads | src/main/java/de/nihas101/chip8/hardware/CentralProcessingUnit.java:346-356 | FX65 inside memory: V[i] holds cell I + i for each i below the count, and no other part of the machine changes. |
| InstructionProperties.TransferOutsideMemory | src/main/java/de/nihas101/chip8/hardware/CentralProcessingUnit.java:351-356 | FX55 and FX65 throw IndexOutOfBounds when their last cell I + X is outside memory. |
| InstructionProperties.DumpThenLoad | src/main/java/de/nihas101/chip8/hardware/CentralProcessingUnit.java:336-356 | FX65 after FX55 with the same X and I gives back the machine FX55 left: a round trip. |
| InstructionProperties.StoreThenLoadRegisters | src/main/java/de/nihas101/chip8/hardware/CentralProcessingUnit.java:262-285 | The same round trip through the decoder: FX65 after FX55 leaves the machine as FX55 made it. |
| InstructionProperties.StepCountsCycle | src/main/java/de/nihas101/chip8/hardware/CentralProcessingUnit.java:179-184 | A step counts one cycle exactly when its instruction completed while neither stopped nor paused, stopping at Integer.MAX_VALUE. |
| SpriteProperties.LineHitsOwnLine | src/main/java/de/nihas101/chip8/hardware/CentralProcessingUnit.java:639-652 | A sprite row only reaches pixels on its own (wrapped) line. |
| SpriteProperties.NoEarlierColumn | src/main/java/de/nihas101/chip8/hardware/CentralProcessingUnit.java:639-652 | Columns before column j never reach the pixel column j lands on, so no pixel is toggled twice in a row. |
| SpriteProperties.NoEarlierRow | src/main/java/de/nihas101/chip8/hardware/CentralProcessingUnit.java:620-637 | Rows before row j never reach the line row j is drawn on. |
| SpriteProperties.LineCollidesOnOwnLine | src/main/java/de/nihas101/chip8/hardware/CentralProcessingUnit.java:639-656 | Whether a row collides depends only on the pixels of its own line. |
| SpriteProperties.DrawLineToggles | src/main/java/de/nihas101/chip8/hardware/CentralProcessingUnit.java:639-656 | A row toggles exactly the pixels its set bits land on, VF := 1 exactly when one of them was lit, and nothing else changes. |
| SpriteProperties.DrawRowsToggle | src/main/java/de/nihas101/chip8/hardware/CentralProcessingUnit.java:620-656 | Rows inside memory toggle exactly the pixels their set bits land on, VF := 1 exactly when one was lit, and nothing else changes. |
| SpriteProperties.DrawRowsCompletes | src/main/java/de/nihas101/chip8/hardware/CentralProcessingUnit.java:620-637 | A sprite completes exactly when its rows are inside memory; otherwise it throws IndexOutOfBounds. |
| SpriteProperties.Coordinate | src/main/java/de/nihas101/chip8/hardware/CentralProcessingUnit.java:620-627 | The drawing column is VX, except that VF is cleared first, so X = F draws at 0. |
| SpriteProperties.DrawSpriteToggles | src/main/java/de/nihas101/chip8/hardware/CentralProcessingUnit.java:620-656 | DXYN toggles pixel ((VX + column) mod 64, (VY + row) mod 32) for each set bit, VF is 1 exactly when one was lit and 0 otherwise. |
| SpriteProperties.DrawSpriteTwice | src/main/java/de/nihas101/chip8/hardware/CentralProcessingUnit.java:620-656 | Drawing the same sprite twice at the same place gives back the screen it started from. |
| Emulation.Cycle | src/main/java/de/nihas101/chip8/hardware/Emulator.java:81-92 | One loop pass is a step after which an exception stops the CPU; pause is kept and the cycle count moves as the step says. |
| Emulation.ExtendRun | src/main/java/de/nihas101/chip8/hardware/Emulator.java:81-92 | A run extended by the pass that follows its last machine is still a run. |
| Emulation.Passes | src/main/java/de/nihas101/chip8/hardware/Emulator.java:81-92 | The loop makes the whole number of passes in cycles, none below one. |
| Emulation.PassesCounted | src/main/java/de/nihas101/chip8/hardware/Emulator.java:81-92 | Passes(cycles) is the only pass count after which less than one cycle is left. |
| Emulation.FreshMachine | src/main/java/de/nihas101/chip8/hardware/Emulator.java:29-71 | A fresh machine is well formed, PC at 0x200, no cycles, running, and memory zero above the glyphs. |
| Emulation.StoppedCycle | src/main/java/de/nihas101/chip8/hardware/CentralProcessingUnit.java:179-184 | A pass on a stopped CPU leaves it stopped and counts nothing. |
| Emulation.StoppedRunCountsNothing | src/main/java/de/nihas101/chip8/hardware/Emulator.java:81-92 | Once stopped, a CPU stays stopped and counts no cycles for the rest of the run. |
| Emulation.CompletedCycle | src/main/java/de/nihas101/chip8/hardware/Emulator.java:81-92 | A running pass whose instruction completes counts one cycle and leaves the CPU running. |
| Emulation.CompletedRunCountsCycles | src/main/java/de/nihas101/chip8/hardware/Emulator.java:81-92 | A running CPU whose instructions all complete counts one cycle per pass and stays running. |
| Emulation.ZeroWordCycle | src/main/java/de/nihas101/chip8/hardware/Emulator.java:81-92 | A pass over a zero word moves PC on by two, counts a cycle and keeps memory. |
| Emulation.ZeroWordsCountCycles | src/main/java/de/nihas101/chip8/hardware/Emulator.java:81-92 | Over a stretch of zero words a running CPU counts one cycle and moves PC by two per pass, keeping memory. |
| Emulation.HundredCyclesOnFreshEmulator | src/main/java/de/nihas101/chip8/hardware/Emulator.java:29-92 | A fresh emulator run for 100 passes has counted 100 cycles. |
| Emulation.FreshCentralProcessingUnit | src/main/java/de/nihas101/chip8/hardware/Emulator.java:45-71 | The wired components form a CPU whose machine is FreshMachine. |
| Emulation.Emulator.constructor | src/main/java/de/nihas101/chip8/hardware/Emulator.java:25-31 | createEmulator yields an emulator whose machine is FreshMachine. |
| Emulation.Emulator.ExecuteCpuCycles | src/main/java/de/nihas101/chip8/hardware/Emulator.java:81-92 | The loop makes Passes(cycles) passes forming a run from the old machine to the new one, and returns the fractional rest in [0, 1). |
| Emulation.Emulator.ExecutePass | src/main/java/de/nihas101/chip8/hardware/Emulator.java:81-92 | One pass extends the run by the machine it leaves. |
| Emulation.Emulator.ExecuteCpuCycle | src/main/java/de/nihas101/chip8/hardware/Emulator.java:81-92 | One pass on the objects is Cycle of the machine. |
| Emulation.Emulator.Stop | src/main/java/de/nihas101/chip8/hardware/Emulator.java:95-100 | Only the stop flag changes, to true. |
| Emulation.Emulator.SetCentralProcessingUnit | src/main/java/de/nihas101/chip8/hardware/Emulator.java:106-108 | The emulator drives the given well-formed CPU and is itself well formed afterwards. |
| SaveStates.Line | src/main/java/de/nihas101/chip8/savestates/SaveState.java:220-222 | A line is the tag, the payload in braces, three characters longer than the payload. |
| SaveStates.Wrap | src/main/java/de/nihas101/chip8/savestates/SaveState.java:220-222 | wrap is the line followed by a newline. |
| SaveStates.WrittenLine | src/main/java/de/nihas101/chip8/savestates/SaveState.java:207-217 | Line i starts with the i-th tag of the order c, o, m, s, r, a, p, k, d, t, i. |
| SaveStates.Lines | src/main/java/de/nihas101/chip8/savestates/SaveState.java:207-217 | toString writes one line per component, eleven in all. |
| SaveStates.ToString | src/main/java/de/nihas101/chip8/savestates/SaveState.java:199-218 | The text is the cycles line followed by the other ten wrapped lines in order. |
| SaveStates.Unwrap | src/main/java/de/nihas101/chip8/savestates/SaveState.java:224-226 | unwrap succeeds exactly when index 2 to length - 1 of the untrimmed line fits the trimmed line, returning length - 3 characters; otherwise StringIndexOutOfBounds. |
| SaveStates.ReadNumber | src/main/java/de/nihas101/chip8/savestates/SaveState.java:135-145 | parseInt succeeds exactly on decimal int texts, with their value; otherwise NumberFormatException. |
| SaveStates.Items | src/main/java/de/nihas101/chip8/savestates/SaveState.java:168-186 | A list payload's items exist exactly when substring(1, length - 1) fits the trimmed payload; otherwise StringIndexOutOfBounds. |
| SaveStates.ReadRegisterFile | src/main/java/de/nihas101/chip8/savestates/SaveState.java:168-176 | readRegisters yields exactly sixteen registers when it succeeds. |
| SaveStates.Read | src/main/java/de/nihas101/chip8/savestates/SaveState.java:131-196 | Each tag's reader yields a component of the kind its case assigns. |
| SaveStates.PutTouchesItsTag | src/main/java/de/nihas101/chip8/savestates/SaveState.java:48-83 | A case of the switch assigns its own tag's local and no other. |
| SaveStates.PutTwice | src/main/java/de/nihas101/chip8/savestates/SaveState.java:48-83 | Assigning one local twice keeps only the second value. |
| SaveStates.ReadLine | src/main/java/de/nihas101/chip8/savestates/SaveState.java:48-83 | An empty line throws at charAt(0), an unknown tag is skipped, and a known tag stores under that tag a component of its kind. |
| SaveStates.Perform | src/main/java/de/nihas101/chip8/savestates/SaveState.java:48-83 | Carrying out a line's effect fails exactly when the line threw, with that exception. |
| SaveStates.Effects | src/main/java/de/nihas101/chip8/savestates/SaveState.java:46-83 | One effect per line, each of a storable kind. |
| SaveStates.CreateSaveState | src/main/java/de/nihas101/chip8/savestates/SaveState.java:33-108 | The loop over the lines gives exactly ReadState of the text. |
| SaveStates.PerformedNext | src/main/java/de/nihas101/chip8/savestates/SaveState.java:48-83 | n lines carried out are the n-th line's effect on the first n - 1. |
| SaveStates.PerformedFailedNext | src/main/java/de/nihas101/chip8/savestates/SaveState.java:48-83 | After a line threw, the next line does not change the outcome. |
| SaveStates.PerformedStaysFailed | src/main/java/de/nihas101/chip8/savestates/SaveState.java:48-83 | An exception ends the loop: the lines after it are not read. |
| SaveStates.UnwrapLine | src/main/java/de/nihas101/chip8/savestates/SaveState.java:220-226 | unwrap undoes wrap: a written line gives its payload back. |
| SaveStates.LineStores | src/main/java/de/nihas101/chip8/savestates/SaveState.java:48-83 | A line with a known tag stores what its payload reads as. |
| SaveStates.IntTextCharacters | src/main/java/de/nihas101/chip8/savestates/SaveState.java:207-217 | A number's text holds no blank, newline or comma. |
| SaveStates.JoinAvoids | src/main/java/de/nihas101/chip8/savestates/SaveState.java:207-217 | A character absent from the pieces and the separator is absent from their join. |
| SaveStates.ArrayTextHasNoNewline | src/main/java/de/nihas101/chip8/savestates/SaveState.java:207-217 | Arrays.toString of numbers holds no newline. |
| SaveStates.ItemsOfArray | src/main/java/de/nihas101/chip8/savestates/SaveState.java:168-186 | Splitting the list payload gives back the numbers' texts that Arrays.toString wrote. |
| SaveStates.ByteText | src/main/java/de/nihas101/chip8/hardware/memory/Registers.java:27-31 | A byte's text reads back as the same byte, as a register and as a memory cell. |
| SaveStates.CellValuesOfReadable | src/main/java/de/nihas101/chip8/hardware/memory/Memory.java:26-29 | Texts that each read as a cell read together as those cells. |
| SaveStates.CellValuesOfTexts | src/main/java/de/nihas101/chip8/hardware/memory/Memory.java:26-29 | new Memory(String[]) undoes the memory's list of values. |
| SaveStates.RegisterValuesOfReadable | src/main/java/de/nihas101/chip8/hardware/memory/Registers.java:27-31 | Sixteen texts that each read as a register read together as those registers. |
| SaveStates.ReadRegistersOfTexts | src/main/java/de/nihas101/chip8/hardware/memory/Registers.java:27-31 | new Registers(String[]) undoes the registers' list of values. |
| SaveStates.Restored | src/main/java/de/nihas101/chip8/savestates/SaveState.java:91-107 | A restored state has every component present, and completing it gives back the fields written. |
| SaveStates.Complete | src/main/java/de/nihas101/chip8/savestates/SaveState.java:91-107 | A state read back is complete exactly when every object component was read. |
| SaveStates.TerminatedIsJoin | src/main/java/de/nihas101/chip8/savestates/SaveState.java:207-217 | The newline-terminated lines equal their join on newlines with an empty last piece. |
| SaveStates.LineAvoidsNewline | src/main/java/de/nihas101/chip8/savestates/SaveState.java:220-222 | A line holds a newline only where its payload does. |
| SaveStates.NumberAvoidsNewline | src/main/java/de/nihas101/chip8/savestates/SaveState.java:207-217 | A number's text holds no newline. |
| SaveStates.WrittenLineAvoidsNewline | src/main/java/de/nihas101/chip8/savestates/SaveState.java:207-217 | No line toString writes holds a newline. |
| SaveStates.LinesSeparable | src/main/java/de/nihas101/chip8/savestates/SaveState.java:207-217 | The written lines can be split apart again on newlines. |
| SaveStates.SplitWritten | src/main/java/de/nihas101/chip8/savestates/SaveState.java:46 | Splitting toString's text on newlines gives back its eleven lines. |
| SaveStates.ReadCellsOfArray | src/main/java/de/nihas101/chip8/savestates/SaveState.java:178-186 | The memory payload toString writes reads back as that memory. |
| SaveStates.ReadRegisterFileOfArray | src/main/java/de/nihas101/chip8/savestates/SaveState.java:168-176 | The register payload toString writes reads back as those registers. |
| SaveStates.ReadNumberWritten | src/main/java/de/nihas101/chip8/savestates/SaveState.java:135-145 | A c, d or t payload written by valueOf reads back as the number. |
| SaveStates.ReadRegister16Written | src/main/java/de/nihas101/chip8/savestates/SaveState.java:156-166 | An a or p payload reads back as the sixteen-bit value written. |
| SaveStates.ReadTextWritten | src/main/java/de/nihas101/chip8/savestates/SaveState.java:131-133 | An o, s, k or i payload is kept as the text written. |
| SaveStates.ReadMemoryPayload | src/main/java/de/nihas101/chip8/savestates/SaveState.java:178-186 | An m payload is read by readMemory. |
| SaveStates.ReadRegistersPayload | src/main/java/de/nihas101/chip8/savestates/SaveState.java:168-176 | An r payload is read by readRegisters. |
| SaveStates.WrittenEffect | src/main/java/de/nihas101/chip8/savestates/SaveState.java:48-83 | Reading written line i stores under its tag a component of the right kind. |
| SaveStates.Stored | src/main/java/de/nihas101/chip8/savestates/SaveState.java:48-83 | Reading the written lines makes one storable effect per tag. |
| SaveStates.ReadNumberLine | src/main/java/de/nihas101/chip8/savestates/SaveState.java:135-145 | A c, d or t line reads as a store of the number written into it. |
| SaveStates.ReadRegister16Line | src/main/java/de/nihas101/chip8/savestates/SaveState.java:156-166 | An a or p line reads as a store of the value written into it. |
| SaveStates.ReadTextLine | src/main/java/de/nihas101/chip8/savestates/SaveState.java:131-133 | An o, s, k or i line reads as a store of its payload. |
| SaveStates.ReadMemoryLine | src/main/java/de/nihas101/chip8/savestates/SaveState.java:178-186 | The m line reads as a store of the memory written into it. |
| SaveStates.ReadRegistersLine | src/main/java/de/nihas101/chip8/savestates/SaveState.java:168-176 | The r line reads as a store of the registers written into it. |
| SaveStates.ReadWrittenLine | src/main/java/de/nihas101/chip8/savestates/SaveState.java:48-83 | Each written line reads as a store of the component it was written from. |
| SaveStates.ReadWrittenLines | src/main/java/de/nihas101/chip8/savestates/SaveState.java:48-83 | The effects of all written lines are the stores of the written components. |
| SaveStates.PutStored | src/main/java/de/nihas101/chip8/savestates/SaveState.java:48-83 | The store of line n - 1 turns the components of n - 1 lines into those of n. |
| SaveStates.PerformStoredPrefix | src/main/java/de/nihas101/chip8/savestates/SaveState.java:48-83 | The first n stores of a written state fill in its first n components. |
| SaveStates.PerformStored | src/main/java/de/nihas101/chip8/savestates/SaveState.java:48-83 | All stores of a written state fill in every component. |
| SaveStates.ReadWriteState | src/main/java/de/nihas101/chip8/savestates/SaveState.java:33-218 | Reading back what toString wrote restores every component, and writing it again gives the same text. |
| SaveStates.LaterLineWins | src/main/java/de/nihas101/chip8/savestates/SaveState.java:48-83 | A later line with the same tag overrides the earlier one, or throws as it would alone. |
| SaveStates.EmptyTextThrows | src/main/java/de/nihas101/chip8/savestates/SaveState.java:46-49 | An empty text throws at charAt(0) of its one empty line. |
| SaveStates.UntouchedGrows | src/main/java/de/nihas101/chip8/savestates/SaveState.java:48-83 | Changes under two sets of tags leave the components outside both as they were. |
| SaveStates.UntouchedWithin | src/main/java/de/nihas101/chip8/savestates/SaveState.java:48-83 | Untouched outside some tags means untouched outside any larger set. |
| SaveStates.PerformedKeepsDefaults | src/main/java/de/nihas101/chip8/savestates/SaveState.java:34-83 | Carrying out effects changes only the components of the tags they store under. |
| SaveStates.EffectsUnderHeads | src/main/java/de/nihas101/chip8/savestates/SaveState.java:48-49 | A line's effect stores under the line's first character. |
| SaveStates.StoredTagsStartLines | src/main/java/de/nihas101/chip8/savestates/SaveState.java:48-49 | Every tag stored under starts some line. |
| SaveStates.MissingSectionsKeepDefaults | src/main/java/de/nihas101/chip8/savestates/SaveState.java:34-45 | A component with no line keeps its default: null, 0 cycles or the empty opcode text. |
| Keys.ValueOf | src/main/java/de/nihas101/chip8/utils/keyConfiguration/Keys.java:23-80 | valueOf succeeds exactly on the sixteen key names, giving the code whose name it is; anything else is UnknownEmulatorKeyException. |
| Keys.ValueOfKeyName | src/main/java/de/nihas101/chip8/utils/keyConfiguration/Keys.java:23-80 | Every key name reads back as its own code, so valueOf is onto 0..15. |
| Keys.KeyNamesDistinct | src/main/java/de/nihas101/chip8/utils/keyConfiguration/Keys.java:23-80 | No two key codes share a name. |
| Keys.ValueOfInjective | src/main/java/de/nihas101/chip8/utils/keyConfiguration/Keys.java:23-80 | Two names with the same code are the same name, and no code is the no-key value. |
| EmulatorKeys.CreateEmulatorKey | src/main/java/de/nihas101/chip8/hardware/keys/EmulatorKey.java:33-36 | A key is created exactly for a valid key name, keeps the name and sets the key code valueOf gives; otherwise UnknownEmulatorKeyException. |
| EmulatorKeys.CreateKeyOfCode | src/main/java/de/nihas101/chip8/hardware/keys/EmulatorKey.java:33-36 | The key created from code k's name sets the key code to k. |
| EmulatorKeys.CreatedKeysDistinct | src/main/java/de/nihas101/chip8/hardware/keys/EmulatorKey.java:33-36 | Two created keys that set the same code have the same name. |
| EmulatorKeys.Triggered | src/main/java/de/nihas101/chip8/hardware/keys/EmulatorKey.java:24-26 | The NOP event changes nothing; a key-code event changes only the key code. |
| EmulatorKeys.TriggerCreatedKey | src/main/java/de/nihas101/chip8/hardware/keys/EmulatorKey.java:24-36 | Triggering a created key presses the code of its name, which is never the no-key value. |
| EmulatorKeys.Trigger | src/main/java/de/nihas101/chip8/hardware/keys/EmulatorKey.java:24-26 | Triggering on the CPU changes it exactly as Triggered says. |
| KeyConfigurations.StandardEntry | src/main/java/de/nihas101/chip8/utils/keyConfiguration/KeyConfiguration.java:64-86 | Host key k of the standard layout (X, 1, 2, 3, Q, W, E, A, S, D, Z, C, 4, R, F, V) presses keypad key k with the key createEmulatorKey makes of its name. |
| KeyConfigurations.StandardHosts | src/main/java/de/nihas101/chip8/utils/keyConfiguration/KeyConfiguration.java:64-86 | The standard layout binds exactly those sixteen host keys. |
| KeyConfigurations.StandardMapComplete | src/main/java/de/nihas101/chip8/utils/keyConfiguration/KeyConfiguration.java:64-86 | The standard layout has sixteen entries, every keypad key is reachable from some host key, and every key is a created key. |
| KeyConfigurations.StandardSize | src/main/java/de/nihas101/chip8/utils/keyConfiguration/KeyConfiguration.java:64-86 | The standard layout has sixteen entries. |
| KeyConfigurations.ReadLine | src/main/java/de/nihas101/chip8/utils/keyConfiguration/KeyConfiguration.java:47-58 | The bracket lines are passed over; a bound key is a created key under a host key KeyCode knows; the only exceptions are IndexOutOfBounds and IllegalArgument. |
| KeyConfigurations.ReadEntry | src/main/java/de/nihas101/chip8/utils/keyConfiguration/KeyConfiguration.java:49-56 | The fields of an entry line bind only a host key KeyCode knows, to a created key; a missing field throws IndexOutOfBounds and an unknown host key IllegalArgument. |
| KeyConfigurations.Apply | src/main/java/de/nihas101/chip8/utils/keyConfiguration/KeyConfiguration.java:42-53 | A line's effect on the map fails exactly when the line threw, with that exception. |
| KeyConfigurations.LineEffects | src/main/java/de/nihas101/chip8/utils/keyConfiguration/KeyConfiguration.java:40-42 | One effect per line. |
| KeyConfigurations.AppliedStaysFailed | src/main/java/de/nihas101/chip8/utils/keyConfiguration/KeyConfiguration.java:38-45 | Once a line throws, the rest of the lines are not looked at. |
| KeyConfigurations.AppliedWellFormed | src/main/java/de/nihas101/chip8/utils/keyConfiguration/KeyConfiguration.java:38-58 | A map built line by line only binds known host keys, to created keys. |
| KeyConfigurations.ParsedWellFormed | src/main/java/de/nihas101/chip8/utils/keyConfiguration/KeyConfiguration.java:38-58 | Whatever text is read, the resulting map binds known host keys to created keys only. |
| KeyConfigurations.KeyNameToken | src/main/java/de/nihas101/chip8/utils/keyConfiguration/Keys.java:23-80 | The key names valueOf accepts hold no blank and no "=". |
| KeyConfigurations.EntryFields | src/main/java/de/nihas101/chip8/utils/keyConfiguration/KeyConfiguration.java:47-52 | An entry line is no bracket line, splits on "=" into its two padded names, and trimming gives the names back. |
| KeyConfigurations.EntryLineAborts | src/main/java/de/nihas101/chip8/utils/keyConfiguration/KeyConfiguration.java:47-52 | Any entry-shaped line, whatever its padding, whose host key KeyCode does not know throws IllegalArgumentException. |
| KeyConfigurations.EntryLineIgnored | src/main/java/de/nihas101/chip8/utils/keyConfiguration/KeyConfiguration.java:47-58 | Any entry-shaped line with a known host key and a key name createEmulatorKey does not know is passed over. |
| KeyConfigurations.EntryLineBinds | src/main/java/de/nihas101/chip8/utils/keyConfiguration/KeyConfiguration.java:47-58 | Any entry-shaped line with a known host key and a known key name binds the host key to the created key. |
| KeyConfigurations.EntryLinesAppend | src/main/java/de/nihas101/chip8/utils/keyConfiguration/KeyConfiguration.java:105-107 | One more entry appends its "host = name" line and a line break. |
| KeyConfigurations.EntryTexts | src/main/java/de/nihas101/chip8/utils/keyConfiguration/KeyConfiguration.java:105-107 | One entry text per host key of the order. |
| KeyConfigurations.EntryLinesJoined | src/main/java/de/nihas101/chip8/utils/keyConfiguration/KeyConfiguration.java:100-112 | The terminated entry lines and "}" are the entry texts joined by line breaks. |
| KeyConfigurations.EntryLineAvoidsNewline | src/main/java/de/nihas101/chip8/utils/keyConfiguration/KeyConfiguration.java:105-107 | An entry line of token names holds no line break. |
| KeyConfigurations.WrittenLinesSeparable | src/main/java/de/nihas101/chip8/utils/keyConfiguration/KeyConfiguration.java:100-112 | The lines toString writes can be split apart again on line breaks. |
| KeyConfigurations.WrittenLinesJoined | src/main/java/de/nihas101/chip8/utils/keyConfiguration/KeyConfiguration.java:100-112 | The text toString writes is its lines joined by line breaks. |
| KeyConfigurations.SplitConfigText | src/main/java/de/nihas101/chip8/utils/keyConfiguration/KeyConfiguration.java:38-45 | Splitting what toString wrote on line breaks gives back its lines. |
| KeyConfigurations.RestrictStep | src/main/java/de/nihas101/chip8/utils/keyConfiguration/KeyConfiguration.java:53 | Binding the next host key of the order extends the map restricted to the order so far. |
| KeyConfigurations.WrittenLines | src/main/java/de/nihas101/chip8/utils/keyConfiguration/KeyConfiguration.java:100-112 | The written lines are the two bracket lines and one line per entry. |
| KeyConfigurations.BracketLineEffects | src/main/java/de/nihas101/chip8/utils/keyConfiguration/KeyConfiguration.java:48 | The bracket lines of the written text are passed over. |
| KeyConfigurations.EntryLineEffect | src/main/java/de/nihas101/chip8/utils/keyConfiguration/KeyConfiguration.java:47-58 | The written line of an entry binds its host key to its key. |
| KeyConfigurations.WrittenEffects | src/main/java/de/nihas101/chip8/utils/keyConfiguration/KeyConfiguration.java:47-58 | Every entry line of the written text binds its host key to its key, in order. |
| KeyConfigurations.AppliedInOrder | src/main/java/de/nihas101/chip8/utils/keyConfiguration/KeyConfiguration.java:38-45 | After the opening line and n entry lines, the map holds exactly the first n entries. |
| KeyConfigurations.RestrictAll | src/main/java/de/nihas101/chip8/utils/keyConfiguration/KeyConfiguration.java:105-107 | Restricting a map to an order listing all its host keys leaves it as it is. |
| KeyConfigurations.AppliedAll | src/main/java/de/nihas101/chip8/utils/keyConfiguration/KeyConfiguration.java:38-45 | All lines of the written text together rebuild the map. |
| KeyConfigurations.ReadWrittenConfiguration | src/main/java/de/nihas101/chip8/utils/keyConfiguration/KeyConfiguration.java:38-112 | Reading back what toString wrote, in any iteration order, gives the same map: the text form loses nothing. |
| KeyConfigurations.StandardHostTokens | src/main/java/de/nihas101/chip8/utils/keyConfiguration/KeyConfiguration.java:64-86 | The standard host key names hold no blank and no "=". |
| KeyConfigurations.ReadWrittenStandard | src/main/java/de/nihas101/chip8/utils/keyConfiguration/KeyConfiguration.java:26-112 | The standard layout written in any order reads back as the standard layout. |
| KeyConfigurations.KeyConfiguration.Standard | src/main/java/de/nihas101/chip8/utils/keyConfiguration/KeyConfiguration.java:26-32 | createKeyConfiguration(emulator) holds the standard layout. |
| KeyConfigurations.KeyConfiguration.constructor | src/main/java/de/nihas101/chip8/utils/keyConfiguration/KeyConfiguration.java:34-36 | createKeyConfiguration(map) holds the given map. |
| KeyConfigurations.KeyConfiguration.FromText | src/main/java/de/nihas101/chip8/utils/keyConfiguration/KeyConfiguration.java:38-45 | Reading a text succeeds exactly when ParseConfiguration does, with its map or its exception. |
| KeyConfigurations.KeyConfiguration.SetEmulatorKeyHashMap | src/main/java/de/nihas101/chip8/utils/keyConfiguration/KeyConfiguration.java:60-62 | The whole mapping is replaced. |
| KeyConfigurations.KeyConfiguration.EntrySet | src/main/java/de/nihas101/chip8/utils/keyConfiguration/KeyConfiguration.java:88-90 | The entries are exactly the current bindings. |
| KeyConfigurations.KeyConfiguration.Contains | src/main/java/de/nihas101/chip8/utils/keyConfiguration/KeyConfiguration.java:92-94 | Plain accessor: containsKey on the map; no property is claimed for it. |
| KeyConfigurations.KeyConfiguration.GetOrNop | src/main/java/de/nihas101/chip8/utils/keyConfiguration/KeyConfiguration.java:96-98 | The bound key, or the NOP key named "NOP" whose trigger changes nothing. |
| KeyConfigurations.KeyConfiguration.ToString | src/main/java/de/nihas101/chip8/utils/keyConfiguration/KeyConfiguration.java:100-112 | The text is ConfigText of the map in the iteration order, which ReadWrittenConfiguration reads back. |
| JavaText.TrimStart | src/main/java/de/nihas101/chip8/savestates/SaveState.java:224-226 | The result is a suffix, everything dropped is blank, and it starts with a non-blank. |
| JavaText.TrimEnd | src/main/java/de/nihas101/chip8/savestates/SaveState.java:224-226 | The result is a prefix, everything dropped is blank, and it ends with a non-blank. |
| JavaText.Trim | src/main/java/de/nihas101/chip8/savestates/SaveState.java:224-226 | String.trim: no longer than the input, with non-blank ends, and the identity on texts whose ends are not blank. |
| JavaText.TrimPadded | src/main/java/de/nihas101/chip8/utils/keyConfiguration/KeyConfiguration.java:49-52 | A space added before or after a text with non-blank ends is trimmed away again. |
| JavaText.IndexOf | src/main/java/de/nihas101/chip8/savestates/SaveState.java:46 | The first position where the separator occurs, or none when it occurs nowhere. |
| JavaText.DropTrailingEmpty | src/main/java/de/nihas101/chip8/savestates/SaveState.java:46 | A prefix ending in a non-empty piece, with only empty pieces dropped. |
| JavaText.Split | src/main/java/de/nihas101/chip8/savestates/SaveState.java:46 | String.split: the whole text when the separator is absent, else the pieces between matches without trailing empty ones. |
| JavaText.RawSplitJoin | src/main/java/de/nihas101/chip8/savestates/SaveState.java:46 | Splitting joined pieces gives them back, a trailing empty piece included. |
| JavaText.SplitJoin | src/main/java/de/nihas101/chip8/savestates/SaveState.java:46 | split undoes a join of separable pieces whose last piece is not empty. |
| JavaText.SplitTerminatedLines | src/main/java/de/nihas101/chip8/savestates/SaveState.java:46 | Text in which every line ends with a line break splits back into its lines. |
| JavaText.NatToString | src/main/java/de/nihas101/chip8/savestates/SaveState.java:207 | Decimal digits without a leading zero. |
| JavaText.DigitsValueOfNatToString | src/main/java/de/nihas101/chip8/savestates/SaveState.java:207 | The digits of n denote n. |
| JavaText.IntToString | src/main/java/de/nihas101/chip8/savestates/SaveState.java:207 | String.valueOf: non-empty, never a '+', and a '-' exactly for negative numbers. |
| JavaText.ParseInt | src/main/java/de/nihas101/chip8/savestates/SaveState.java:135-137 | Integer.parseInt rejects the empty text and any text with a non-digit after its first character. An unsigned run of ASCII digits is accepted exactly when its value fits in an int, and then parses to that value. |
| JavaText.ParseIntToString | src/main/java/de/nihas101/chip8/savestates/SaveState.java:135-137 | parseInt reads back any int String.valueOf printed. |
| JavaText.ParseIntRejectsEmpty | src/main/java/de/nihas101/chip8/savestates/SaveState.java:135-137 | parseInt rejects the empty text and a lone sign. |
| JavaText.IntsToStrings | src/main/java/de/nihas101/chip8/hardware/memory/Memory.java:297-299 | One text per number, each String.valueOf of it. |
| JavaText.ArrayToString | src/main/java/de/nihas101/chip8/hardware/memory/Memory.java:297-299 | Arrays.toString is bracketed. |
| Timers.SoundTimer.WithValue | src/main/java/de/nihas101/chip8/savestates/SaveState.java:139-141 | A sound timer read from a save state holds the value read, with no interrupts installed. |

## Left out

- ProgramCounter.ProgramCounter.GetCounter, AddressRegister.AddressRegister.GetAddress: plain field reads with no contract of their own; what the CPU reads through them is stated by the CPU methods' contracts on `Snapshot()`.
- Registers.Registers.GetValues, Memory.Memory.GetValues: Arrays.toString of the cells, with no contract of their own; that this text reads back as the same cells is stated by `SaveStates.ReadRegisterFileOfArray` and `SaveStates.ReadCellsOfArray`.
- Timer threads: the `java.util.Timer` tasks and `changeTimerSpeed` (floating-point periods) are not modelled. A tick is the explicit call `UpdateTimer` / `DecrementValue`.
- MIDI audio: the synthesizer and `SynthesizerFactory` are not modelled. The sound callbacks are the events `NoteOn`, `NoteOff` and `DoNothing`, and whether a synthesizer could be opened is a boolean parameter.
- `java.util.Random`: the value `random.nextInt(255)` returns for CXNN is a parameter `r` with `r < 255`. The emulator loop takes these values from a sequence.
- FX0A's sleep-and-poll loop depends on another thread setting the key code. It is modelled as the outcome `AwaitingKey`, which leaves the machine unchanged with PC set back to the same instruction, and which fires once a key is pressed or the CPU is stopped.
- Emulation.Emulator.ExecuteCpuCycles: in the source a pass that reaches FX0A blocks until a key arrives. In the model that pass ends with nothing changed and the next pass runs FX0A again, so a wait uses up passes the source would spend blocked. The cycle is counted once either way.
- JavaText.ParseInt: only the ASCII digits '0' .. '9' are modelled. Java's `Integer.parseInt` reads digits with `Character.digit(c, 10)`, which also accepts the other Unicode decimal digits (for example U+0663, ARABIC-INDIC DIGIT THREE). Which characters those are depends on the Unicode version of the Java runtime. On texts with such digits, the model's `ParseInt` and every reader built on it (save-state numbers, memory cells, registers) give NumberFormatException where Java reads a value.
- Emulation.Emulator.ExecuteCpuCycles: Java's `double cycles` is a `real`, so the rounding of binary floating point is not modelled. Java returns 0.19999999999999996 for 1.2, where the model returns exactly 0.2. From about 2^53 upward, `cycles--` can leave the value unchanged, so the Java loop never ends; the model always stops after Passes(cycles) passes. A NaN argument, which Java returns at once, has no counterpart.
- Diagnostic text: the `opCodeString` trace is kept as an opaque string (`SetOpCode`) and is not built up by the handlers. The `getState` strings, `memoryToString` and `OpCodeStringFactory` are not modelled.
- Save-state payloads: the `s`, `k` and `i` payloads (screen, stack and the Java-serialised `Random`) are kept as the text of their payloads. Their codecs, `ObjectOutputStream` among them, are not part of this model, and neither is the `parseByte` exception of `readRandom`.
- SaveStates.ReadState: the CPU the save state builds is represented by the components it is built from (`Parsed`), with a missing component as `None` where Java has null. No `CentralProcessingUnit` object is built and no timer thread is scheduled. The one exception the constructor can raise, a missing sound timer when a synthesizer is present, is modelled.
- Memory.Memory.FromValues: Java leaves the cells past the given texts null, so a later read of one throws NullPointerException. The model fills them with 0.
- Exceptions are one datatype `Exception`. `ArrayIndexOutOfBoundsException` and `StringIndexOutOfBoundsException` are both `IndexOutOfBounds`, and an out-of-range `Memory.write` or `read` is a failed result rather than a thrown object.
- Memory's glyph table is filled by sixteen threads in the source. The model fills it sequentially, which gives the same finished table.
- File I/O: `InputStream.read` in `RomLoader.loadRom` is replaced by the file's bytes as a parameter (or none when reading throws). `SaveStateHandler` and both `KeyConfigurationManager` classes are not part of this model.
- javafx: a host key `KeyCode` is its constant's name as a string. The names `KeyCode.valueOf` accepts are the parameter `hostKeys`. The JavaFX UI, `Main`, `MainController`, the debugger and the configuration window are not part of this model.
- KeyConfigurations.KeyConfiguration.ToString: `HashMap`'s iteration order is not specified, so the order of the entries is a parameter that lists each host key once.
- KeyConfigurations.KeyConfiguration.SetEmulatorKeyHashMap: Java shares the map object with its caller; the model stores the map as a value, so later changes by the caller to the same object are not seen.
- EmulatorKeys.Triggered: an `EmulatorKeyEvent` lambda is one of the two events the emulator creates keys with, setting the key code or doing nothing. Arbitrary caller-supplied lambdas are not modelled.
- Cpu.CentralProcessingUnit.WithSynthesizer: `stopTimer` and `closeSynthesizer` at shutdown are not modelled; `Emulation.Emulator.Stop` only sets the stop flag.
- The logger calls of the emulator and of the ROM loader are not modelled.
- The legacy tree under `src/de/nihas101/chip8` and `test/`, `Chip8Registers`, `Chip8ProgramCounter`, `DelayTimer`'s `getState` and the functional interfaces (`BinaryOperation`, `UnaryOperation`, `Interrupt`, which become function values and the `Interrupt` datatype) are not modelled separately.
