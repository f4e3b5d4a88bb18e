/**
 * RomLoader: a ROM file is read into a zeroed buffer the size of the
 * program area and, when at least one byte was read, copied cell by cell
 * to memory from PROGRAM_COUNTER_START on.
 */
module RomLoader {
  import opened Wrappers
  import opened Unsigned
  import opened Constants
  import Mem = Memory

  /** MEMORY_LENGTH - PROGRAM_COUNTER_START: the size of the buffer and of the program area. */
  const MaxRomLength: nat := 0xfff - 0x200

  /** The buffer after InputStream.read: the leading file bytes as Java's signed bytes, zeros after them. */
  function ReadBuffer(file: seq<Byte>): (buffer: seq<int>)
    ensures |buffer| == MaxRomLength
    ensures forall i :: 0 <= i < MaxRomLength ==>
      -0x80 <= buffer[i] < 0x80 && buffer[i] % 0x100 == if i < |file| then file[i] else 0
  {
    seq(MaxRomLength, i => if 0 <= i < |file| then ByteCast(file[i]) else 0)
  }

  /**
   * The count InputStream.read returns: -1 when reading threw (the file is
   * None) or the file is empty, otherwise the bytes that fit the buffer.
   */
  function ReadCount(file: Option<seq<Byte>>): (n: int)
    ensures n > 0 <==> file.Some? && |file.value| > 0
    ensures n > 0 ==> n <= MaxRomLength && n <= |file.value|
  {
    match file
    case None => -1
    case Some(bytes) =>
      if |bytes| == 0 then -1 else if |bytes| < MaxRomLength then |bytes| else MaxRomLength
  }

  /** loadIntoMemory: buffer[i], as an UnsignedByte, to cell 0x200 + i, for every i in the buffer. */
  method LoadIntoMemory(memory: Mem.Memory, loadedRom: seq<int>)
    requires memory.Valid() && |loadedRom| == MaxRomLength
    modifies memory.cells
    ensures forall i :: 0 <= i < MemoryLength ==>
      memory.cells[i] == if i < ProgramCounterStart then old(memory.cells[i]) else loadedRom[i - ProgramCounterStart] % 0x100
  {
    var i := 0;
    while i < MaxRomLength
      invariant 0 <= i <= MaxRomLength
      invariant forall j :: 0 <= j < MemoryLength ==>
        memory.cells[j] == if ProgramCounterStart <= j < ProgramCounterStart + i
          then loadedRom[j - ProgramCounterStart] % 0x100 else old(memory.cells[j])
    {
      var ok := memory.Write(ProgramCounterStart + i, NewUnsignedByte(loadedRom[i]).b);
      i := i + 1;
    }
  }

  /**
   * loadRom with the file's content as input: when at least one byte was
   * read, the program area holds the ROM's bytes followed by zeros and the
   * interpreter area below 0x200 is untouched; otherwise memory is unchanged.
   */
  method LoadRom(file: Option<seq<Byte>>, memory: Mem.Memory)
    requires memory.Valid()
    modifies memory.cells
    ensures ReadCount(file) > 0 ==> forall i :: 0 <= i < MemoryLength ==>
      memory.cells[i] ==
        if i < ProgramCounterStart then old(memory.cells[i])
        else if i - ProgramCounterStart < |file.value| then file.value[i - ProgramCounterStart]
        else 0
    ensures ReadCount(file) <= 0 ==> memory.cells[..] == old(memory.cells[..])
  {
    var loadedRom := ReadBuffer(if file.Some? then file.value else []);
    var readBytes := ReadCount(file);
    if readBytes > 0 {
      LoadIntoMemory(memory, loadedRom);
    }
  }
}
