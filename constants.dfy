/** Sizes and tags shared by the hardware and the save-state format. */
module Constants {
  /** Number of memory cells: 0xfff, one fewer than the 4 KiB of the original machine. */
  const MemoryLength: nat := 0xfff
  const RegisterLength: nat := 16
  /** Where programs are loaded and where the program counter starts after a reset. */
  const ProgramCounterStart: nat := 0x200

  const CyclesChar: char := 'c'
  const OpCodeChar: char := 'o'
  const MemoryChar: char := 'm'
  const ScreenMemoryChar: char := 's'
  const RegistersChar: char := 'r'
  const AddressChar: char := 'a'
  const ProgramCounterChar: char := 'p'
  const StackChar: char := 'k'
  const DelayTimerChar: char := 'd'
  const SoundTimerChar: char := 't'
  const RandomChar: char := 'i'
}
