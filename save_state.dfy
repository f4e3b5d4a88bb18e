/**
 * SaveState: the CPU written as text, one line per component of the form
 * tag + "{" + payload + "}", and read back by splitting the text into lines
 * and dispatching on the first character of each.
 */
module SaveStates {
  import opened Wrappers
  import opened Exceptions
  import opened JavaText
  import opened Unsigned
  import opened Constants
  import Mem = Memory
  import Reg = Registers

  /** The tags of the lines toString writes, in the order it writes them. */
  const Tags: seq<char> := [CyclesChar, OpCodeChar, MemoryChar, ScreenMemoryChar, RegistersChar,
    AddressChar, ProgramCounterChar, StackChar, DelayTimerChar, SoundTimerChar, RandomChar]

  /** The characters createSaveState's switch has a case for. */
  predicate IsTag(c: char)
  {
    || c == CyclesChar || c == OpCodeChar || c == MemoryChar || c == ScreenMemoryChar
    || c == RegistersChar || c == AddressChar || c == ProgramCounterChar || c == StackChar
    || c == DelayTimerChar || c == SoundTimerChar || c == RandomChar
  }

  /**
   * What toString reads from the CPU. The opcode trace is kept as text; the
   * screen, the stack and the serialised random generator are kept as the
   * text of their payloads, whose own formats are not part of this model.
   */
  datatype Fields = Fields(
    cycles: Int32,
    opCode: string,
    memory: seq<Byte>,
    screen: string,
    registers: seq<Byte>,
    address: Short,
    pc: Short,
    stack: string,
    delay: Int32,
    sound: Int32,
    random: string)

  // ---------------------------------------------------------------- writing

  /** One line without its newline: the tag, then the payload in braces. */
  function Line(tag: char, payload: string): (line: string)
    ensures |line| == |payload| + 3 && line[0] == tag && line[1] == '{' && line[|line| - 1] == '}'
  {
    [tag] + "{" + payload + "}"
  }

  /** wrap(name, toWrap): a line closed by a newline. */
  function Wrap(tag: char, payload: string): (text: string)
    ensures text == Line(tag, payload) + "\n"
  {
    [tag] + "{" + payload + "}\n"
  }

  /** Line i of those toString writes: the component of the i-th tag, in the order of Tags. */
  function WrittenLine(f: Fields, i: nat): (line: string)
    requires i < |Tags|
    ensures |line| > 0 && line[0] == Tags[i]
  {
    if i == 0 then Line(CyclesChar, IntToString(f.cycles))
    else if i == 1 then Line(OpCodeChar, f.opCode)
    else if i == 2 then Line(MemoryChar, ArrayToString(f.memory))
    else if i == 3 then Line(ScreenMemoryChar, f.screen)
    else if i == 4 then Line(RegistersChar, ArrayToString(f.registers))
    else if i == 5 then Line(AddressChar, IntToString(f.address))
    else if i == 6 then Line(ProgramCounterChar, IntToString(f.pc))
    else if i == 7 then Line(StackChar, f.stack)
    else if i == 8 then Line(DelayTimerChar, IntToString(f.delay))
    else if i == 9 then Line(SoundTimerChar, IntToString(f.sound))
    else Line(RandomChar, f.random)
  }

  /** The lines toString writes, one per component. */
  function Lines(f: Fields): (lines: seq<string>)
    ensures |lines| == |Tags|
  {
    seq(|Tags|, i requires 0 <= i < |Tags| => WrittenLine(f, i))
  }

  /** The lines, each followed by a newline. */
  function Terminated(lines: seq<string>): (text: string)
    ensures |lines| > 0 ==> text == lines[0] + "\n" + Terminated(lines[1..])
  {
    if |lines| == 0 then "" else lines[0] + "\n" + Terminated(lines[1..])
  }

  /** toString: the eleven wrapped lines c, o, m, s, r, a, p, k, d, t, i, one after the other. */
  function ToString(f: Fields): (text: string)
    ensures text == Wrap(CyclesChar, IntToString(f.cycles)) + Terminated(Lines(f)[1..])
  {
    Terminated(Lines(f))
  }

  // ---------------------------------------------------------------- reading one line

  /**
   * unwrap: the trimmed line from index 2 up to index length - 1 of the
   * untrimmed line; bounds outside the trimmed line are a
   * StringIndexOutOfBoundsException.
   */
  function Unwrap(line: string): (r: Result<string, Exception>)
    ensures r.Success? <==> 3 <= |line| && |line| - 1 <= |Trim(line)|
    ensures r.Success? ==> |r.value| == |line| - 3
    ensures r.Failure? ==> r.error == IndexOutOfBounds
  {
    var t := Trim(line);
    if 3 <= |line| && |line| - 1 <= |t| then Success(t[2..|line| - 1]) else Failure(IndexOutOfBounds)
  }

  /** parseInt of a payload, a NumberFormatException when it is not a decimal int. */
  function ReadNumber(payload: string): (r: Result<Int32, Exception>)
    ensures r.Success? <==> ParseInt(payload).Some?
    ensures r.Success? ==> Some(r.value) == ParseInt(payload)
    ensures r.Failure? ==> r.error == NumberFormat
  {
    match ParseInt(payload)
    case None => Failure(NumberFormat)
    case Some(v) => Success(v)
  }

  /**
   * The items of a list payload "[a, b, c]": the trimmed payload without its
   * first character, up to index length - 1 of the untrimmed payload, split
   * on ", ".
   */
  function Items(payload: string): (r: Result<seq<string>, Exception>)
    ensures r.Success? <==> 2 <= |payload| && |payload| - 1 <= |Trim(payload)|
    ensures r.Failure? ==> r.error == IndexOutOfBounds
  {
    var t := Trim(payload);
    if 2 <= |payload| && |payload| - 1 <= |t| then Success(Split(t[1..|payload| - 1], ", "))
    else Failure(IndexOutOfBounds)
  }

  /**
   * What the CPU components read so far are. None is a component the text
   * had no line for, which the source leaves null; the cycles default to 0
   * and the opcode text to "".
   */
  datatype Parsed = Parsed(
    cycles: Int32,
    opCode: string,
    memory: Option<seq<Byte>>,
    screen: Option<string>,
    registers: Option<seq<Byte>>,
    address: Option<Short>,
    pc: Option<Short>,
    stack: Option<string>,
    delay: Option<Int32>,
    sound: Option<Int32>,
    random: Option<string>)

  /** The locals of createSaveState before its loop. */
  const Nothing: Parsed := Parsed(0, "", None, None, None, None, None, None, None, None, None)

  /** A component as a readX helper returns it. */
  datatype Component =
    | Number(n: Int32)          // readCycles, readDelayTimer, readSoundTimer
    | Register16(v: Short)      // readAddressRegister, readProgramCounter
    | Text(s: string)           // readOpCode, and the payloads kept as text
    | Bytes(values: seq<Byte>)  // readMemory, readRegisters

  /** The components each tag's line is read into. */
  predicate Fits(tag: char, c: Component)
  {
    if tag == CyclesChar || tag == DelayTimerChar || tag == SoundTimerChar then c.Number?
    else if tag == AddressChar || tag == ProgramCounterChar then c.Register16?
    else if tag == MemoryChar || tag == RegistersChar then c.Bytes?
    else c.Text?
  }

  /** readMemory's payload: its items, each read as a cell. */
  function ReadCells(payload: string): (r: Result<seq<Byte>, Exception>)
  {
    match Items(payload)
    case Failure(e) => Failure(e)
    case Success(items) => Mem.CellValues(items)
  }

  /** readRegisters' payload: its items, read as the sixteen registers. */
  function ReadRegisterFile(payload: string): (r: Result<seq<Byte>, Exception>)
    ensures r.Success? ==> |r.value| == RegisterLength
  {
    match Items(payload)
    case Failure(e) => Failure(e)
    case Success(items) => Reg.RegisterValues(items)
  }

  /**
   * The readX helper of a known tag applied to the unwrapped payload. The
   * screen, stack and random payloads are kept as text.
   */
  function Read(tag: char, payload: string): (r: Result<Component, Exception>)
    requires IsTag(tag)
    ensures r.Success? ==> Fits(tag, r.value)
  {
    if tag == CyclesChar || tag == DelayTimerChar || tag == SoundTimerChar then
      (match ReadNumber(payload)
       case Failure(e) => Failure(e)
       case Success(v) => Success(Number(v)))
    else if tag == AddressChar || tag == ProgramCounterChar then
      (match ReadNumber(payload)
       case Failure(e) => Failure(e)
       case Success(v) => Success(Register16(NewUnsignedShort(v).s)))
    else if tag == MemoryChar then
      (match ReadCells(payload)
       case Failure(e) => Failure(e)
       case Success(cells) => Success(Bytes(cells)))
    else if tag == RegistersChar then
      (match ReadRegisterFile(payload)
       case Failure(e) => Failure(e)
       case Success(values) => Success(Bytes(values)))
    else Success(Text(payload))
  }

  /** The assignment in the tag's case: the component replaces the one read so far. */
  function Put(p: Parsed, tag: char, c: Component): (q: Parsed)
    requires IsTag(tag) && Fits(tag, c)
  {
    if tag == CyclesChar then p.(cycles := c.n)
    else if tag == OpCodeChar then p.(opCode := c.s)
    else if tag == MemoryChar then p.(memory := Some(c.values))
    else if tag == ScreenMemoryChar then p.(screen := Some(c.s))
    else if tag == RegistersChar then p.(registers := Some(c.values))
    else if tag == AddressChar then p.(address := Some(c.v))
    else if tag == ProgramCounterChar then p.(pc := Some(c.v))
    else if tag == StackChar then p.(stack := Some(c.s))
    else if tag == DelayTimerChar then p.(delay := Some(c.n))
    else if tag == SoundTimerChar then p.(sound := Some(c.n))
    else p.(random := Some(c.s))
  }

  /** A store changes the component of its tag and no other. */
  lemma PutTouchesItsTag(p: Parsed, tag: char, c: Component)
    requires IsTag(tag) && Fits(tag, c)
    ensures Untouched(Put(p, tag, c), p, {tag})
  {
  }

  /** Storing twice under one tag keeps only the second component. */
  lemma PutTwice(p: Parsed, tag: char, c: Component, d: Component)
    requires IsTag(tag) && Fits(tag, c) && Fits(tag, d)
    ensures Put(Put(p, tag, c), tag, d) == Put(p, tag, d)
  {
  }

  /** What one line does to the components read so far. */
  datatype Effect =
    | Throws(error: Exception)               // the line's exception ends the loop
    | Skipped                                 // a first character without a case
    | Stores(tag: char, component: Component) // the case's readX result is assigned

  /** An effect whose component is of the kind its tag's case assigns. */
  predicate Storable(e: Effect)
  {
    e.Stores? ==> IsTag(e.tag) && Fits(e.tag, e.component)
  }

  /** Effects that are all storable. */
  predicate AllStorable(effects: seq<Effect>)
  {
    forall i :: 0 <= i < |effects| ==> Storable(effects[i])
  }

  /**
   * One pass of createSaveState's loop, which reads the line alone: charAt(0)
   * of an empty line throws, a line with an unknown tag is skipped, and a
   * known tag unwraps the line and reads its payload with the tag's helper.
   */
  function ReadLine(line: string): (e: Effect)
    ensures |line| == 0 ==> e == Throws(IndexOutOfBounds)
    ensures |line| > 0 && !IsTag(line[0]) ==> e == Skipped
    ensures e.Stores? ==> |line| > 0 && e.tag == line[0] && Storable(e)
  {
    if |line| == 0 then Throws(IndexOutOfBounds)
    else if !IsTag(line[0]) then Skipped
    else match Unwrap(line)
      case Failure(e) => Throws(e)
      case Success(payload) =>
        match Read(line[0], payload)
        case Failure(e) => Throws(e)
        case Success(c) => Stores(line[0], c)
  }

  /** The effect carried out on the components read so far; a store changes its tag's component only. */
  function Perform(p: Parsed, e: Effect): (r: Result<Parsed, Exception>)
    requires Storable(e)
    ensures r.Success? <==> !e.Throws?
    ensures e.Throws? ==> r.error == e.error
  {
    match e
    case Throws(error) => Failure(error)
    case Skipped => Success(p)
    case Stores(tag, c) => Success(Put(p, tag, c))
  }

  /** What each line does, in the order of the lines. */
  function Effects(lines: seq<string>): (effects: seq<Effect>)
    ensures |effects| == |lines| && AllStorable(effects)
  {
    seq(|lines|, i requires 0 <= i < |lines| => ReadLine(lines[i]))
  }

  /** The first n effects carried out in order on the locals' defaults, stopping at the first exception. */
  function Performed(effects: seq<Effect>, n: nat): (r: Result<Parsed, Exception>)
    requires n <= |effects| && AllStorable(effects)
  {
    if n == 0 then Success(Nothing)
    else match Performed(effects, n - 1)
      case Failure(e) => Failure(e)
      case Success(p) => Perform(p, effects[n - 1])
  }

  /**
   * createSaveState(String): the text split on newlines, every line read in
   * turn. With a synthesizer present the CPU constructor hands the sound
   * timer its callbacks, which throws when no t line gave one.
   */
  function ReadState(text: string, hasSynthesizer: bool): (r: Result<Parsed, Exception>)
  {
    var lines := Split(text, "\n");
    match Performed(Effects(lines), |lines|)
    case Failure(e) => Failure(e)
    case Success(p) => if hasSynthesizer && p.sound.None? then Failure(NullPointer) else Success(p)
  }

  /** createSaveState(String) as the loop the source runs, line by line. */
  method CreateSaveState(stateString: string, hasSynthesizer: bool) returns (r: Result<Parsed, Exception>)
    ensures r == ReadState(stateString, hasSynthesizer)
  {
    var strings := Split(stateString, "\n");
    ghost var effects := Effects(strings);
    var parsed := Nothing;
    var i := 0;
    while i < |strings|
      invariant 0 <= i <= |strings|
      invariant Performed(effects, i) == Success(parsed)
    {
      var next := Perform(parsed, ReadLine(strings[i]));
      PerformedNext(effects, i + 1, parsed);
      if next.Failure? {
        PerformedStaysFailed(effects, i + 1, |strings|);
        return Failure(next.error);
      }
      parsed := next.value;
      i := i + 1;
    }
    if hasSynthesizer && parsed.sound.None? {
      return Failure(NullPointer);
    }
    return Success(parsed);
  }

  /** n effects carried out: the last one carried out on the n - 1 before it. */
  lemma PerformedNext(effects: seq<Effect>, n: nat, p: Parsed)
    requires 0 < n <= |effects| && AllStorable(effects) && Performed(effects, n - 1) == Success(p)
    ensures Performed(effects, n) == Perform(p, effects[n - 1])
  {
  }

  /** Once the effects before the last threw, the n effects throw the same. */
  lemma PerformedFailedNext(effects: seq<Effect>, n: nat)
    requires 0 < n <= |effects| && AllStorable(effects) && Performed(effects, n - 1).Failure?
    ensures Performed(effects, n) == Performed(effects, n - 1)
  {
  }

  /** An exception ends the loop: the lines after it are not read. */
  lemma {:induction false} PerformedStaysFailed(effects: seq<Effect>, n: nat, more: nat)
    requires n <= more <= |effects| && AllStorable(effects) && Performed(effects, n).Failure?
    ensures Performed(effects, more) == Performed(effects, n)
  {
    if n < more {
      PerformedStaysFailed(effects, n, more - 1);
      PerformedFailedNext(effects, more);
    }
  }

  // ---------------------------------------------------------------- properties

  /** unwrap undoes wrap: a line without its newline gives its payload back. */
  lemma UnwrapLine(tag: char, payload: string)
    requires !IsBlank(tag)
    ensures Unwrap(Line(tag, payload)) == Success(payload)
  {
    var line := Line(tag, payload);
    assert Trim(line) == line;
    assert line[2..|line| - 1] == payload;
  }

  /** A line with a known tag stores what its payload reads as. */
  lemma LineStores(tag: char, payload: string, c: Component)
    requires IsTag(tag) && Read(tag, payload) == Success(c)
    ensures ReadLine(Line(tag, payload)) == Stores(tag, c)
  {
    UnwrapLine(tag, payload);
  }

  /** No character of a number's text is blank, a newline or a comma. */
  lemma IntTextCharacters(n: int)
    ensures forall c :: c in IntToString(n) ==> !IsBlank(c) && c != '\n' && c != ','
  {
    var s := IntToString(n);
    var digits := NatToString(if n < 0 then -n else n);
    assert s == digits || s == "-" + digits;
    forall c | c in s ensures !IsBlank(c) && c != '\n' && c != ',' {
      var i :| 0 <= i < |s| && s[i] == c;
      if s != digits && i == 0 {
        assert c == '-';
      } else {
        assert c == digits[if s == digits then i else i - 1];
      }
    }
  }

  /** A character in neither the pieces nor the separator is not in their join. */
  lemma {:induction false} JoinAvoids(parts: seq<string>, sep: string, c: char)
    requires c !in sep && forall i :: 0 <= i < |parts| ==> c !in parts[i]
    ensures c !in Join(parts, sep)
    decreases |parts|
  {
    if |parts| > 1 {
      JoinAvoids(parts[1..], sep, c);
    }
  }

  /** Arrays.toString of numbers holds no newline. */
  lemma ArrayTextHasNoNewline(values: seq<int>)
    ensures '\n' !in ArrayToString(values)
  {
    var texts := IntsToStrings(values);
    forall i | 0 <= i < |texts| ensures '\n' !in texts[i] {
      IntTextCharacters(values[i]);
    }
    JoinAvoids(texts, ", ", '\n');
  }

  /** The list reader undoes Arrays.toString: the items are the numbers' texts. */
  lemma ItemsOfArray(values: seq<int>)
    requires |values| > 0
    ensures Items(ArrayToString(values)) == Success(IntsToStrings(values))
  {
    var texts := IntsToStrings(values);
    var s := ArrayToString(values);
    assert Trim(s) == s;
    assert s[1..|s| - 1] == Join(texts, ", ");
    forall i | 0 <= i < |texts| ensures ','  !in texts[i] {
      IntTextCharacters(values[i]);
    }
    assert Separable(texts, ", ");
    SplitJoin(texts, ", ");
  }

  /** A byte's text reads back as that byte, both as a register and as a memory cell. */
  lemma ByteText(b: Byte)
    ensures Reg.RegisterValue(IntToString(b)) == Some(b)
    ensures Mem.CellValue(IntToString(b)) == Some(b)
  {
    var s := IntToString(b);
    ParseIntToString(b);
    assert Trim(s) == s by {
      IntTextCharacters(b);
      assert !IsBlank(s[0]) && !IsBlank(s[|s| - 1]);
    }
    assert ParseInt(s).value % 0x100 == b;
  }

  /** Texts that each read as the cell at their index read, all together, as those cells. */
  lemma CellValuesOfReadable(texts: seq<string>, cells: seq<Byte>)
    requires |texts| == |cells| <= MemoryLength
    requires forall i :: 0 <= i < |texts| ==> Mem.CellValue(texts[i]) == Some(cells[i])
    ensures Mem.CellValues(texts) == Success(cells)
  {
    var r := Mem.CellValues(texts);
    assert r.Success?;
    var values := r.value;
    assert Mem.ReadAs(texts, values);
    forall i | 0 <= i < |cells| ensures values[i] == cells[i] {
      assert Some(values[i]) == Mem.CellValue(texts[i]);
    }
    assert values == cells;
  }

  /** new Memory(String[]) undoes the memory's getValues items. */
  lemma CellValuesOfTexts(cells: seq<Byte>)
    requires |cells| <= MemoryLength
    ensures Mem.CellValues(IntsToStrings(cells)) == Success(cells)
  {
    var texts := IntsToStrings(cells);
    forall i | 0 <= i < |texts| ensures Mem.CellValue(texts[i]) == Some(cells[i]) {
      ByteText(cells[i]);
    }
    CellValuesOfReadable(texts, cells);
  }

  /** Sixteen texts that each read as the register at their index read as those registers. */
  lemma RegisterValuesOfReadable(texts: seq<string>, values: seq<Byte>)
    requires |texts| == |values| == RegisterLength
    requires forall i :: 0 <= i < |texts| ==> Reg.RegisterValue(texts[i]) == Some(values[i])
    ensures Reg.RegisterValues(texts) == Success(values)
  {
    var r := Reg.ReadRegisters(texts, RegisterLength);
    assert r.Success?;
    var read := r.value;
    forall i | 0 <= i < |values| ensures read[i] == values[i] {
      assert Some(read[i]) == Reg.RegisterValue(texts[i]);
    }
    assert read == values;
  }

  /** new Registers(String[]) undoes the registers' getValues items. */
  lemma ReadRegistersOfTexts(values: seq<Byte>)
    requires |values| == RegisterLength
    ensures Reg.RegisterValues(IntsToStrings(values)) == Success(values)
  {
    var texts := IntsToStrings(values);
    forall i | 0 <= i < |texts| ensures Reg.RegisterValue(texts[i]) == Some(values[i]) {
      ByteText(values[i]);
    }
    RegisterValuesOfReadable(texts, values);
  }

  /** What reading a state back gives: every component present and equal to the one written. */
  function Restored(f: Fields): (p: Parsed)
    ensures Complete(p) == Some(f)
  {
    Parsed(f.cycles, f.opCode, Some(f.memory), Some(f.screen), Some(f.registers), Some(f.address),
      Some(f.pc), Some(f.stack), Some(f.delay), Some(f.sound), Some(f.random))
  }

  /** The fields of a state read back, when the text had a line for every component. */
  function Complete(p: Parsed): (f: Option<Fields>)
    ensures f.Some? <==> (p.memory.Some? && p.screen.Some? && p.registers.Some? && p.address.Some?
      && p.pc.Some? && p.stack.Some? && p.delay.Some? && p.sound.Some? && p.random.Some?)
  {
    if p.memory.Some? && p.screen.Some? && p.registers.Some? && p.address.Some?
      && p.pc.Some? && p.stack.Some? && p.delay.Some? && p.sound.Some? && p.random.Some?
    then Some(Fields(p.cycles, p.opCode, p.memory.value, p.screen.value, p.registers.value,
      p.address.value, p.pc.value, p.stack.value, p.delay.value, p.sound.value, p.random.value))
    else None
  }

  /** A state the CPU can write: a full memory and register file, and text payloads without newlines. */
  ghost predicate Writable(f: Fields)
  {
    && |f.memory| == MemoryLength && |f.registers| == RegisterLength
    && '\n' !in f.opCode && '\n' !in f.screen && '\n' !in f.stack && '\n' !in f.random
  }

  /** The lines joined with newlines, with a newline after the last: the text toString wrote. */
  lemma {:induction false} TerminatedIsJoin(lines: seq<string>)
    requires |lines| > 0
    ensures Terminated(lines) == Join(lines + [""], "\n")
    decreases |lines|
  {
    assert (lines + [""])[1..] == lines[1..] + [""];
    if |lines| > 1 {
      TerminatedIsJoin(lines[1..]);
    }
  }

  /** A line holds a newline only where its payload does. */
  lemma LineAvoidsNewline(tag: char, payload: string)
    requires tag != '\n' && '\n' !in payload
    ensures '\n' !in Line(tag, payload)
  {
    var line := Line(tag, payload);
    forall i | 0 <= i < |line| ensures line[i] != '\n' {
      if 2 <= i < |line| - 1 {
        assert line[i] == payload[i - 2];
      }
    }
  }

  /** A number's text holds no newline. */
  lemma NumberAvoidsNewline(n: int)
    ensures '\n' !in IntToString(n)
  {
    IntTextCharacters(n);
  }

  /** No line toString writes holds a newline. */
  lemma WrittenLineAvoidsNewline(f: Fields, i: nat)
    requires Writable(f) && i < |Tags|
    ensures '\n' !in WrittenLine(f, i)
  {
    if i == 0 {
      NumberAvoidsNewline(f.cycles);
      LineAvoidsNewline(CyclesChar, IntToString(f.cycles));
    } else if i == 1 {
      LineAvoidsNewline(OpCodeChar, f.opCode);
    } else if i == 2 {
      ArrayTextHasNoNewline(f.memory);
      LineAvoidsNewline(MemoryChar, ArrayToString(f.memory));
    } else if i == 3 {
      LineAvoidsNewline(ScreenMemoryChar, f.screen);
    } else if i == 4 {
      ArrayTextHasNoNewline(f.registers);
      LineAvoidsNewline(RegistersChar, ArrayToString(f.registers));
    } else if i == 5 {
      NumberAvoidsNewline(f.address);
      LineAvoidsNewline(AddressChar, IntToString(f.address));
    } else if i == 6 {
      NumberAvoidsNewline(f.pc);
      LineAvoidsNewline(ProgramCounterChar, IntToString(f.pc));
    } else if i == 7 {
      LineAvoidsNewline(StackChar, f.stack);
    } else if i == 8 {
      NumberAvoidsNewline(f.delay);
      LineAvoidsNewline(DelayTimerChar, IntToString(f.delay));
    } else if i == 9 {
      NumberAvoidsNewline(f.sound);
      LineAvoidsNewline(SoundTimerChar, IntToString(f.sound));
    } else {
      LineAvoidsNewline(RandomChar, f.random);
    }
  }

  /** The lines toString writes can be split apart again on newlines. */
  lemma LinesSeparable(f: Fields)
    requires Writable(f)
    ensures Separable(Lines(f), "\n")
  {
    var lines := Lines(f);
    forall i | 0 <= i < |lines| ensures '\n' !in lines[i] {
      WrittenLineAvoidsNewline(f, i);
    }
  }

  /** Splitting what toString wrote on newlines gives its eleven lines back. */
  lemma SplitWritten(f: Fields)
    requires Writable(f)
    ensures Split(ToString(f), "\n") == Lines(f)
  {
    var lines := Lines(f);
    LinesSeparable(f);
    TerminatedIsJoin(lines);
    SplitTerminatedLines(lines, "\n");
  }

  /** The memory payload toString writes reads back as the memory. */
  lemma ReadCellsOfArray(cells: seq<Byte>)
    requires 0 < |cells| <= MemoryLength
    ensures ReadCells(ArrayToString(cells)) == Success(cells)
  {
    ItemsOfArray(cells);
    CellValuesOfTexts(cells);
  }

  /** The register payload toString writes reads back as the registers. */
  lemma ReadRegisterFileOfArray(values: seq<Byte>)
    requires |values| == RegisterLength
    ensures ReadRegisterFile(ArrayToString(values)) == Success(values)
  {
    ItemsOfArray(values);
    ReadRegistersOfTexts(values);
  }

  /** A number line's payload, written by String.valueOf, reads back as the number. */
  lemma ReadNumberWritten(tag: char, v: Int32)
    requires tag == CyclesChar || tag == DelayTimerChar || tag == SoundTimerChar
    ensures Read(tag, IntToString(v)) == Success(Number(v))
  {
    ParseIntToString(v);
  }

  /** An address or counter payload reads back as the sixteen-bit value written. */
  lemma ReadRegister16Written(tag: char, v: Short)
    requires tag == AddressChar || tag == ProgramCounterChar
    ensures Read(tag, IntToString(v)) == Success(Register16(v))
  {
    ParseIntToString(v);
  }

  /** A payload kept as text reads back as itself. */
  lemma ReadTextWritten(tag: char, payload: string)
    requires tag == OpCodeChar || tag == ScreenMemoryChar || tag == StackChar || tag == RandomChar
    ensures Read(tag, payload) == Success(Text(payload))
  {
  }

  /** A memory payload is read by readMemory. */
  lemma ReadMemoryPayload(payload: string, cells: seq<Byte>)
    requires ReadCells(payload) == Success(cells)
    ensures Read(MemoryChar, payload) == Success(Bytes(cells))
  {
  }

  /** A register payload is read by readRegisters. */
  lemma ReadRegistersPayload(payload: string, values: seq<Byte>)
    requires ReadRegisterFile(payload) == Success(values)
    ensures Read(RegistersChar, payload) == Success(Bytes(values))
  {
  }

  /** What reading line i of those toString writes does: store the component it was written from. */
  function WrittenEffect(f: Fields, i: nat): (e: Effect)
    requires i < |Tags|
    ensures e.Stores? && e.tag == Tags[i] && Storable(e)
  {
    if i == 0 then Stores(CyclesChar, Number(f.cycles))
    else if i == 1 then Stores(OpCodeChar, Text(f.opCode))
    else if i == 2 then Stores(MemoryChar, Bytes(f.memory))
    else if i == 3 then Stores(ScreenMemoryChar, Text(f.screen))
    else if i == 4 then Stores(RegistersChar, Bytes(f.registers))
    else if i == 5 then Stores(AddressChar, Register16(f.address))
    else if i == 6 then Stores(ProgramCounterChar, Register16(f.pc))
    else if i == 7 then Stores(StackChar, Text(f.stack))
    else if i == 8 then Stores(DelayTimerChar, Number(f.delay))
    else if i == 9 then Stores(SoundTimerChar, Number(f.sound))
    else Stores(RandomChar, Text(f.random))
  }

  /** What reading the lines toString writes does, line by line. */
  function Stored(f: Fields): (effects: seq<Effect>)
    ensures |effects| == |Tags| && AllStorable(effects)
  {
    seq(|Tags|, i requires 0 <= i < |Tags| => WrittenEffect(f, i))
  }

  /** A c, d or t line reads as a store of the number written into it. */
  lemma ReadNumberLine(tag: char, v: Int32)
    requires tag == CyclesChar || tag == DelayTimerChar || tag == SoundTimerChar
    ensures ReadLine(Line(tag, IntToString(v))) == Stores(tag, Number(v))
  {
    ReadNumberWritten(tag, v);
    LineStores(tag, IntToString(v), Number(v));
  }

  /** An a or p line reads as a store of the sixteen-bit value written into it. */
  lemma ReadRegister16Line(tag: char, v: Short)
    requires tag == AddressChar || tag == ProgramCounterChar
    ensures ReadLine(Line(tag, IntToString(v))) == Stores(tag, Register16(v))
  {
    ReadRegister16Written(tag, v);
    LineStores(tag, IntToString(v), Register16(v));
  }

  /** An o, s, k or i line reads as a store of its payload. */
  lemma ReadTextLine(tag: char, payload: string)
    requires tag == OpCodeChar || tag == ScreenMemoryChar || tag == StackChar || tag == RandomChar
    ensures ReadLine(Line(tag, payload)) == Stores(tag, Text(payload))
  {
    ReadTextWritten(tag, payload);
    LineStores(tag, payload, Text(payload));
  }

  /** The m line reads as a store of the memory written into it. */
  lemma ReadMemoryLine(cells: seq<Byte>)
    requires 0 < |cells| <= MemoryLength
    ensures ReadLine(Line(MemoryChar, ArrayToString(cells))) == Stores(MemoryChar, Bytes(cells))
  {
    ReadCellsOfArray(cells);
    ReadMemoryPayload(ArrayToString(cells), cells);
    LineStores(MemoryChar, ArrayToString(cells), Bytes(cells));
  }

  /** The r line reads as a store of the registers written into it. */
  lemma ReadRegistersLine(values: seq<Byte>)
    requires |values| == RegisterLength
    ensures ReadLine(Line(RegistersChar, ArrayToString(values))) == Stores(RegistersChar, Bytes(values))
  {
    ReadRegisterFileOfArray(values);
    ReadRegistersPayload(ArrayToString(values), values);
    LineStores(RegistersChar, ArrayToString(values), Bytes(values));
  }

  /** Line i of those toString writes reads as a store of the component it was written from. */
  lemma ReadWrittenLine(f: Fields, i: nat)
    requires Writable(f) && i < |Tags|
    ensures ReadLine(WrittenLine(f, i)) == WrittenEffect(f, i)
  {
    if i == 0 {
      ReadNumberLine(CyclesChar, f.cycles);
    } else if i == 1 {
      ReadTextLine(OpCodeChar, f.opCode);
    } else if i == 2 {
      ReadMemoryLine(f.memory);
    } else if i == 3 {
      ReadTextLine(ScreenMemoryChar, f.screen);
    } else if i == 4 {
      ReadRegistersLine(f.registers);
    } else if i == 5 {
      ReadRegister16Line(AddressChar, f.address);
    } else if i == 6 {
      ReadRegister16Line(ProgramCounterChar, f.pc);
    } else if i == 7 {
      ReadTextLine(StackChar, f.stack);
    } else if i == 8 {
      ReadNumberLine(DelayTimerChar, f.delay);
    } else if i == 9 {
      ReadNumberLine(SoundTimerChar, f.sound);
    } else {
      ReadTextLine(RandomChar, f.random);
    }
  }

  /** Every line toString writes reads as a store of the component it was written from. */
  lemma ReadWrittenLines(f: Fields)
    requires Writable(f)
    ensures Effects(Lines(f)) == Stored(f)
  {
    var effects, stored := Effects(Lines(f)), Stored(f);
    forall i | 0 <= i < |stored| ensures effects[i] == stored[i] {
      ReadWrittenLine(f, i);
    }
  }

  /** The components read after the first n of the lines toString writes; the others keep their defaults. */
  function Partial(f: Fields, n: nat): (p: Parsed)
  {
    Parsed(
      if n > 0 then f.cycles else 0,
      if n > 1 then f.opCode else "",
      if n > 2 then Some(f.memory) else None,
      if n > 3 then Some(f.screen) else None,
      if n > 4 then Some(f.registers) else None,
      if n > 5 then Some(f.address) else None,
      if n > 6 then Some(f.pc) else None,
      if n > 7 then Some(f.stack) else None,
      if n > 8 then Some(f.delay) else None,
      if n > 9 then Some(f.sound) else None,
      if n > 10 then Some(f.random) else None)
  }

  /** The store of line n - 1 turns the components of n - 1 lines into those of n lines. */
  lemma PutStored(f: Fields, n: nat)
    requires 0 < n <= |Tags|
    ensures Put(Partial(f, n - 1), WrittenEffect(f, n - 1).tag, WrittenEffect(f, n - 1).component) == Partial(f, n)
  {
  }

  /** Carrying out the first n stores of a written state fills in the first n components. */
  lemma {:induction false} PerformStoredPrefix(f: Fields, n: nat)
    requires n <= |Tags|
    ensures Performed(Stored(f), n) == Success(Partial(f, n))
  {
    if n > 0 {
      PerformStoredPrefix(f, n - 1);
      PerformedNext(Stored(f), n, Partial(f, n - 1));
      PutStored(f, n);
    }
  }

  /** Carrying out the stores of a written state, one per component, fills in every component. */
  lemma PerformStored(f: Fields)
    ensures Performed(Stored(f), |Tags|) == Success(Restored(f))
  {
    PerformStoredPrefix(f, |Tags|);
  }

  /**
   * Writing a state and reading it back restores every component, so
   * writing the state read back gives the same text again.
   */
  lemma ReadWriteState(f: Fields, hasSynthesizer: bool)
    requires Writable(f)
    ensures ReadState(ToString(f), hasSynthesizer) == Success(Restored(f))
    ensures ToString(Complete(Restored(f)).value) == ToString(f)
  {
    SplitWritten(f);
    ReadWrittenLines(f);
    PerformStored(f);
  }

  /** A later line with the same tag overrides what an earlier one stored, or throws as it would alone. */
  lemma LaterLineWins(p: Parsed, first: string, second: string)
    requires |first| > 0 && |second| > 0 && first[0] == second[0]
    requires Perform(p, ReadLine(first)).Success?
    ensures Perform(Perform(p, ReadLine(first)).value, ReadLine(second)) == Perform(p, ReadLine(second))
  {
    var e, later := ReadLine(first), ReadLine(second);
    if e.Stores? && later.Stores? {
      PutTwice(p, e.tag, e.component, later.component);
    }
  }

  /** Reading an empty text throws at charAt(0) of its one empty line. */
  lemma EmptyTextThrows(hasSynthesizer: bool)
    ensures ReadState("", hasSynthesizer) == Failure(IndexOutOfBounds)
  {
    assert IndexOf("", "\n").None?;
    assert Split("", "\n") == [""];
    var effects := Effects([""]);
    assert effects[0] == Throws(IndexOutOfBounds);
    PerformedNext(effects, 1, Nothing);
  }

  /** Which characters occur at the head of some line. */
  function TagsOf(lines: seq<string>): (tags: set<char>)
  {
    set i | 0 <= i < |lines| && |lines[i]| > 0 :: lines[i][0]
  }

  /** The tags the first n effects store under. */
  function StoredTags(effects: seq<Effect>, n: nat): (tags: set<char>)
    requires n <= |effects|
  {
    if n == 0 then {}
    else StoredTags(effects, n - 1) + (if effects[n - 1].Stores? then {effects[n - 1].tag} else {})
  }

  /** Each component whose tag is not in seen is as in p. */
  ghost predicate Untouched(q: Parsed, p: Parsed, seen: set<char>)
  {
    && (CyclesChar !in seen ==> q.cycles == p.cycles)
    && (OpCodeChar !in seen ==> q.opCode == p.opCode)
    && (MemoryChar !in seen ==> q.memory == p.memory)
    && (ScreenMemoryChar !in seen ==> q.screen == p.screen)
    && (RegistersChar !in seen ==> q.registers == p.registers)
    && (AddressChar !in seen ==> q.address == p.address)
    && (ProgramCounterChar !in seen ==> q.pc == p.pc)
    && (StackChar !in seen ==> q.stack == p.stack)
    && (DelayTimerChar !in seen ==> q.delay == p.delay)
    && (SoundTimerChar !in seen ==> q.sound == p.sound)
    && (RandomChar !in seen ==> q.random == p.random)
  }

  /** Changing the components of more tags keeps the others as they were. */
  lemma UntouchedGrows(r: Parsed, q: Parsed, p: Parsed, seen: set<char>, more: set<char>)
    requires Untouched(r, q, more) && Untouched(q, p, seen)
    ensures Untouched(r, p, seen + more)
  {
  }

  /** What is untouched outside some tags is untouched outside any tags containing them. */
  lemma UntouchedWithin(q: Parsed, p: Parsed, seen: set<char>, more: set<char>)
    requires Untouched(q, p, seen) && seen <= more
    ensures Untouched(q, p, more)
  {
  }

  /** Carrying out effects changes only the components of the tags they store under. */
  lemma {:induction false} PerformedKeepsDefaults(effects: seq<Effect>, n: nat)
    requires n <= |effects| && AllStorable(effects) && Performed(effects, n).Success?
    ensures Untouched(Performed(effects, n).value, Nothing, StoredTags(effects, n))
  {
    if n > 0 {
      if Performed(effects, n - 1).Failure? {
        PerformedFailedNext(effects, n);
        assert false;
      }
      var p := Performed(effects, n - 1).value;
      PerformedNext(effects, n, p);
      PerformedKeepsDefaults(effects, n - 1);
      var e := effects[n - 1];
      if e.Stores? {
        PutTouchesItsTag(p, e.tag, e.component);
      }
      UntouchedGrows(Performed(effects, n).value, p, Nothing, StoredTags(effects, n - 1),
        if e.Stores? then {e.tag} else {});
    }
  }

  /** Each store among the effects is under the first character of the line at its index. */
  predicate StoresUnderHeads(effects: seq<Effect>, lines: seq<string>)
  {
    |effects| == |lines| &&
    forall i :: 0 <= i < |effects| && effects[i].Stores? ==> |lines[i]| > 0 && lines[i][0] == effects[i].tag
  }

  /** A line's effect stores under the line's first character. */
  lemma EffectsUnderHeads(lines: seq<string>)
    ensures StoresUnderHeads(Effects(lines), lines)
  {
    var effects := Effects(lines);
    forall i | 0 <= i < |effects| && effects[i].Stores? ensures |lines[i]| > 0 && lines[i][0] == effects[i].tag {
      assert effects[i] == ReadLine(lines[i]);
    }
  }

  /** The tags the first n effects store under start lines. */
  lemma {:induction false} StoredTagsStartLines(effects: seq<Effect>, lines: seq<string>, n: nat)
    requires n <= |effects| && StoresUnderHeads(effects, lines)
    ensures StoredTags(effects, n) <= TagsOf(lines)
  {
    if n > 0 {
      StoredTagsStartLines(effects, lines, n - 1);
      var e := effects[n - 1];
      if e.Stores? {
        assert |lines[n - 1]| > 0 && lines[n - 1][0] == e.tag;
        assert e.tag in TagsOf(lines);
      }
    }
  }

  /**
   * A component without a line keeps its default: null for the objects,
   * 0 for the cycles and "" for the opcode text.
   */
  lemma MissingSectionsKeepDefaults(text: string, hasSynthesizer: bool)
    requires ReadState(text, hasSynthesizer).Success?
    ensures Untouched(ReadState(text, hasSynthesizer).value, Nothing, TagsOf(Split(text, "\n")))
  {
    var lines := Split(text, "\n");
    var effects := Effects(lines);
    PerformedKeepsDefaults(effects, |lines|);
    EffectsUnderHeads(lines);
    StoredTagsStartLines(effects, lines, |lines|);
    UntouchedWithin(Performed(effects, |lines|).value, Nothing, StoredTags(effects, |lines|), TagsOf(lines));
  }
}
