/**
 * The main memory: MemoryLength byte cells. The interpreter area below
 * 0x200 holds the sixteen hexadecimal digit glyphs, five rows each.
 */
module Memory {
  import opened Wrappers
  import opened JavaText
  import opened Unsigned
  import opened Constants
  import opened Exceptions

  /** The glyphs of the digits 0..F, five rows of four pixels each, stored from address 0. */
  const Glyphs: seq<Byte> := [
    0xF0, 0x90, 0x90, 0x90, 0xF0,  // 0
    0x20, 0x60, 0x20, 0x20, 0x70,  // 1
    0xF0, 0x10, 0xF0, 0x80, 0xF0,  // 2
    0xF0, 0x10, 0xF0, 0x10, 0xF0,  // 3
    0x90, 0x90, 0xF0, 0x10, 0x10,  // 4
    0xF0, 0x80, 0xF0, 0x10, 0xF0,  // 5
    0xF0, 0x80, 0xF0, 0x90, 0xF0,  // 6
    0xF0, 0x10, 0x20, 0x40, 0x40,  // 7
    0xF0, 0x90, 0xF0, 0x90, 0xF0,  // 8
    0xF0, 0x90, 0xF0, 0x10, 0xF0,  // 9
    0xF0, 0x90, 0xF0, 0x90, 0x90,  // A
    0xE0, 0x90, 0xE0, 0x90, 0xE0,  // B
    0xF0, 0x80, 0x80, 0x80, 0xF0,  // C
    0xE0, 0x90, 0x90, 0x90, 0xE0,  // D
    0xF0, 0x80, 0xF0, 0x80, 0xF0,  // E
    0xF0, 0x80, 0xF0, 0x80, 0x80   // F
  ]

  /** The five rows of the glyph of digit k. */
  function Glyph(k: nat): (rows: seq<Byte>)
    requires k < 16
    ensures |rows| == 5
  {
    Glyphs[5 * k..5 * k + 5]
  }

  /** The contents of a fresh memory: the glyphs, then zeros. */
  function InitialCell(i: int): Byte
  {
    if 0 <= i < |Glyphs| then Glyphs[i] else 0
  }

  /** The value a memory cell gets from its save-state text: parseInt of the trimmed text, narrowed to a byte. */
  function CellValue(text: string): (v: Option<Byte>)
    ensures v.Some? <==> ParseInt(Trim(text)).Some?
    ensures v.Some? ==> v.value == ParseInt(Trim(text)).value % 0x100
  {
    match ParseInt(Trim(text))
    case None => None
    case Some(n) => Some(NewUnsignedByte(ByteCast(n)).b)
  }

  /**
   * new Memory(String[]): every text becomes the cell of the same index; a
   * malformed text is a NumberFormatException and a text past the last
   * cell an ArrayIndexOutOfBoundsException, whichever index comes first.
   */
  function CellValues(texts: seq<string>): (r: Result<seq<Byte>, Exception>)
    ensures r.Success? <==> |texts| <= MemoryLength && forall i :: 0 <= i < |texts| ==> CellValue(texts[i]).Some?
    ensures r.Success? ==> ReadAs(texts, r.value)
    ensures r.Failure? ==> r.error == NumberFormat || r.error == IndexOutOfBounds
  {
    if |texts| == 0 then Success([])
    else
      var init, last := texts[..|texts| - 1], texts[|texts| - 1];
      assert texts == init + [last];
      match CellValues(init)
      case Failure(e) => Failure(e)
      case Success(prefix) =>
        match CellValue(last)
        case None => Failure(NumberFormat)
        case Some(v) =>
          if |init| >= MemoryLength then Failure(IndexOutOfBounds)
          else
            ReadAsSnoc(init, last, prefix, v);
            Success(prefix + [v])
  }

  /** Each value is what its text reads as. */
  ghost predicate ReadAs(texts: seq<string>, values: seq<Byte>)
  {
    |values| == |texts| && forall i :: 0 <= i < |texts| ==> Some(values[i]) == CellValue(texts[i])
  }

  lemma ReadAsSnoc(texts: seq<string>, text: string, values: seq<Byte>, value: Byte)
    requires ReadAs(texts, values) && CellValue(text) == Some(value)
    ensures ReadAs(texts + [text], values + [value])
  {
    var t, v := texts + [text], values + [value];
    forall i | 0 <= i < |t| ensures Some(v[i]) == CellValue(t[i]) {
      if i < |texts| {
        assert t[i] == texts[i] && v[i] == values[i];
      }
    }
  }

  class Memory {
    const cells: array<Byte>

    ghost predicate Valid()
      reads this
    {
      cells.Length == MemoryLength
    }

    /** A memory whose cells are zero except for the digit glyphs at 0..79. */
    constructor ()
      ensures Valid() && fresh(cells)
      ensures forall i :: 0 <= i < MemoryLength ==> cells[i] == InitialCell(i)
    {
      cells := new Byte[MemoryLength](_ => 0);
      new;
      var k := 0;
      while k < 16
        invariant 0 <= k <= 16
        invariant forall i :: 0 <= i < MemoryLength ==> cells[i] == (if i < 5 * k then Glyphs[i] else 0)
      {
        SetupCharacter(5 * k, Glyph(k));
        k := k + 1;
      }
    }

    /** new Memory(String[]) once its texts are read: cells past the given values stay zero. */
    constructor FromValues(values: seq<Byte>)
      requires |values| <= MemoryLength
      ensures Valid() && fresh(cells)
      ensures cells[..] == values + seq(MemoryLength - |values|, _ => 0)
    {
      cells := new Byte[MemoryLength](i => if 0 <= i < |values| then values[i] else 0);
    }

    /** Copies the five rows of a glyph to start .. start + 4. */
    method SetupCharacter(start: nat, rows: seq<Byte>)
      requires Valid() && |rows| == 5 && start + 5 <= MemoryLength
      modifies cells
      ensures forall i :: 0 <= i < MemoryLength ==>
        cells[i] == if start <= i < start + 5 then rows[i - start] else old(cells[i])
    {
      cells[start] := rows[0];
      cells[start + 1] := rows[1];
      cells[start + 2] := rows[2];
      cells[start + 3] := rows[3];
      cells[start + 4] := rows[4];
    }

    /** write: an index outside the array throws, modelled as ok == false with no change. */
    method Write(index: int, value: Byte) returns (ok: bool)
      requires Valid()
      modifies cells
      ensures ok <==> 0 <= index < MemoryLength
      ensures cells[..] == if ok then old(cells[..])[index := value] else old(cells[..])
    {
      ok := 0 <= index < cells.Length;
      if ok {
        cells[index] := value;
      }
    }

    /** read: the cell at index, or an IndexOutOfBoundsException outside 0 .. MemoryLength - 1. */
    function Read(index: int): (r: Result<Byte, Exception>)
      requires Valid()
      reads this, cells
      ensures r.Success? <==> 0 <= index < MemoryLength
      ensures r.Success? ==> r.value == cells[index]
      ensures r.Failure? ==> r.error == IndexOutOfBounds
    {
      if index > -1 && index < MemoryLength then Success(cells[index]) else Failure(IndexOutOfBounds)
    }

    /** clear: zeroes the program area from 0x200 up, keeping the glyphs and the rest of the interpreter area. */
    method Clear()
      requires Valid()
      modifies cells
      ensures forall i :: 0 <= i < MemoryLength ==>
        cells[i] == if i < ProgramCounterStart then old(cells[i]) else 0
    {
      var i := ProgramCounterStart;
      while i < cells.Length
        invariant ProgramCounterStart <= i <= MemoryLength
        invariant forall j :: 0 <= j < MemoryLength ==>
          cells[j] == if ProgramCounterStart <= j < i then 0 else old(cells[j])
      {
        cells[i] := 0;
        i := i + 1;
      }
    }

    /** getValues: Arrays.toString of the cells. */
    function GetValues(): (s: string)
      requires Valid()
      reads this, cells
    {
      ArrayToString(cells[..])
    }
  }
}
