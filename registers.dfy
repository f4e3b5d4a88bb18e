/** The sixteen 8-bit data registers V0..VF. */
module Registers {
  import opened Wrappers
  import opened JavaText
  import opened Unsigned
  import opened Constants
  import opened Exceptions

  /** The value a register gets from its save-state text: parseInt of the text as is, narrowed to a byte. */
  function RegisterValue(text: string): (v: Option<Byte>)
    ensures v.Some? <==> ParseInt(text).Some?
    ensures v.Some? ==> v.value == ParseInt(text).value % 0x100
  {
    match ParseInt(text)
    case None => None
    case Some(n) => Some(NewUnsignedByte(ByteCast(n)).b)
  }

  /** The first n registers read from their texts, in index order, stopping at the first exception. */
  function ReadRegisters(texts: seq<string>, n: nat): (r: Result<seq<Byte>, Exception>)
    requires n <= RegisterLength
    ensures r.Success? <==> n <= |texts| && forall i :: 0 <= i < n ==> RegisterValue(texts[i]).Some?
    ensures r.Success? ==> |r.value| == n && forall i :: 0 <= i < n ==> Some(r.value[i]) == RegisterValue(texts[i])
    ensures r.Failure? ==> r.error == NumberFormat || r.error == IndexOutOfBounds
  {
    if n == 0 then Success([])
    else match ReadRegisters(texts, n - 1)
      case Failure(e) => Failure(e)
      case Success(prefix) =>
        if n - 1 >= |texts| then Failure(IndexOutOfBounds)
        else match RegisterValue(texts[n - 1])
          case None => Failure(NumberFormat)
          case Some(v) => Success(prefix + [v])
  }

  /**
   * new Registers(String[]): register i is read from text i; fewer than
   * sixteen texts is an ArrayIndexOutOfBoundsException and texts past the
   * sixteenth are ignored.
   */
  function RegisterValues(texts: seq<string>): (r: Result<seq<Byte>, Exception>)
    ensures r.Success? ==> |r.value| == RegisterLength
    ensures |texts| < RegisterLength ==> r.Failure?
  {
    ReadRegisters(texts, RegisterLength)
  }

  /** Texts after the sixteenth play no part in reading the registers. */
  lemma {:induction false} ReadRegistersIgnoresExtra(texts: seq<string>, n: nat)
    requires n <= RegisterLength <= |texts|
    ensures ReadRegisters(texts, n) == ReadRegisters(texts[..RegisterLength], n)
  {
    if n > 0 {
      ReadRegistersIgnoresExtra(texts, n - 1);
      assert texts[..RegisterLength][n - 1] == texts[n - 1];
    }
  }

  class Registers {
    const cells: array<Byte>

    ghost predicate Valid()
      reads this
    {
      cells.Length == RegisterLength
    }

    /** All registers zero. */
    constructor ()
      ensures Valid() && fresh(cells)
      ensures forall i :: 0 <= i < RegisterLength ==> cells[i] == 0
    {
      cells := new Byte[RegisterLength](_ => 0);
    }

    /** new Registers(String[]) once its texts are read. */
    constructor FromValues(values: seq<Byte>)
      requires |values| == RegisterLength
      ensures Valid() && fresh(cells) && cells[..] == values
    {
      cells := new Byte[RegisterLength](i => if 0 <= i < |values| then values[i] else 0);
    }

    /** peek(Vx): the value of register Vx, or an ArrayIndexOutOfBoundsException outside V0 .. VF. */
    function Peek(x: int): (r: Result<Byte, Exception>)
      requires Valid()
      reads this, cells
      ensures r.Success? <==> 0 <= x < RegisterLength
      ensures r.Success? ==> r.value == cells[x]
      ensures r.Failure? ==> r.error == IndexOutOfBounds
    {
      if 0 <= x < cells.Length then Success(cells[x]) else Failure(IndexOutOfBounds)
    }

    /**
     * poke(Vx, value): register Vx takes value and the others keep theirs;
     * outside V0 .. VF it is an ArrayIndexOutOfBoundsException (ok false)
     * and nothing changes.
     */
    method Poke(x: int, value: Byte) returns (ok: bool)
      requires Valid()
      modifies cells
      ensures ok <==> 0 <= x < RegisterLength
      ensures cells[..] == if ok then old(cells[..])[x := value] else old(cells[..])
    {
      ok := 0 <= x < cells.Length;
      if ok {
        cells[x] := value;
      }
    }

    /** clear: every register back to zero. */
    method Clear()
      requires Valid()
      modifies cells
      ensures forall i :: 0 <= i < RegisterLength ==> cells[i] == 0
    {
      var i := 0;
      while i < cells.Length
        invariant 0 <= i <= RegisterLength
        invariant forall j :: 0 <= j < i ==> cells[j] == 0
      {
        cells[i] := 0;
        i := i + 1;
      }
    }

    /** getValues: Arrays.toString of the registers. */
    function GetValues(): (s: string)
      requires Valid()
      reads this, cells
    {
      ArrayToString(cells[..])
    }
  }
}
