/** The sixteen keys of the CHIP-8 keypad, their names "0".."9", "A".."F", and the no-key code. */
module Keys {
  import opened Wrappers
  import opened Exceptions

  /** The key code while no key is pressed. */
  const NoKey: int := 0xFF

  /** The name of key k is KeyNames[k]. */
  const KeyNames: seq<string> := ["0", "1", "2", "3", "4", "5", "6", "7", "8", "9", "A", "B", "C", "D", "E", "F"]

  /** valueOf: the key code of a key name; any other text is an UnknownEmulatorKeyException. */
  function ValueOf(name: string): (r: Result<nat, Exception>)
    ensures r.Success? <==> name in KeyNames
    ensures r.Success? ==> r.value < 16 && KeyNames[r.value] == name
    ensures r.Failure? ==> r.error == UnknownEmulatorKey
  {
    match name
    case "0" => Success(0x0)
    case "1" => Success(0x1)
    case "2" => Success(0x2)
    case "3" => Success(0x3)
    case "4" => Success(0x4)
    case "5" => Success(0x5)
    case "6" => Success(0x6)
    case "7" => Success(0x7)
    case "8" => Success(0x8)
    case "9" => Success(0x9)
    case "A" => Success(0xA)
    case "B" => Success(0xB)
    case "C" => Success(0xC)
    case "D" => Success(0xD)
    case "E" => Success(0xE)
    case "F" => Success(0xF)
    case _ => Failure(UnknownEmulatorKey)
  }

  /** Every key's name reads back as that key, so valueOf is onto 0..15. */
  lemma ValueOfKeyName(k: nat)
    requires k < 16
    ensures ValueOf(KeyNames[k]) == Success(k)
  {
    var r := ValueOf(KeyNames[k]);
    assert r.Success?;
    assert KeyNames[r.value] == KeyNames[k];
    KeyNamesDistinct(r.value, k);
  }

  lemma KeyNamesDistinct(i: nat, j: nat)
    requires i < 16 && j < 16 && KeyNames[i] == KeyNames[j]
    ensures i == j
  {
    assert forall a, b :: 0 <= a < b < 16 ==> KeyNames[a][0] != KeyNames[b][0];
  }

  /** Two names with the same key code are the same name, and no key code is NoKey. */
  lemma ValueOfInjective(a: string, b: string)
    requires ValueOf(a).Success? && ValueOf(b).Success?
    ensures ValueOf(a) == ValueOf(b) ==> a == b
    ensures ValueOf(a).value != NoKey
  {
  }
}
