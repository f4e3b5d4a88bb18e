/**
 * EmulatorKey: a key of the emulated keypad as the host keyboard sees it,
 * a name and the event its trigger runs.
 */
module EmulatorKeys {
  import opened Wrappers
  import opened Exceptions
  import opened Keys
  import opened JavaText
  import opened Semantics
  import Cpu

  /**
   * The events keys are created with: the empty lambda of the NOP key, and
   * the lambda of createEmulatorKey(name, cpu) that sets the CPU's key code.
   */
  datatype EmulatorKeyEvent =
    | DoNothing
    | SetKeyCode(keyCode: Int32)

  /** A key: the name it is shown by and the event it triggers. */
  datatype EmulatorKey = EmulatorKey(keyName: string, emulatorKeyEvent: EmulatorKeyEvent)

  /** The key every unmapped host key stands for: named "NOP", and triggering it does nothing. */
  const NopKey: EmulatorKey := EmulatorKey("NOP", DoNothing)

  /** getKeyName: the name the key was created with. */
  function GetKeyName(key: EmulatorKey): string
  {
    key.keyName
  }

  /** toString: a key is written as its name. */
  function ToString(key: EmulatorKey): string
  {
    key.keyName
  }

  /**
   * createEmulatorKey(keyName, centralProcessingUnit): the key code of the
   * name, or the UnknownEmulatorKeyException of valueOf; the key's event sets
   * the CPU's key code to it.
   */
  function CreateEmulatorKey(keyName: string): (r: Result<EmulatorKey, Exception>)
    ensures r.Success? <==> ValueOf(keyName).Success?
    ensures r.Success? ==> GetKeyName(r.value) == keyName && ToString(r.value) == keyName
    ensures r.Success? ==> r.value.emulatorKeyEvent == SetKeyCode(ValueOf(keyName).value)
    ensures r.Failure? ==> r.error == UnknownEmulatorKey
  {
    match ValueOf(keyName)
    case Failure(e) => Failure(e)
    case Success(keyCode) => Success(EmulatorKey(keyName, SetKeyCode(keyCode)))
  }

  /** The key of key code k as createEmulatorKey makes it: named KeyNames[k], setting the key code to k. */
  lemma CreateKeyOfCode(k: nat)
    requires k < 16
    ensures CreateEmulatorKey(KeyNames[k]) == Success(EmulatorKey(KeyNames[k], SetKeyCode(k)))
  {
    ValueOfKeyName(k);
  }

  /** Two keys createEmulatorKey accepts set the same key code only when they have the same name. */
  lemma CreatedKeysDistinct(a: string, b: string)
    requires CreateEmulatorKey(a).Success? && CreateEmulatorKey(b).Success?
    requires CreateEmulatorKey(a).value.emulatorKeyEvent == CreateEmulatorKey(b).value.emulatorKeyEvent
    ensures a == b
  {
    ValueOfInjective(a, b);
  }

  /** What triggering a key does to a machine: its event's key code, or nothing. */
  function Triggered(m: Machine, key: EmulatorKey): (m': Machine)
    ensures key.emulatorKeyEvent == DoNothing ==> m' == m
    ensures key.emulatorKeyEvent.SetKeyCode? ==> m' == m.(keyCode := key.emulatorKeyEvent.keyCode)
  {
    match key.emulatorKeyEvent
    case DoNothing => m
    case SetKeyCode(code) => m.(keyCode := code)
  }

  /** Triggering a created key presses the key its name names, which FX0A then sees as pressed. */
  lemma TriggerCreatedKey(m: Machine, keyName: string)
    requires CreateEmulatorKey(keyName).Success?
    ensures Triggered(m, CreateEmulatorKey(keyName).value).keyCode == ValueOf(keyName).value
    ensures Triggered(m, CreateEmulatorKey(keyName).value).keyCode != NoKey
  {
    ValueOfInjective(keyName, keyName);
  }

  /** trigger: runs the key's event against the CPU it was created for. */
  method Trigger(key: EmulatorKey, cpu: Cpu.CentralProcessingUnit)
    requires cpu.Valid()
    modifies cpu
    ensures cpu.Valid() && cpu.Snapshot() == Triggered(old(cpu.Snapshot()), key)
  {
    match key.emulatorKeyEvent
    case DoNothing =>
    case SetKeyCode(code) => cpu.SetKeyCode(code);
  }
}
