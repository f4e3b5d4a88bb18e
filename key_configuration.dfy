/**
 * KeyConfiguration: which emulated key each host key stands for.
 *
 * A host key is named by its javafx KeyCode constant ("X", "DIGIT1", ...);
 * which names KeyCode.valueOf accepts is given as the set hostKeys, since
 * javafx is not part of this model. The class models both KeyConfiguration
 * classes of the emulator: the one under utils, and the one under
 * utils.keyConfiguration that can also be written to and read from a
 * "config{ ... }" text.
 */
module KeyConfigurations {
  import opened Wrappers
  import opened Exceptions
  import opened JavaText
  import opened Keys
  import opened EmulatorKeys

  /** The name of a javafx KeyCode constant. */
  type HostKey = string

  type KeyMap = map<HostKey, EmulatorKey>

  // ---------------------------------------------------------------- the standard layout

  /** The host keys of the standard layout, in the order of the keypad keys they press. */
  const StandardHostKeys: seq<HostKey> :=
    ["X", "DIGIT1", "DIGIT2", "DIGIT3", "Q", "W", "E", "A", "S", "D", "Z", "C", "DIGIT4", "R", "F", "V"]

  /** createStandardEmulatorKeyHashMap: the sixteen host keys of the standard layout. */
  function StandardMap(): KeyMap
  {
    map[
      "X" := EmulatorKey("0", SetKeyCode(0)), "DIGIT1" := EmulatorKey("1", SetKeyCode(1)),
      "DIGIT2" := EmulatorKey("2", SetKeyCode(2)), "DIGIT3" := EmulatorKey("3", SetKeyCode(3)),
      "Q" := EmulatorKey("4", SetKeyCode(4)), "W" := EmulatorKey("5", SetKeyCode(5)),
      "E" := EmulatorKey("6", SetKeyCode(6)), "A" := EmulatorKey("7", SetKeyCode(7)),
      "S" := EmulatorKey("8", SetKeyCode(8)), "D" := EmulatorKey("9", SetKeyCode(9)),
      "Z" := EmulatorKey("A", SetKeyCode(10)), "C" := EmulatorKey("B", SetKeyCode(11)),
      "DIGIT4" := EmulatorKey("C", SetKeyCode(12)), "R" := EmulatorKey("D", SetKeyCode(13)),
      "F" := EmulatorKey("E", SetKeyCode(14)), "V" := EmulatorKey("F", SetKeyCode(15))
    ]
  }

  /** Every key of the map is the key createEmulatorKey makes of its name. */
  ghost predicate Created(m: KeyMap)
  {
    forall h :: h in m ==> CreateEmulatorKey(m[h].keyName) == Success(m[h])
  }

  /** StandardHostKeys[k] presses keypad key k, with the key createEmulatorKey makes of its name. */
  lemma StandardEntry(k: nat)
    requires k < 16
    ensures StandardHostKeys[k] in StandardMap()
    ensures StandardMap()[StandardHostKeys[k]].emulatorKeyEvent == SetKeyCode(k)
    ensures CreateEmulatorKey(StandardMap()[StandardHostKeys[k]].keyName) == Success(StandardMap()[StandardHostKeys[k]])
  {
    var key := StandardMap()[StandardHostKeys[k]];
    assert key.keyName == KeyNames[k] && key.emulatorKeyEvent == SetKeyCode(k);
    CreateKeyOfCode(k);
  }

  /** The host keys of the standard layout are exactly those of StandardHostKeys. */
  lemma StandardHosts()
    ensures forall h :: h in StandardMap() <==> h in StandardHostKeys
  {
  }

  /** A sequence without repetitions has as many distinct elements as it is long. */
  lemma {:induction false} DistinctElements(s: seq<HostKey>)
    requires forall i, j :: 0 <= i < j < |s| ==> s[i] != s[j]
    ensures |set h | h in s| == |s|
  {
    if |s| > 0 {
      var rest := s[..|s| - 1];
      DistinctElements(rest);
      assert (set h | h in s) == (set h | h in rest) + {s[|s| - 1]};
    }
  }

  /** The standard layout has sixteen entries, one per keypad key, each one a key createEmulatorKey makes. */
  lemma StandardMapComplete()
    ensures |StandardMap()| == 16
    ensures Created(StandardMap())
    ensures forall k :: 0 <= k < 16 ==> exists h :: h in StandardMap() && StandardMap()[h].emulatorKeyEvent == SetKeyCode(k)
  {
    StandardHosts();
    forall h | h in StandardMap() ensures CreateEmulatorKey(StandardMap()[h].keyName) == Success(StandardMap()[h]) {
      var k :| 0 <= k < 16 && StandardHostKeys[k] == h;
      StandardEntry(k);
    }
    forall k | 0 <= k < 16 ensures exists h :: h in StandardMap() && StandardMap()[h].emulatorKeyEvent == SetKeyCode(k) {
      StandardEntry(k);
    }
    StandardSize();
  }

  /** Sixteen distinct host keys: the standard layout has sixteen entries. */
  lemma StandardSize()
    ensures |StandardMap()| == 16
  {
    forall i, j | 0 <= i < j < 16 ensures StandardHostKeys[i] != StandardHostKeys[j] {
      StandardEntry(i);
      StandardEntry(j);
    }
    DistinctElements(StandardHostKeys);
    var keys := StandardMap().Keys;
    assert keys == set h | h in StandardHostKeys by { StandardHosts(); }
  }

  // ---------------------------------------------------------------- reading the text form

  /** What processLine makes of one line, which does not depend on the lines before it. */
  datatype LineEffect =
    | Aborts(error: Exception)
    | Ignored
    | Binds(hostKey: HostKey, key: EmulatorKey)

  /**
   * processLine: "config{" and "}" are passed over; any other line is trimmed
   * and split on "=". The host key name is not caught when it is missing
   * (ArrayIndexOutOfBoundsException) or unknown (IllegalArgumentException of
   * KeyCode.valueOf), and neither is a missing key name; a key name
   * createEmulatorKey does not know is passed over.
   */
  function ReadLine(line: string, hostKeys: set<HostKey>): (e: LineEffect)
    ensures line == "config{" || line == "}" ==> e == Ignored
    ensures e.Binds? ==> e.hostKey in hostKeys && CreateEmulatorKey(e.key.keyName) == Success(e.key)
    ensures e.Aborts? ==> e.error == IndexOutOfBounds || e.error == IllegalArgument
  {
    if line == "config{" || line == "}" then Ignored
    else ReadEntry(Split(Trim(line), "="), hostKeys)
  }

  /** The fields entry_value of a line that is no bracket line: the host key name, then the key name. */
  function ReadEntry(entryValue: seq<string>, hostKeys: set<HostKey>): (e: LineEffect)
    ensures e.Binds? ==> e.hostKey in hostKeys && CreateEmulatorKey(e.key.keyName) == Success(e.key)
    ensures e.Aborts? ==> e.error == IndexOutOfBounds || e.error == IllegalArgument
  {
    if |entryValue| == 0 then Aborts(IndexOutOfBounds)
    else if Trim(entryValue[0]) !in hostKeys then Aborts(IllegalArgument)
    else if |entryValue| < 2 then Aborts(IndexOutOfBounds)
    else match CreateEmulatorKey(Trim(entryValue[1]))
      case Failure(_) => Ignored
      case Success(key) => Binds(Trim(entryValue[0]), key)
  }

  /** The effect of one line on the map built so far. */
  function Apply(m: KeyMap, e: LineEffect): (r: Result<KeyMap, Exception>)
    ensures r.Success? <==> !e.Aborts?
    ensures e.Aborts? ==> r.error == e.error
  {
    match e
    case Aborts(error) => Failure(error)
    case Ignored => Success(m)
    case Binds(hostKey, key) => Success(m[hostKey := key])
  }

  /** The effects of all lines. */
  function LineEffects(lines: seq<string>, hostKeys: set<HostKey>): (effects: seq<LineEffect>)
    ensures |effects| == |lines|
  {
    seq(|lines|, i requires 0 <= i < |lines| => ReadLine(lines[i], hostKeys))
  }

  /** The map after the first n effects, starting from an empty map; the first exception ends it. */
  function Applied(effects: seq<LineEffect>, n: nat): Result<KeyMap, Exception>
    requires n <= |effects|
  {
    if n == 0 then Success(map[])
    else match Applied(effects, n - 1)
      case Failure(error) => Failure(error)
      case Success(m) => Apply(m, effects[n - 1])
  }

  /** createKeyConfiguration(emulator, text): the text split into lines, each one processed in turn. */
  function ParseConfiguration(text: string, hostKeys: set<HostKey>): Result<KeyMap, Exception>
  {
    var lines := Split(text, "\n");
    Applied(LineEffects(lines, hostKeys), |lines|)
  }

  lemma AppliedNext(effects: seq<LineEffect>, n: nat, m: KeyMap)
    requires n < |effects| && Applied(effects, n) == Success(m)
    ensures Applied(effects, n + 1) == Apply(m, effects[n])
  {
  }

  /** Once an exception is thrown, the rest of the lines are not looked at. */
  lemma {:induction false} AppliedStaysFailed(effects: seq<LineEffect>, n: nat, k: nat)
    requires n <= k <= |effects| && Applied(effects, n).Failure?
    ensures Applied(effects, k) == Applied(effects, n)
    decreases k - n
  {
    if n < k {
      assert Applied(effects, n + 1) == Applied(effects, n);
      AppliedStaysFailed(effects, n + 1, k);
    }
  }

  /** A parsed map only binds host keys KeyCode knows, to keys createEmulatorKey makes. */
  lemma {:induction false} AppliedWellFormed(effects: seq<LineEffect>, n: nat, hostKeys: set<HostKey>)
    requires n <= |effects|
    requires forall i :: 0 <= i < |effects| && effects[i].Binds? ==>
      effects[i].hostKey in hostKeys && CreateEmulatorKey(effects[i].key.keyName) == Success(effects[i].key)
    requires Applied(effects, n).Success?
    ensures Applied(effects, n).value.Keys <= hostKeys && Created(Applied(effects, n).value)
  {
    if n > 0 {
      AppliedWellFormed(effects, n - 1, hostKeys);
    }
  }

  /** Whatever text is read, the map it gives binds known host keys to created keys only. */
  lemma ParsedWellFormed(text: string, hostKeys: set<HostKey>)
    requires ParseConfiguration(text, hostKeys).Success?
    ensures ParseConfiguration(text, hostKeys).value.Keys <= hostKeys
    ensures Created(ParseConfiguration(text, hostKeys).value)
  {
    var lines := Split(text, "\n");
    var effects := LineEffects(lines, hostKeys);
    forall i | 0 <= i < |effects| && effects[i].Binds?
      ensures effects[i].hostKey in hostKeys && CreateEmulatorKey(effects[i].key.keyName) == Success(effects[i].key)
    {
      assert effects[i] == ReadLine(lines[i], hostKeys);
    }
    AppliedWellFormed(effects, |lines|, hostKeys);
  }

  // ---------------------------------------------------------------- one entry line

  /** A name without blanks and without "=": every host key and key name is one. */
  predicate Token(s: string)
  {
    |s| > 0 && forall i :: 0 <= i < |s| ==> !IsBlank(s[i]) && s[i] != '='
  }

  /** The line toString writes for one entry. */
  function EntryLine(hostKey: HostKey, key: EmulatorKey): string
  {
    hostKey + " = " + EmulatorKeys.ToString(key)
  }

  /** The names createEmulatorKey accepts are tokens. */
  lemma KeyNameToken(name: string)
    requires ValueOf(name).Success?
    ensures Token(name)
  {
    var k := ValueOf(name).value;
    assert KeyNames[k] == name;
  }

  /** An entry line is no bracket line, is already trimmed, and splits on "=" into its two padded names. */
  lemma EntryFields(hostKey: HostKey, keyName: string)
    requires Token(hostKey) && Token(keyName)
    ensures hostKey + " = " + keyName != "config{" && hostKey + " = " + keyName != "}"
    ensures Split(Trim(hostKey + " = " + keyName), "=") == [hostKey + " ", " " + keyName]
    ensures Trim(hostKey + " ") == hostKey && Trim(" " + keyName) == keyName
  {
    var line := hostKey + " = " + keyName;
    assert line[|hostKey| + 1] == '=';
    assert line != "config{" && line != "}" by {
      assert |line| >= 4 && '=' !in "config{";
    }
    assert Trim(line) == line by {
      assert line[0] == hostKey[0];
      assert line[|line| - 1] == keyName[|keyName| - 1];
    }
    var left, right := hostKey + " ", " " + keyName;
    assert Join([left, right], "=") == line by {
      assert Join([right], "=") == right;
    }
    assert Separable([left, right], "=") by {
      assert '=' !in left by { assert forall i :: 0 <= i < |left| ==> left[i] != '='; }
      assert '=' !in right by { assert forall i :: 0 <= i < |right| ==> right[i] != '='; }
    }
    SplitJoin([left, right], "=");
    TrimPadded(hostKey);
    TrimPadded(keyName);
  }

  /**
   * A line processLine reads as an entry: no bracket line, and trimmed and
   * split on "=" it gives two fields, left and right, that trim to the host
   * key name and the key name ("X = 5" and " X=5" both do).
   */
  ghost predicate EntryShaped(line: string, left: string, right: string, hostKey: HostKey, keyName: string)
  {
    line != "config{" && line != "}" &&
    Split(Trim(line), "=") == [left, right] && Trim(left) == hostKey && Trim(right) == keyName
  }

  /** An entry line whose host key KeyCode does not know ends the whole read with IllegalArgumentException. */
  lemma EntryLineAborts(line: string, left: string, right: string, hostKey: HostKey, keyName: string, hostKeys: set<HostKey>)
    requires EntryShaped(line, left, right, hostKey, keyName)
    ensures hostKey !in hostKeys ==> ReadLine(line, hostKeys) == Aborts(IllegalArgument)
  {
    assert ReadLine(line, hostKeys) == ReadEntry([left, right], hostKeys);
  }

  /** An entry line with a known host key whose key name createEmulatorKey does not know ("Z = AA") is passed over. */
  lemma EntryLineIgnored(line: string, left: string, right: string, hostKey: HostKey, keyName: string, hostKeys: set<HostKey>)
    requires EntryShaped(line, left, right, hostKey, keyName)
    ensures hostKey in hostKeys && CreateEmulatorKey(keyName).Failure? ==> ReadLine(line, hostKeys) == Ignored
  {
    assert ReadLine(line, hostKeys) == ReadEntry([left, right], hostKeys);
  }

  /** An entry line with two known names binds the host key to the created key. */
  lemma EntryLineBinds(line: string, left: string, right: string, hostKey: HostKey, keyName: string, hostKeys: set<HostKey>)
    requires EntryShaped(line, left, right, hostKey, keyName)
    ensures hostKey in hostKeys && CreateEmulatorKey(keyName).Success? ==>
      ReadLine(line, hostKeys) == Binds(hostKey, CreateEmulatorKey(keyName).value)
  {
    assert ReadLine(line, hostKeys) == ReadEntry([left, right], hostKeys);
  }

  // ---------------------------------------------------------------- the text form

  /** Every host key of the order is in the map. */
  ghost predicate Listed(m: KeyMap, order: seq<HostKey>)
  {
    forall i :: 0 <= i < |order| ==> order[i] in m
  }

  /** An order in which forEach may visit the entries: each host key of the map once. */
  ghost predicate Enumerates(order: seq<HostKey>, m: KeyMap)
  {
    (forall h :: h in m <==> h in order) &&
    (forall i, j :: 0 <= i < j < |order| ==> order[i] != order[j])
  }

  /** The entry lines, each followed by a line break, in the given order. */
  function EntryLines(m: KeyMap, order: seq<HostKey>): string
    requires Listed(m, order)
  {
    if |order| == 0 then ""
    else EntryLine(order[0], m[order[0]]) + "\n" + EntryLines(m, order[1..])
  }

  /** toString: "config{", one line per entry, and "}". */
  function ConfigText(m: KeyMap, order: seq<HostKey>): string
    requires Listed(m, order)
  {
    "config{\n" + EntryLines(m, order) + "}"
  }

  lemma {:induction false} EntryLinesAppend(m: KeyMap, order: seq<HostKey>, h: HostKey)
    requires Listed(m, order) && h in m
    ensures Listed(m, order + [h])
    ensures EntryLines(m, order + [h]) == EntryLines(m, order) + EntryLine(h, m[h]) + "\n"
  {
    if |order| > 0 {
      assert (order + [h])[1..] == order[1..] + [h];
      EntryLinesAppend(m, order[1..], h);
    }
  }

  /** The lines of the text form, without their line breaks. */
  function EntryTexts(m: KeyMap, order: seq<HostKey>): (texts: seq<string>)
    requires Listed(m, order)
    ensures |texts| == |order|
  {
    seq(|order|, i requires 0 <= i < |order| => EntryLine(order[i], m[order[i]]))
  }

  lemma {:induction false} EntryLinesJoined(m: KeyMap, order: seq<HostKey>)
    requires Listed(m, order)
    ensures EntryLines(m, order) + "}" == Join(EntryTexts(m, order) + ["}"], "\n")
  {
    if |order| > 0 {
      EntryLinesJoined(m, order[1..]);
      assert (EntryTexts(m, order) + ["}"])[1..] == EntryTexts(m, order[1..]) + ["}"];
    }
  }

  /** The map binds token host keys to created keys: what a text form can say. */
  ghost predicate Writable(m: KeyMap, hostKeys: set<HostKey>)
  {
    m.Keys <= hostKeys && Created(m) && forall h :: h in m ==> Token(h)
  }

  /** An entry line of token names holds no line break. */
  lemma EntryLineAvoidsNewline(hostKey: HostKey, keyName: string)
    requires Token(hostKey) && Token(keyName)
    ensures '\n' !in hostKey + " = " + keyName
  {
    var line := hostKey + " = " + keyName;
    assert forall j :: 0 <= j < |line| ==> line[j] != '\n';
  }

  lemma WrittenLinesSeparable(m: KeyMap, order: seq<HostKey>, hostKeys: set<HostKey>)
    requires Writable(m, hostKeys) && Listed(m, order)
    ensures Separable(WrittenLines(m, order), "\n")
  {
    var lines := WrittenLines(m, order);
    forall i | 0 <= i < |lines| ensures '\n' !in lines[i] {
      if 0 < i < |lines| - 1 {
        var h := order[i - 1];
        assert lines[i] == h + " = " + m[h].keyName;
        KeyNameToken(m[h].keyName);
        EntryLineAvoidsNewline(h, m[h].keyName);
      }
    }
  }

  lemma WrittenLinesJoined(m: KeyMap, order: seq<HostKey>)
    requires Listed(m, order)
    ensures Join(WrittenLines(m, order), "\n") == ConfigText(m, order)
  {
    var texts := EntryTexts(m, order);
    var lines := WrittenLines(m, order);
    EntryLinesJoined(m, order);
    assert lines[1..] == texts + ["}"];
  }

  /** The text form splits back into its lines. */
  lemma SplitConfigText(m: KeyMap, order: seq<HostKey>, hostKeys: set<HostKey>)
    requires Writable(m, hostKeys) && Listed(m, order)
    ensures Split(ConfigText(m, order), "\n") == WrittenLines(m, order)
  {
    WrittenLinesJoined(m, order);
    WrittenLinesSeparable(m, order, hostKeys);
    SplitJoin(WrittenLines(m, order), "\n");
  }

  /** The map whose host keys are those of the order. */
  function Restrict(m: KeyMap, order: seq<HostKey>): KeyMap
  {
    map h | h in m && h in order :: m[h]
  }

  /** Binding one more host key of the order extends the restricted map by it. */
  lemma RestrictStep(m: KeyMap, order: seq<HostKey>, n: nat)
    requires Listed(m, order) && 0 < n <= |order|
    ensures Restrict(m, order[..n - 1])[order[n - 1] := m[order[n - 1]]] == Restrict(m, order[..n])
  {
    assert order[..n] == order[..n - 1] + [order[n - 1]];
  }

  /** The lines of the text form: the bracket lines, and one line per entry. */
  function WrittenLines(m: KeyMap, order: seq<HostKey>): (lines: seq<string>)
    requires Listed(m, order)
    ensures |lines| == |order| + 2
  {
    ["config{"] + EntryTexts(m, order) + ["}"]
  }

  /** The bracket lines of the text form are passed over. */
  lemma BracketLineEffects(m: KeyMap, order: seq<HostKey>, hostKeys: set<HostKey>)
    requires Listed(m, order)
    ensures LineEffects(WrittenLines(m, order), hostKeys)[0] == Ignored
    ensures LineEffects(WrittenLines(m, order), hostKeys)[|order| + 1] == Ignored
  {
    var lines := WrittenLines(m, order);
    assert lines[0] == "config{" && lines[|order| + 1] == "}";
    var effects := LineEffects(lines, hostKeys);
    assert effects[0] == ReadLine(lines[0], hostKeys);
    assert effects[|order| + 1] == ReadLine(lines[|order| + 1], hostKeys);
  }

  /** The line of an entry binds its host key to its key. */
  lemma EntryLineEffect(m: KeyMap, order: seq<HostKey>, hostKeys: set<HostKey>, i: nat)
    requires Writable(m, hostKeys) && Listed(m, order) && i < |order|
    ensures LineEffects(WrittenLines(m, order), hostKeys)[i + 1] == Binds(order[i], m[order[i]])
  {
    var lines := WrittenLines(m, order);
    var h := order[i];
    var key := m[h];
    assert lines[i + 1] == h + " = " + key.keyName;
    KeyNameToken(key.keyName);
    var line, left, right := h + " = " + key.keyName, h + " ", " " + key.keyName;
    assert EntryShaped(line, left, right, h, key.keyName) by { EntryFields(h, key.keyName); }
    EntryLineBinds(line, left, right, h, key.keyName, hostKeys);
    assert LineEffects(lines, hostKeys)[i + 1] == ReadLine(h + " = " + key.keyName, hostKeys);
  }

  /** The effects the lines of the text form have: each entry line binds its host key to its key. */
  ghost predicate BindsInOrder(effects: seq<LineEffect>, m: KeyMap, order: seq<HostKey>)
    requires Listed(m, order)
  {
    |effects| == |order| + 2 && effects[0] == Ignored && effects[|order| + 1] == Ignored &&
    forall i :: 0 <= i < |order| ==> effects[i + 1] == Binds(order[i], m[order[i]])
  }

  lemma WrittenEffects(m: KeyMap, order: seq<HostKey>, hostKeys: set<HostKey>)
    requires Writable(m, hostKeys) && Listed(m, order)
    ensures BindsInOrder(LineEffects(WrittenLines(m, order), hostKeys), m, order)
  {
    BracketLineEffects(m, order, hostKeys);
    forall i | 0 <= i < |order|
      ensures LineEffects(WrittenLines(m, order), hostKeys)[i + 1] == Binds(order[i], m[order[i]])
    {
      EntryLineEffect(m, order, hostKeys, i);
    }
  }

  lemma {:induction false} AppliedInOrder(effects: seq<LineEffect>, m: KeyMap, order: seq<HostKey>, n: nat)
    requires Listed(m, order) && BindsInOrder(effects, m, order) && n <= |order|
    ensures Applied(effects, n + 1) == Success(Restrict(m, order[..n]))
  {
    if n == 0 {
      assert Restrict(m, order[..0]) == map[];
    } else {
      AppliedInOrder(effects, m, order, n - 1);
      assert effects[n] == Binds(order[n - 1], m[order[n - 1]]);
      AppliedNext(effects, n, Restrict(m, order[..n - 1]));
      RestrictStep(m, order, n);
    }
  }

  /** Restricting a map to an order that lists all its host keys leaves it as it is. */
  lemma RestrictAll(m: KeyMap, order: seq<HostKey>)
    requires forall h :: h in m ==> h in order
    ensures Restrict(m, order) == m
  {
  }

  /** All lines of the text form together rebuild the map. */
  lemma AppliedAll(effects: seq<LineEffect>, m: KeyMap, order: seq<HostKey>)
    requires Listed(m, order) && BindsInOrder(effects, m, order) && forall h :: h in m ==> h in order
    ensures Applied(effects, |order| + 2) == Success(m)
  {
    AppliedInOrder(effects, m, order, |order|);
    assert order[..|order|] == order;
    AppliedNext(effects, |order| + 1, Restrict(m, order));
    RestrictAll(m, order);
  }

  /**
   * Reading back what toString wrote, with the entries in any order, gives
   * the same map: the text form loses nothing of a map of created keys.
   */
  lemma ReadWrittenConfiguration(m: KeyMap, order: seq<HostKey>, hostKeys: set<HostKey>)
    requires Writable(m, hostKeys) && Enumerates(order, m)
    ensures Listed(m, order)
    ensures ParseConfiguration(ConfigText(m, order), hostKeys) == Success(m)
  {
    SplitConfigText(m, order, hostKeys);
    WrittenEffects(m, order, hostKeys);
    AppliedAll(LineEffects(WrittenLines(m, order), hostKeys), m, order);
  }

  /** The host keys of the standard layout are tokens. */
  lemma StandardHostTokens()
    ensures forall k :: 0 <= k < 16 ==> Token(StandardHostKeys[k])
  {
    forall k | 0 <= k < 16 ensures Token(StandardHostKeys[k]) {
      var h := StandardHostKeys[k];
      assert |h| == 1 || h[..5] == "DIGIT";
    }
  }

  /** The standard layout, written in any order, reads back as the standard layout. */
  lemma ReadWrittenStandard(order: seq<HostKey>, hostKeys: set<HostKey>)
    requires Enumerates(order, StandardMap()) && StandardMap().Keys <= hostKeys
    ensures Listed(StandardMap(), order)
    ensures ParseConfiguration(ConfigText(StandardMap(), order), hostKeys) == Success(StandardMap())
  {
    StandardMapComplete();
    StandardHosts();
    StandardHostTokens();
    assert Writable(StandardMap(), hostKeys);
    ReadWrittenConfiguration(StandardMap(), order, hostKeys);
  }

  // ---------------------------------------------------------------- the object

  class KeyConfiguration {
    var emulatorKeyHashMap: KeyMap

    /** createKeyConfiguration(emulator): the standard layout. */
    constructor Standard()
      ensures emulatorKeyHashMap == StandardMap()
    {
      emulatorKeyHashMap := StandardMap();
    }

    /** createKeyConfiguration(map): the given map. */
    constructor (m: KeyMap)
      ensures emulatorKeyHashMap == m
    {
      emulatorKeyHashMap := m;
    }

    /** createKeyConfiguration(emulator, text): each line of the text processed in turn into a new map. */
    static method FromText(text: string, hostKeys: set<HostKey>) returns (r: Result<KeyConfiguration, Exception>)
      ensures r.Success? <==> ParseConfiguration(text, hostKeys).Success?
      ensures r.Failure? ==> r.error == ParseConfiguration(text, hostKeys).error
      ensures r.Success? ==> fresh(r.value) && r.value.emulatorKeyHashMap == ParseConfiguration(text, hostKeys).value
    {
      var lines := Split(text, "\n");
      ghost var effects := LineEffects(lines, hostKeys);
      var m: KeyMap := map[];
      var i := 0;
      while i < |lines|
        invariant 0 <= i <= |lines|
        invariant Applied(effects, i) == Success(m)
      {
        var next := Apply(m, ReadLine(lines[i], hostKeys));
        AppliedNext(effects, i, m);
        if next.Failure? {
          AppliedStaysFailed(effects, i + 1, |lines|);
          return Failure(next.error);
        }
        m := next.value;
        i := i + 1;
      }
      var configuration := new KeyConfiguration(m);
      return Success(configuration);
    }

    /** setEmulatorKeyHashMap: the whole mapping is replaced. */
    method SetEmulatorKeyHashMap(m: KeyMap)
      modifies this
      ensures emulatorKeyHashMap == m
    {
      emulatorKeyHashMap := m;
    }

    /** entrySet: exactly the current bindings. */
    method EntrySet() returns (entries: set<(HostKey, EmulatorKey)>)
      ensures forall h, key :: (h, key) in entries <==> h in emulatorKeyHashMap && emulatorKeyHashMap[h] == key
    {
      entries := emulatorKeyHashMap.Items;
    }

    /** contains: whether the host key is bound. */
    method Contains(hostKey: HostKey) returns (b: bool)
      ensures b <==> hostKey in emulatorKeyHashMap
    {
      b := hostKey in emulatorKeyHashMap;
    }

    /** getOrNOP: the bound key, or the NOP key, which does nothing when triggered. */
    method GetOrNop(hostKey: HostKey) returns (key: EmulatorKey)
      ensures hostKey in emulatorKeyHashMap ==> key == emulatorKeyHashMap[hostKey]
      ensures hostKey !in emulatorKeyHashMap ==> key == NopKey && key.keyName == "NOP"
      ensures hostKey !in emulatorKeyHashMap ==> forall m :: Triggered(m, key) == m
    {
      key := if hostKey in emulatorKeyHashMap then emulatorKeyHashMap[hostKey] else NopKey;
    }

    /**
     * toString: "config{", then one "host = name" line per entry in the order
     * the map's forEach visits them, then "}". HashMap's order is not
     * specified, so the order is a parameter.
     */
    method ToString(order: seq<HostKey>) returns (text: string)
      requires Enumerates(order, emulatorKeyHashMap)
      ensures Listed(emulatorKeyHashMap, order)
      ensures text == ConfigText(emulatorKeyHashMap, order)
    {
      text := "config{\n";
      var i := 0;
      while i < |order|
        invariant 0 <= i <= |order|
        invariant Listed(emulatorKeyHashMap, order[..i])
        invariant text == "config{\n" + EntryLines(emulatorKeyHashMap, order[..i])
      {
        var h := order[i];
        EntryLinesAppend(emulatorKeyHashMap, order[..i], h);
        assert order[..i + 1] == order[..i] + [h];
        text := text + EntryLine(h, emulatorKeyHashMap[h]) + "\n";
        i := i + 1;
      }
      assert order[..i] == order;
      text := text + "}";
    }
  }
}
