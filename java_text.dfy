/**
 * The pieces of java.lang.String and java.lang.Integer that the emulator's
 * text formats rely on: trim, split on a literal separator, decimal
 * printing of an int and Integer.parseInt.
 */
module JavaText {
  import opened Wrappers

  const IntMin: int := -0x8000_0000
  const IntMax: int := 0x7fff_ffff

  /** A value of Java's 32-bit int. */
  type Int32 = x: int | IntMin <= x <= IntMax

  // ---------------------------------------------------------------- trim

  /** String.trim drops every leading and trailing character up to and including the space. */
  predicate IsBlank(c: char) { c <= ' ' }

  function TrimStart(s: string): (t: string)
    ensures |t| <= |s| && t == s[|s| - |t|..]
    ensures forall i :: 0 <= i < |s| - |t| ==> IsBlank(s[i])
    ensures |t| > 0 ==> !IsBlank(t[0])
  {
    if |s| > 0 && IsBlank(s[0]) then TrimStart(s[1..]) else s
  }

  function TrimEnd(s: string): (t: string)
    ensures |t| <= |s| && t == s[..|t|]
    ensures forall i :: |t| <= i < |s| ==> IsBlank(s[i])
    ensures |t| > 0 ==> !IsBlank(t[|t| - 1])
  {
    if |s| > 0 && IsBlank(s[|s| - 1]) then TrimEnd(s[..|s| - 1]) else s
  }

  /** String.trim: the longest infix without blank characters at either end. */
  function Trim(s: string): (t: string)
    ensures |t| <= |s|
    ensures |t| > 0 ==> !IsBlank(t[0]) && !IsBlank(t[|t| - 1])
    ensures |s| > 0 && !IsBlank(s[0]) && !IsBlank(s[|s| - 1]) ==> t == s
  {
    TrimEnd(TrimStart(s))
  }

  /** A space before or after a text without blank ends is trimmed away again. */
  lemma TrimPadded(s: string)
    requires |s| > 0 && !IsBlank(s[0]) && !IsBlank(s[|s| - 1])
    ensures Trim(" " + s) == s && Trim(s + " ") == s
  {
    assert (" " + s)[1..] == s;
    assert TrimStart(" " + s) == TrimStart(s) == s;
    assert TrimStart(s + " ") == s + " ";
    assert (s + " ")[..|s|] == s;
    assert TrimEnd(s + " ") == TrimEnd(s) == s;
  }

  // ---------------------------------------------------------------- split

  /** sep occurs in s starting at position j. */
  predicate MatchAt(s: string, sep: string, j: int)
  {
    0 <= j && j + |sep| <= |s| && s[j..j + |sep|] == sep
  }

  lemma MatchAtTail(s: string, sep: string, j: int)
    requires |s| > 0 && 1 <= j
    ensures MatchAt(s, sep, j) == MatchAt(s[1..], sep, j - 1)
  {
    if j + |sep| <= |s| {
      var here, there := s[j..j + |sep|], s[1..][j - 1..j - 1 + |sep|];
      forall k | 0 <= k < |sep| ensures here[k] == there[k] {
        assert here[k] == s[j + k] && there[k] == s[1..][j - 1 + k];
      }
      assert here == there;
    }
  }

  /** The first position at which sep occurs in s, scanning from the left. */
  function IndexOf(s: string, sep: string): (r: Option<nat>)
    requires |sep| > 0
    ensures r.Some? ==> MatchAt(s, sep, r.value)
    ensures r.Some? ==> forall j :: 0 <= j < r.value ==> !MatchAt(s, sep, j)
    ensures r.None? ==> forall j :: 0 <= j ==> !MatchAt(s, sep, j)
    decreases |s|
  {
    if |s| < |sep| then None
    else if s[..|sep|] == sep then Some(0)
    else
      var r := IndexOf(s[1..], sep);
      assert forall j :: 1 <= j ==> MatchAt(s, sep, j) == MatchAt(s[1..], sep, j - 1) by {
        forall j | 1 <= j ensures MatchAt(s, sep, j) == MatchAt(s[1..], sep, j - 1) {
          MatchAtTail(s, sep, j);
        }
      }
      match r
      case None => None
      case Some(i) => Some(i + 1)
  }

  /** Every piece between successive leftmost matches of sep, trailing empty pieces included. */
  function RawSplit(s: string, sep: string): (parts: seq<string>)
    requires |sep| > 0
    ensures |parts| >= 1
    decreases |s|
  {
    match IndexOf(s, sep)
      case None => [s]
      case Some(i) => [s[..i]] + RawSplit(s[i + |sep|..], sep)
  }

  function DropTrailingEmpty(parts: seq<string>): (r: seq<string>)
    ensures |r| <= |parts| && r == parts[..|r|]
    ensures |r| > 0 ==> r[|r| - 1] != ""
    ensures forall i :: |r| <= i < |parts| ==> parts[i] == ""
  {
    if |parts| > 0 && parts[|parts| - 1] == "" then DropTrailingEmpty(parts[..|parts| - 1]) else parts
  }

  /**
   * String.split with a separator that holds no regular-expression
   * metacharacter: when sep does not occur the answer is the whole string,
   * otherwise the pieces without the trailing empty ones.
   */
  function Split(s: string, sep: string): (parts: seq<string>)
    requires |sep| > 0
    ensures IndexOf(s, sep).None? ==> parts == [s]
    ensures IndexOf(s, sep).Some? ==> parts == DropTrailingEmpty(RawSplit(s, sep))
  {
    if IndexOf(s, sep).None? then [s] else DropTrailingEmpty(RawSplit(s, sep))
  }

  /** The pieces joined with sep between each two. */
  function Join(parts: seq<string>, sep: string): string
  {
    if |parts| == 0 then ""
    else if |parts| == 1 then parts[0]
    else parts[0] + sep + Join(parts[1..], sep)
  }

  /** No piece holds the separator's first character, so no match can start inside a piece. */
  ghost predicate Separable(parts: seq<string>, sep: string)
    requires |sep| > 0
  {
    forall i :: 0 <= i < |parts| ==> sep[0] !in parts[i]
  }

  lemma {:induction false} IndexOfAbsent(s: string, sep: string)
    requires |sep| > 0 && sep[0] !in s
    ensures IndexOf(s, sep).None?
  {
    forall j | 0 <= j
      ensures !MatchAt(s, sep, j)
    {
      if j + |sep| <= |s| {
        assert s[j..j + |sep|][0] == s[j];
      }
    }
  }

  lemma {:induction false} IndexOfAfterPiece(piece: string, sep: string, rest: string)
    requires |sep| > 0 && sep[0] !in piece
    ensures IndexOf(piece + sep + rest, sep) == Some(|piece|)
  {
    var s := piece + sep + rest;
    assert MatchAt(s, sep, |piece|) by {
      assert s[|piece|..|piece| + |sep|] == sep;
    }
    forall j | 0 <= j < |piece|
      ensures !MatchAt(s, sep, j)
    {
      if j + |sep| <= |s| {
        assert s[j..j + |sep|][0] == piece[j];
      }
    }
  }

  lemma RawSplitAfterPiece(piece: string, sep: string, rest: string)
    requires |sep| > 0 && sep[0] !in piece
    ensures RawSplit(piece + sep + rest, sep) == [piece] + RawSplit(rest, sep)
  {
    var s := piece + sep + rest;
    IndexOfAfterPiece(piece, sep, rest);
    assert s[..|piece|] == piece;
    assert s[|piece| + |sep|..] == rest;
  }

  /** The pieces after the first are separable too. */
  lemma SeparableTail(parts: seq<string>, sep: string)
    requires |sep| > 0 && |parts| > 0 && Separable(parts, sep)
    ensures Separable(parts[1..], sep)
  {
    forall i | 0 <= i < |parts| - 1 ensures sep[0] !in parts[1..][i] {
      assert parts[1..][i] == parts[i + 1];
    }
  }

  /** Splitting joined pieces gives the pieces back, trailing empty piece included. */
  lemma {:induction false} RawSplitJoin(parts: seq<string>, sep: string)
    requires |sep| > 0 && |parts| > 0 && Separable(parts, sep)
    ensures RawSplit(Join(parts, sep), sep) == parts
    decreases |parts|
  {
    if |parts| == 1 {
      IndexOfAbsent(parts[0], sep);
    } else {
      var head, tail := parts[0], parts[1..];
      assert Join(parts, sep) == head + sep + Join(tail, sep);
      RawSplitAfterPiece(head, sep, Join(tail, sep));
      SeparableTail(parts, sep);
      RawSplitJoin(tail, sep);
      assert parts == [head] + tail;
    }
  }

  /** Split undoes Join when the last piece is not empty (Java drops trailing empty pieces). */
  lemma SplitJoin(parts: seq<string>, sep: string)
    requires |sep| > 0 && |parts| > 0 && Separable(parts, sep)
    requires parts[|parts| - 1] != ""
    ensures Split(Join(parts, sep), sep) == parts
  {
    RawSplitJoin(parts, sep);
    if |parts| == 1 {
      IndexOfAbsent(parts[0], sep);
    } else {
      IndexOfAfterPiece(parts[0], sep, Join(parts[1..], sep));
    }
  }

  /** Text where every line is terminated by a newline splits back into its lines. */
  lemma SplitTerminatedLines(lines: seq<string>, sep: string)
    requires |sep| > 0 && |lines| > 0 && Separable(lines, sep)
    requires lines[|lines| - 1] != ""
    ensures Split(Join(lines + [""], sep), sep) == lines
  {
    var parts := lines + [""];
    assert Separable(parts, sep);
    RawSplitJoin(parts, sep);
    IndexOfAfterPiece(parts[0], sep, Join(parts[1..], sep));
    assert parts[..|parts| - 1] == lines;
  }

  // ---------------------------------------------------------------- decimal numbers

  predicate IsDigit(c: char) { '0' as int <= c as int <= '9' as int }

  predicate AllDigits(s: string) { forall i :: 0 <= i < |s| ==> IsDigit(s[i]) }

  function DigitChar(d: nat): (c: char)
    requires d < 10
    ensures IsDigit(c) && c as int - '0' as int == d
  {
    (d + '0' as int) as char
  }

  /** The value of a non-empty run of decimal digits, most significant first. */
  function DigitsValue(s: string): (v: nat)
    requires AllDigits(s)
  {
    if |s| == 0 then 0 else DigitsValue(s[..|s| - 1]) * 10 + (s[|s| - 1] as int - '0' as int)
  }

  /** The decimal digits of n without leading zeros. */
  function NatToString(n: nat): (s: string)
    ensures |s| > 0 && AllDigits(s)
    ensures |s| > 1 ==> s[0] != '0'
  {
    if n < 10 then [DigitChar(n)] else NatToString(n / 10) + [DigitChar(n % 10)]
  }

  lemma {:induction false} DigitsValueOfNatToString(n: nat)
    ensures DigitsValue(NatToString(n)) == n
  {
    if n >= 10 {
      var s := NatToString(n);
      assert s[..|s| - 1] == NatToString(n / 10);
      DigitsValueOfNatToString(n / 10);
    }
  }

  /** String.valueOf(int). */
  function IntToString(n: int): (s: string)
    ensures |s| > 0 && s[0] != '+' && (s[0] == '-' <==> n < 0)
  {
    if n < 0 then "-" + NatToString(-n) else NatToString(n)
  }

  /**
   * Integer.parseInt in base 10: an optional sign followed by at least one
   * digit, with a value inside the int range; anything else is a
   * NumberFormatException, modelled as None.
   */
  function ParseInt(s: string): (r: Option<Int32>)
    ensures r.Some? ==> |s| > 0
    ensures r.Some? && s[0] != '-' && s[0] != '+' ==> AllDigits(s)
    ensures (exists i :: 0 < i < |s| && !IsDigit(s[i])) ==> r.None?
    ensures |s| > 0 && AllDigits(s) ==> (r.Some? <==> DigitsValue(s) <= IntMax)
    ensures r.Some? && AllDigits(s) ==> r.value == DigitsValue(s)
  {
    if |s| == 0 then None
    else
      var negative := s[0] == '-';
      var digits := if s[0] == '-' || s[0] == '+' then s[1..] else s;
      if |digits| == 0 || !AllDigits(digits) then None
      else
        var d: int := DigitsValue(digits);
        var v := if negative then -d else d;
        if IntMin <= v <= IntMax then Some(v) else None
  }

  /** Integer.parseInt reads back what String.valueOf printed. */
  lemma ParseIntToString(n: Int32)
    ensures ParseInt(IntToString(n)) == Some(n)
  {
    var s := IntToString(n);
    if n < 0 {
      var k: nat := -(n as int);
      assert s[1..] == NatToString(k);
      DigitsValueOfNatToString(k);
    } else {
      DigitsValueOfNatToString(n);
    }
  }

  /** parseInt rejects the empty text and a lone sign. */
  lemma ParseIntRejectsEmpty()
    ensures ParseInt("") == None && ParseInt("-") == None && ParseInt("+") == None
  {
  }

  // ---------------------------------------------------------------- arrays as text

  function IntsToStrings(values: seq<int>): (texts: seq<string>)
    ensures |texts| == |values|
    ensures forall i :: 0 <= i < |values| ==> texts[i] == IntToString(values[i])
  {
    if |values| == 0 then [] else IntsToStrings(values[..|values| - 1]) + [IntToString(values[|values| - 1])]
  }

  /** Arrays.toString of an array of numbers: "[a, b, c]". */
  function ArrayToString(values: seq<int>): (s: string)
    ensures |s| >= 2 && s[0] == '[' && s[|s| - 1] == ']'
  {
    "[" + Join(IntsToStrings(values), ", ") + "]"
  }
}
