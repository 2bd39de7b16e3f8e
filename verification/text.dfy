/**
 * The few pieces of Python string handling the model relies on: decimal
 * digits, int() on a decimal literal, '{}'.format of an int, str.split with
 * one separator, str.strip(), str.lstrip(chars), and the `in` substring test.
 */
module Text {
  import opened Wrappers

  predicate IsDigit(c: char) { '0' <= c <= '9' }

  function DigitValue(c: char): (d: nat)
    requires IsDigit(c)
    ensures d < 10
  {
    c as int - '0' as int
  }

  function DigitChar(d: nat): (c: char)
    requires d < 10
    ensures IsDigit(c) && DigitValue(c) == d
  {
    ('0' as int + d) as char
  }

  predicate AllDigits(s: string) { forall i :: 0 <= i < |s| ==> IsDigit(s[i]) }

  /** The value of a decimal digit string, most significant digit first. */
  function DigitsValue(s: string): nat
    requires AllDigits(s)
  {
    if s == [] then 0 else 10 * DigitsValue(s[..|s| - 1]) + DigitValue(s[|s| - 1])
  }

  /** Python's str() of a non-negative int: the canonical decimal digits. */
  function NatToString(n: nat): (s: string)
    ensures |s| > 0 && AllDigits(s) && DigitsValue(s) == n
    ensures n > 0 ==> s[0] != '0'
  {
    if n < 10 then [DigitChar(n)]
    else
      var t := NatToString(n / 10);
      var s := t + [DigitChar(n % 10)];
      assert s[..|s| - 1] == t;
      s
  }

  /** Python's str() of an int. */
  function IntToString(i: int): (s: string)
    ensures |s| > 0
    ensures i >= 0 ==> AllDigits(s)
    ensures forall k :: 0 <= k < |s| ==> IsDigit(s[k]) || s[k] == '-'
  {
    if i < 0 then "-" + NatToString(-i) else NatToString(i)
  }

  /**
   * Python's int() on a string: an optional sign followed by one or more
   * decimal digits.
   */
  function ParseInt(s: string): (r: Option<int>)
    ensures r.Some? <==> (|s| > 0 && AllDigits(s)) || (|s| > 1 && (s[0] == '-' || s[0] == '+') && AllDigits(s[1..]))
    ensures |s| > 0 && AllDigits(s) ==> r == Some(DigitsValue(s))
    ensures |s| > 1 && s[0] == '+' && AllDigits(s[1..]) ==> r == Some(DigitsValue(s[1..]))
    ensures |s| > 1 && s[0] == '-' && AllDigits(s[1..]) ==> r == Some(-(DigitsValue(s[1..]) as int))
  {
    if |s| > 1 && (s[0] == '-' || s[0] == '+') && AllDigits(s[1..]) then
      var magnitude: int := DigitsValue(s[1..]);
      Some(if s[0] == '-' then -magnitude else magnitude)
    else if |s| > 0 && AllDigits(s) then
      Some(DigitsValue(s))
    else
      None
  }

  /** int() accepts a sign and leading zeros, and refuses other characters and a bare sign. */
  lemma ParseIntExamples()
    ensures ParseInt("+5") == Some(5)
    ensures ParseInt("-05") == Some(-5)
    ensures ParseInt("007") == Some(7)
    ensures ParseInt("x5") == None
    ensures ParseInt("-") == None
    ensures ParseInt("") == None
  {
    assert "-05"[1..] == "05" && "05"[..1] == "0";
    assert "007"[..2] == "00" && "00"[..1] == "0";
    assert "+5"[1..] == "5";
    assert !IsDigit("x5"[0]);
  }

  /** int() reads back exactly what str() writes. */
  lemma ParseIntOfIntToString(i: int)
    ensures ParseInt(IntToString(i)) == Some(i)
  {
    if i < 0 {
      var s := IntToString(i);
      assert s[1..] == NatToString(-i);
    }
  }

  /** The first index of c in s. */
  function IndexOf(s: string, c: char): (i: nat)
    requires c in s
    ensures i < |s| && s[i] == c && c !in s[..i]
  {
    if s[0] == c then 0
    else
      var j := IndexOf(s[1..], c);
      assert s[..j + 1] == [s[0]] + s[1..][..j];
      j + 1
  }

  /** Python's s.split(sep) for a one-character separator. */
  function Split(s: string, sep: char): (parts: seq<string>)
    ensures |parts| >= 1
    ensures forall k :: 0 <= k < |parts| ==> sep !in parts[k]
    decreases |s|
  {
    if sep !in s then [s]
    else
      var i := IndexOf(s, sep);
      [s[..i]] + Split(s[i + 1..], sep)
  }

  /** Python's sep.join(parts). */
  function Join(parts: seq<string>, sep: char): string
  {
    if parts == [] then ""
    else if |parts| == 1 then parts[0]
    else parts[0] + [sep] + Join(parts[1..], sep)
  }

  /** Joining the pieces of a split gives back the original string. */
  lemma {:induction false} JoinSplit(s: string, sep: char)
    ensures Join(Split(s, sep), sep) == s
    decreases |s|
  {
    if sep in s {
      var i := IndexOf(s, sep);
      var rest := s[i + 1..];
      var pieces := Split(rest, sep);
      assert Split(s, sep) == [s[..i]] + pieces;
      JoinCons(s[..i], pieces, sep);
      JoinSplit(rest, sep);
      assert s == s[..i] + [sep] + rest;
    }
  }

  /** Joining a piece in front of at least one more puts a separator after it. */
  lemma JoinCons(first: string, pieces: seq<string>, sep: char)
    requires |pieces| >= 1
    ensures Join([first] + pieces, sep) == first + [sep] + Join(pieces, sep)
  {
    assert ([first] + pieces)[1..] == pieces;
  }

  /** Splitting a join of separator-free pieces gives back the pieces. */
  lemma {:induction false} SplitJoin(parts: seq<string>, sep: char)
    requires |parts| >= 1
    requires forall k :: 0 <= k < |parts| ==> sep !in parts[k]
    ensures Split(Join(parts, sep), sep) == parts
  {
    if |parts| > 1 {
      var s := Join(parts, sep);
      var rest := parts[1..];
      SplitJoin(rest, sep);
      assert s == parts[0] + [sep] + Join(rest, sep);
      assert s[|parts[0]|] == sep;
      assert s[..|parts[0]|] == parts[0];
      assert IndexOf(s, sep) == |parts[0]|;
      assert s[|parts[0]| + 1..] == Join(rest, sep);
    }
  }

  /** The first piece of a split is whatever precedes the first separator. */
  lemma FirstPieceOfSplit(first: string, sep: char, rest: string)
    requires sep !in first
    ensures sep in first + [sep] + rest
    ensures Split(first + [sep] + rest, sep)[0] == first
  {
    var s := first + [sep] + rest;
    assert s[|first|] == sep;
    assert s[..|first|] == first;
    assert IndexOf(s, sep) == |first|;
  }

  /** The last piece of a split is whatever follows the last separator. */
  lemma LastPieceOfSplit(prefix: string, sep: char, last: string)
    requires sep !in last
    ensures var parts := Split(prefix + [sep] + last, sep); parts[|parts| - 1] == last
  {
    var pieces := Split(prefix, sep) + [last];
    forall k | 0 <= k < |pieces| ensures sep !in pieces[k] { }
    JoinSplit(prefix, sep);
    JoinAppend(Split(prefix, sep), sep, last);
    SplitJoin(pieces, sep);
  }

  lemma {:induction false} JoinAppend(parts: seq<string>, sep: char, last: string)
    requires |parts| >= 1
    ensures Join(parts + [last], sep) == Join(parts, sep) + [sep] + last
  {
    if |parts| > 1 {
      JoinAppend(parts[1..], sep, last);
      assert (parts + [last])[1..] == parts[1..] + [last];
    }
  }

  /** s[i..] starts with sub. */
  predicate OccursAt(s: string, sub: string, i: int)
  {
    0 <= i && i + |sub| <= |s| && s[i..i + |sub|] == sub
  }

  /** Python's `sub in s` on strings. */
  predicate Contains(s: string, sub: string)
  {
    exists i | 0 <= i <= |s| - |sub| :: OccursAt(s, sub, i)
  }

  /** The characters Python's str.strip() removes when they are ASCII. */
  predicate IsSpace(c: char)
  {
    c == ' ' || 9 <= c as int <= 13 || 28 <= c as int <= 31
  }

  /** Python's s.lstrip(chars): drop every leading character that belongs to chars. */
  function DropLeading(s: string, chars: set<char>): (r: string)
    ensures |r| <= |s| && r == s[|s| - |r|..]
    ensures forall i :: 0 <= i < |s| - |r| ==> s[i] in chars
    ensures r == [] || r[0] !in chars
  {
    if s != [] && s[0] in chars then
      var r := DropLeading(s[1..], chars);
      assert s[1..][|s| - 1 - |r|..] == s[|s| - |r|..];
      assert forall i :: 1 <= i < |s| - |r| ==> s[i] == s[1..][i - 1];
      r
    else s
  }

  /** Drop leading whitespace. */
  function StripLeft(s: string): (r: string)
    ensures |r| <= |s| && r == s[|s| - |r|..]
    ensures forall i :: 0 <= i < |s| - |r| ==> IsSpace(s[i])
    ensures r == [] || !IsSpace(r[0])
  {
    if s != [] && IsSpace(s[0]) then
      var r := StripLeft(s[1..]);
      assert s[1..][|s| - 1 - |r|..] == s[|s| - |r|..];
      assert forall i :: 1 <= i < |s| - |r| ==> s[i] == s[1..][i - 1];
      r
    else s
  }

  /** Drop trailing whitespace. */
  function StripRight(s: string): (r: string)
    ensures |r| <= |s| && r == s[..|r|]
    ensures forall i :: |r| <= i < |s| ==> IsSpace(s[i])
    ensures r == [] || !IsSpace(r[|r| - 1])
  {
    if s != [] && IsSpace(s[|s| - 1]) then
      var r := StripRight(s[..|s| - 1]);
      assert s[..|s| - 1][..|r|] == s[..|r|];
      assert forall i :: |r| <= i < |s| - 1 ==> s[i] == s[..|s| - 1][i];
      r
    else s
  }

  /** Python's s.strip(): the text between leading and trailing whitespace. */
  function Strip(s: string): (r: string)
    ensures r == [] || (!IsSpace(r[0]) && !IsSpace(r[|r| - 1]))
    ensures exists i :: OccursAt(s, r, i)
                        && (forall k :: 0 <= k < i ==> IsSpace(s[k]))
                        && (forall k :: i + |r| <= k < |s| ==> IsSpace(s[k]))
  {
    var l := StripLeft(s);
    var r := StripRight(l);
    var i := |s| - |l|;
    assert s[i..][..|r|] == r;
    assert OccursAt(s, r, i);
    assert forall k :: i + |r| <= k < |s| ==> s[k] == l[k - i];
    r
  }

  /** Text without surrounding whitespace is its own strip. */
  lemma StripTrimmed(s: string)
    requires s == [] || (!IsSpace(s[0]) && !IsSpace(s[|s| - 1]))
    ensures Strip(s) == s
  {
    assert StripLeft(s) == s;
  }

  /** The longest prefix of s made of decimal digits (a greedy \d*). */
  function LeadingDigits(s: string): (r: string)
    ensures |r| <= |s| && r == s[..|r|] && AllDigits(r)
    ensures |r| == |s| || !IsDigit(s[|r|])
  {
    if s != [] && IsDigit(s[0]) then
      var t := LeadingDigits(s[1..]);
      assert [s[0]] + t == s[..|t| + 1];
      [s[0]] + t
    else []
  }

  /** A digit run followed by a non-digit is exactly what LeadingDigits takes. */
  lemma {:induction false} LeadingDigitsOf(d: string, rest: string)
    requires AllDigits(d)
    requires rest == [] || !IsDigit(rest[0])
    ensures LeadingDigits(d + rest) == d
  {
    if d != [] {
      assert (d + rest)[1..] == d[1..] + rest;
      LeadingDigitsOf(d[1..], rest);
    } else {
      assert d + rest == rest;
    }
  }
}
