// The few .NET string facilities the library relies on: Char.IsWhiteSpace,
// String.Trim and IsNullOrWhiteSpace, ordinal case-insensitive equality,
// Int32.ToString, character replacement and Path.Combine.

module Text {
  import opened Wrappers

  /** Environment.NewLine (Unix). */
  const NewLine: string := "\n"

  /** Char.IsWhiteSpace, restricted to the ASCII and Latin-1 white-space characters. */
  predicate IsWhiteSpace(c: char)
  {
    c == ' ' || c == '\t' || c == '\n' || c == '\U{000B}' || c == '\U{000C}' || c == '\r'
    || c == '\U{0085}' || c == '\U{00A0}'
  }

  predicate AllWhiteSpace(s: string)
  {
    forall k :: 0 <= k < |s| ==> IsWhiteSpace(s[k])
  }

  /** String.IsNullOrWhiteSpace; `None` stands for a null reference. */
  predicate IsNullOrWhiteSpace(s: Option<string>)
  {
    s.None? || AllWhiteSpace(s.value)
  }

  /** Length of the white-space prefix of `s`. */
  function LeadingWhiteSpace(s: string): (n: nat)
    ensures n <= |s|
    ensures forall k :: 0 <= k < n ==> IsWhiteSpace(s[k])
    ensures n < |s| ==> !IsWhiteSpace(s[n])
  {
    if s == [] || !IsWhiteSpace(s[0]) then 0 else 1 + LeadingWhiteSpace(s[1..])
  }

  /** Length of the white-space suffix of `s`. */
  function TrailingWhiteSpace(s: string): (n: nat)
    ensures n <= |s|
    ensures forall k :: |s| - n <= k < |s| ==> IsWhiteSpace(s[k])
    ensures n < |s| ==> !IsWhiteSpace(s[|s| - 1 - n])
  {
    if s == [] || !IsWhiteSpace(s[|s| - 1]) then 0 else 1 + TrailingWhiteSpace(s[..|s| - 1])
  }

  /** String.Trim: `s` without its leading and trailing white space. */
  function Trim(s: string): (r: string)
    ensures LeadingWhiteSpace(s) + |r| <= |s|
    ensures r == s[LeadingWhiteSpace(s)..LeadingWhiteSpace(s) + |r|]
    ensures AllWhiteSpace(s[..LeadingWhiteSpace(s)]) && AllWhiteSpace(s[LeadingWhiteSpace(s) + |r|..])
    ensures r != [] ==> !IsWhiteSpace(r[0]) && !IsWhiteSpace(r[|r| - 1])
    ensures r == [] <==> AllWhiteSpace(s)
  {
    var a := LeadingWhiteSpace(s);
    var rest := s[a..];
    var r := rest[..|rest| - TrailingWhiteSpace(rest)];
    assert r != [] ==> r[|r| - 1] == rest[|rest| - 1 - TrailingWhiteSpace(rest)];
    assert s[a + |r|..] == rest[|r|..];
    assert AllWhiteSpace(s) ==> a == |s|;
    r
  }

  lemma TrimIdempotent(s: string)
    ensures Trim(Trim(s)) == Trim(s)
  {
    var t := Trim(s);
    if t != [] {
      assert LeadingWhiteSpace(t) == 0;
      var u := Trim(t);
      assert AllWhiteSpace(t[|u|..]);
    }
  }

  /** The upper-case letter for an ASCII lower-case letter; every other character unchanged. */
  function FoldCase(c: char): char
  {
    if 'a' <= c <= 'z' then (c as int - 32) as char else c
  }

  /**
   * String.Compare(a, b, StringComparison.InvariantCultureIgnoreCase) == 0,
   * modelled as equality after ASCII case folding.
   */
  predicate EqualsIgnoreCase(a: string, b: string)
  {
    |a| == |b| && forall k :: 0 <= k < |a| ==> FoldCase(a[k]) == FoldCase(b[k])
  }

  function DigitChar(d: nat): (c: char)
    requires d < 10
    ensures '0' <= c <= '9'
  {
    ('0' as int + d) as char
  }

  predicate IsDigit(c: char)
  {
    '0' <= c <= '9'
  }

  /** Decimal text of a natural number, most significant digit first, no leading zeros. */
  function NatToString(n: nat): (s: string)
    ensures |s| >= 1
    ensures forall k :: 0 <= k < |s| ==> IsDigit(s[k])
    ensures |s| > 1 ==> s[0] != '0'
    decreases n
  {
    if n < 10 then [DigitChar(n)] else NatToString(n / 10) + [DigitChar(n % 10)]
  }

  /** Int32.ToString() with the invariant culture. */
  function IntToString(i: int): (s: string)
    ensures |s| >= 1
    ensures i < 0 ==> s == "-" + NatToString(-i)
    ensures i >= 0 ==> s == NatToString(i)
  {
    if i < 0 then "-" + NatToString(-i) else NatToString(i)
  }

  /** The number a run of decimal digits denotes. */
  function DigitsValue(s: string): nat
    requires forall k :: 0 <= k < |s| ==> IsDigit(s[k])
  {
    if s == [] then 0
    else
      assert IsDigit(s[|s| - 1]);
      DigitsValue(s[..|s| - 1]) * 10 + (s[|s| - 1] as int - '0' as int)
  }

  lemma {:induction false} DigitsValueOfNatToString(n: nat)
    ensures DigitsValue(NatToString(n)) == n
    decreases n
  {
    if n >= 10 {
      var s := NatToString(n);
      assert s[..|s| - 1] == NatToString(n / 10);
      DigitsValueOfNatToString(n / 10);
    }
  }

  /** Every character of `s` that is in `bad` replaced by `sub`. */
  function ReplaceAll(s: string, bad: set<char>, sub: char): (r: string)
  {
    seq(|s|, k requires 0 <= k < |s| => if s[k] in bad then sub else s[k])
  }

  /** String.Replace(char, char). */
  function ReplaceChar(s: string, from: char, to: char): (r: string)
  {
    seq(|s|, k requires 0 <= k < |s| => if s[k] == from then to else s[k])
  }

  /** After replacing with a character `sub` outside `bad`, no character of `bad` is left,
      only the offending characters changed, and a second pass changes nothing. */
  lemma ReplaceAllProperties(s: string, bad: set<char>, sub: char)
    requires sub !in bad
    ensures |ReplaceAll(s, bad, sub)| == |s|
    ensures forall k :: 0 <= k < |s| ==> ReplaceAll(s, bad, sub)[k] !in bad
    ensures forall k :: 0 <= k < |s| && s[k] !in bad ==> ReplaceAll(s, bad, sub)[k] == s[k]
    ensures ReplaceAll(ReplaceAll(s, bad, sub), bad, sub) == ReplaceAll(s, bad, sub)
  {
  }

  /** Two successive String.Replace(char, char) calls are one set-based replacement. */
  lemma ReplaceCharTwice(s: string, a: char, b: char, to: char)
    ensures ReplaceChar(ReplaceChar(s, a, to), b, to) == ReplaceAll(s, {a, b}, to)
  {
  }

  predicate IsSuffix(t: string, s: string)
  {
    |t| <= |s| && s[|s| - |t|..] == t
  }

  /**
   * Path.Combine(directory, name) on a Unix file system: an empty name gives
   * the directory alone and an empty directory the name alone; a rooted name
   * replaces the directory; otherwise one '/' separates the two unless the
   * directory already ends with one.
   */
  function PathCombine(directory: string, name: string): (r: string)
    ensures IsSuffix(name, r)
    ensures name == [] ==> r == directory
    ensures name != [] && (directory == [] || name[0] == '/') ==> r == name
    ensures name != [] && directory != [] && name[0] != '/' && directory[|directory| - 1] == '/' ==> r == directory + name
    ensures name != [] && directory != [] && name[0] != '/' && directory[|directory| - 1] != '/' ==> r == directory + "/" + name
  {
    if name == [] then directory
    else if directory == [] || name[0] == '/' then name
    else if directory[|directory| - 1] == '/' then directory + name
    else directory + "/" + name
  }

  /** The file text with one trailing newline taken off, if it ends with one. */
  function TrimNewLine(s: string): (r: string)
    ensures IsSuffix(NewLine, s) ==> r + NewLine == s
    ensures !IsSuffix(NewLine, s) ==> r == s
  {
    if IsSuffix(NewLine, s) then s[..|s| - |NewLine|] else s
  }

  lemma TrimNewLineWritten(s: string)
    ensures TrimNewLine(s + NewLine) == s
  {
    assert IsSuffix(NewLine, s + NewLine);
  }
}
