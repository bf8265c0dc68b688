// The text form of the JSONPath subset the library's paths use, read as
// Newtonsoft's JPath parser reads it: an optional leading `$`, member names
// after dots (or bare at the start), and bracketed lists of array indexes
// (`[0,2]`) or of quoted member names (`['a','b']`).

module JsonPathSyntax {
  import opened Wrappers
  import Text

  /** One selector of a child segment. */
  datatype Selector = Name(name: string) | Index(index: nat)

  /** A child segment: its selectors, applied in order to every input node. */
  type Segment = seq<Selector>

  type Path = seq<Segment>

  /** Int32.MaxValue: Convert.ToInt32 rejects larger indexes. */
  const MaxIndex: nat := 0x7FFF_FFFF

  function SkipSpaces(s: string): (r: string)
    ensures |r| <= |s| && r == s[|s| - |r|..]
    ensures r == [] || r[0] != ' '
  {
    if s != [] && s[0] == ' ' then SkipSpaces(s[1..]) else s
  }

  function DigitRunLength(s: string): (n: nat)
    ensures n <= |s|
    ensures forall k :: 0 <= k < n ==> Text.IsDigit(s[k])
    ensures n < |s| ==> !Text.IsDigit(s[n])
  {
    if s == [] || !Text.IsDigit(s[0]) then 0 else 1 + DigitRunLength(s[1..])
  }

  /** The escapes a quoted name may contain: \b \t \n \f \r and \\ \" \' \/. */
  function Unescape(c: char): Option<char>
  {
    if c == 'b' then Some('\U{0008}')
    else if c == 't' then Some('\t')
    else if c == 'n' then Some('\n')
    else if c == 'f' then Some('\U{000C}')
    else if c == 'r' then Some('\r')
    else if c == '\\' || c == '"' || c == '\'' || c == '/' then Some(c)
    else None
  }

  /** A quoted name read from just after its opening quote: the name and the text after the closing quote. */
  function ReadQuoted(s: string): (r: Option<(string, string)>)
    ensures r.Some? ==> |r.value.1| < |s|
    decreases |s|
  {
    if s == [] then None
    else if s[0] == '\\' && |s| > 1 then
      match Unescape(s[1])
      case None => None
      case Some(c) =>
        match ReadQuoted(s[2..])
        case None => None
        case Some((name, rest)) => Some(([c] + name, rest))
    else if s[0] == '\'' then Some(("", s[1..]))
    else
      match ReadQuoted(s[1..])
      case None => None
      case Some((name, rest)) => Some(([s[0]] + name, rest))
  }

  /** A selector put in front of the rest of a list read so far. */
  function Cons(sel: Selector, r: Option<(Segment, string)>): (c: Option<(Segment, string)>)
    ensures c.Some? <==> r.Some?
    ensures c.Some? ==> c.value == ([sel] + r.value.0, r.value.1)
  {
    if r.None? then None else Some(([sel] + r.value.0, r.value.1))
  }

  /** `'a', 'b']` read from just after the first quote: the names and the text after `]`. */
  function ParseNameList(s: string): (r: Option<(Segment, string)>)
    ensures r.Some? ==> |r.value.1| < |s| && r.value.0 != []
    decreases |s|, 1
  {
    match ReadQuoted(s)
    case None => None
    case Some((name, rest)) => NameListAfter(name, rest)
  }

  /**
   * The rest of a quoted-name list after the closing quote of `name`: `]`, or
   * `,` and another quoted name. JPath steps over the character after the
   * comma and its spaces without looking at it: in a well-formed list it is
   * the opening quote, but any other character is skipped just the same.
   */
  function NameListAfter(name: string, rest: string): (r: Option<(Segment, string)>)
    ensures r.Some? ==> |r.value.1| < |rest| && r.value.0 != []
    decreases |rest|, 0
  {
    var t := SkipSpaces(rest);
    if t == [] then None
    else if t[0] == ']' then Some(([Name(name)], t[1..]))
    else if t[0] == ',' then
      var u := SkipSpaces(t[1..]);
      if u == [] then None else Cons(Name(name), ParseNameList(u[1..]))
    else None
  }

  /** `0, 2]` read from its first digit: the indexes and the text after `]`. */
  function ParseIndexList(s: string): (r: Option<(Segment, string)>)
    ensures r.Some? ==> |r.value.1| < |s| && r.value.0 != []
    decreases |s|, 1
  {
    var n := DigitRunLength(s);
    if n == 0 then None
    else
      var index := Text.DigitsValue(s[..n]);
      if index > MaxIndex then None else IndexListAfter(index, s[n..])
  }

  /** The rest of an index list after `index`: `]`, or `,` and another index. */
  function IndexListAfter(index: nat, rest: string): (r: Option<(Segment, string)>)
    ensures r.Some? ==> |r.value.1| < |rest| && r.value.0 != []
    decreases |rest|, 0
  {
    var t := SkipSpaces(rest);
    if t == [] then None
    else if t[0] == ']' then Some(([Index(index)], t[1..]))
    else if t[0] == ',' then Cons(Index(index), ParseIndexList(SkipSpaces(t[1..])))
    else None
  }

  /** The inside of a bracket, read from just after `[`. */
  function ParseBracket(s: string): (r: Option<(Segment, string)>)
    ensures r.Some? ==> |r.value.1| < |s| && r.value.0 != []
  {
    var t := SkipSpaces(s);
    if t == [] then None
    else if t[0] == '\'' then ParseNameList(t[1..])
    else if Text.IsDigit(t[0]) then ParseIndexList(t)
    else None
  }

  /** The segment a pending dotted name stands for: none when empty; the wildcard `*` is outside the subset. */
  function NameSegment(name: string): Option<Path>
  {
    if name == [] then Some([]) else if name == "*" then None else Some([[Name(name)]])
  }

  function Prepend(p: Option<Path>, rest: Option<Path>): Option<Path>
  {
    if p.Some? && rest.Some? then Some(p.value + rest.value) else None
  }

  /**
   * The segments of a path, with the characters of a dotted name gathered so
   * far, whether the previous segment was a bracket (after which only `.`,
   * `[` or the end may follow) and whether a `.` came last. A space ends the
   * path: only spaces may follow it.
   */
  function ParseSegments(s: string, name: string, afterBracket: bool, afterDot: bool): Option<Path>
    decreases |s|
  {
    if s == [] then
      if name == [] && afterDot then None else NameSegment(name)
    else if s[0] == '.' then
      if |s| > 1 && s[1] == '.' then None
      else Prepend(NameSegment(name), ParseSegments(s[1..], "", false, true))
    else if s[0] == '[' then
      match ParseBracket(s[1..])
      case None => None
      case Some((segment, rest)) => Prepend(Prepend(NameSegment(name), Some([segment])), ParseSegments(rest, "", true, false))
    else if s[0] == ' ' then
      if SkipSpaces(s) == [] then NameSegment(name) else None
    else if s[0] in {']', '(', ')'} then None
    else if afterBracket then None
    else ParseSegments(s[1..], name + [s[0]], false, afterDot)
  }

  /**
   * JPath's entry. A text of spaces only, or exactly `$`, is the root. After
   * any leading spaces, a `$` before `.` or `[` is dropped together with the
   * spaces. Otherwise the leading spaces are the start of the first member
   * name. A `$` that ends the text after spaces makes JPath read past the end
   * of the text, an error.
   */
  function ParsePath(text: string): Option<Path>
  {
    var s := SkipSpaces(text);
    var lead := text[..|text| - |s|];
    if s == [] || text == "$" then Some([])
    else if s[0] == '$' && |s| == 1 then None
    else if s[0] == '$' && (s[1] == '.' || s[1] == '[') then ParseSegments(s[1..], "", false, false)
    else ParseSegments(s, lead, false, false)
  }

  // ---- printing --------------------------------------------------------

  /** Paths the printer can write: non-empty segments of one kind, indexes within Int32. */
  predicate PrintableSegment(seg: Segment)
  {
    seg != [] &&
    ((forall j :: 0 <= j < |seg| ==> seg[j].Name?) ||
     (forall j :: 0 <= j < |seg| ==> seg[j].Index? && seg[j].index <= MaxIndex))
  }

  predicate Printable(p: Path)
  {
    forall k :: 0 <= k < |p| ==> PrintableSegment(p[k])
  }

  /**
   * The printers write each part of a path in front of the text `rest` that
   * follows it, so that the text after a part is a suffix of the printed
   * text by construction.
   */

  /** A member name inside single quotes, from just after the opening quote: `'` and `\` escaped, then the closing quote and `rest`. */
  function QuotedText(name: string, rest: string): string
    decreases |name|
  {
    if name == [] then "'" + rest
    else (if name[0] == '\'' || name[0] == '\\' then ['\\', name[0]] else [name[0]]) + QuotedText(name[1..], rest)
  }

  /** A quoted-name list from just after its first quote, then `]` and `rest`: `a','b']rest`. */
  function NamesText(sels: Segment, rest: string): string
    requires forall j :: 0 <= j < |sels| ==> sels[j].Name?
    decreases |sels|
  {
    if sels == [] then "]" + rest
    else if |sels| == 1 then QuotedText(sels[0].name, "]" + rest)
    else QuotedText(sels[0].name, "," + ("'" + NamesText(sels[1..], rest)))
  }

  /** An index list, then `]` and `rest`: `0,2]rest`. */
  function IndexesText(sels: Segment, rest: string): string
    requires forall j :: 0 <= j < |sels| ==> sels[j].Index?
    decreases |sels|
  {
    if sels == [] then "]" + rest
    else if |sels| == 1 then Text.NatToString(sels[0].index) + ("]" + rest)
    else Text.NatToString(sels[0].index) + ("," + IndexesText(sels[1..], rest))
  }

  /** The inside of the bracket of one segment, from just after `[`, then `]` and `rest`. */
  function BracketText(seg: Segment, rest: string): string
    requires PrintableSegment(seg)
  {
    if seg[0].Name? then "'" + NamesText(seg, rest) else IndexesText(seg, rest)
  }

  lemma PrintableTail(p: Path)
    requires p != [] && Printable(p)
    ensures Printable(p[1..])
  {
    forall k | 0 <= k < |p[1..]| ensures p[1..][k] == p[k + 1] { }
  }

  function PrintSegments(p: Path): string
    requires Printable(p)
  {
    if p == [] then ""
    else
      PrintableTail(p);
      "[" + BracketText(p[0], PrintSegments(p[1..]))
  }

  /** The bracket-only text form: `$` followed by one bracket per segment. */
  function PrintPath(p: Path): string
    requires Printable(p)
  {
    "$" + PrintSegments(p)
  }

  // ---- the printer's output reads back as the path it printed -----------

  lemma {:induction false} ReadQuotedEscaped(name: string, rest: string)
    ensures ReadQuoted(QuotedText(name, rest)) == Some((name, rest))
    decreases |name|
  {
    var s := QuotedText(name, rest);
    if name == [] {
      assert s[1..] == rest;
    } else {
      ReadQuotedEscaped(name[1..], rest);
      var tail := QuotedText(name[1..], rest);
      if name[0] == '\'' || name[0] == '\\' {
        assert s == ['\\', name[0]] + tail;
        assert s[2..] == tail;
      } else {
        assert s == [name[0]] + tail;
        assert s[1..] == tail;
      }
      assert [name[0]] + name[1..] == name;
    }
  }

  lemma NameListLast(n: string, rest: string)
    ensures ParseNameList(QuotedText(n, "]" + rest)) == Some(([Name(n)], rest))
  {
    ReadQuotedEscaped(n, "]" + rest);
    assert ("]" + rest)[1..] == rest;
  }

  lemma NameListStep(n: string, w: string)
    ensures ParseNameList(QuotedText(n, "," + ("'" + w))) == Cons(Name(n), ParseNameList(w))
  {
    var t := "," + ("'" + w);
    ReadQuotedEscaped(n, t);
    assert t[1..] == "'" + w;
    assert ("'" + w)[1..] == w;
  }

  lemma {:induction false} NameListRoundTrip(sels: Segment, rest: string)
    requires sels != [] && forall j :: 0 <= j < |sels| ==> sels[j].Name?
    ensures ParseNameList(NamesText(sels, rest)) == Some((sels, rest))
    decreases |sels|
  {
    var n := sels[0].name;
    if |sels| == 1 {
      NameListLast(n, rest);
      assert sels == [Name(n)];
    } else {
      NameListStep(n, NamesText(sels[1..], rest));
      NameListRoundTrip(sels[1..], rest);
      assert sels == [Name(n)] + sels[1..];
    }
  }

  lemma {:induction false} DigitRunOfDigits(d: string, t: string)
    requires forall k :: 0 <= k < |d| ==> Text.IsDigit(d[k])
    requires t == [] || !Text.IsDigit(t[0])
    ensures DigitRunLength(d + t) == |d|
    decreases |d|
  {
    if d != [] {
      assert (d + t)[1..] == d[1..] + t;
      DigitRunOfDigits(d[1..], t);
    }
  }

  lemma IndexListHead(i: nat, t: string)
    requires i <= MaxIndex && (t == [] || !Text.IsDigit(t[0]))
    ensures ParseIndexList(Text.NatToString(i) + t) == IndexListAfter(i, t)
  {
    var d := Text.NatToString(i);
    var s := d + t;
    DigitRunOfDigits(d, t);
    assert s[..|d|] == d && s[|d|..] == t;
    Text.DigitsValueOfNatToString(i);
  }

  lemma IndexListAfterClose(i: nat, rest: string)
    ensures IndexListAfter(i, "]" + rest) == Some(([Index(i)], rest))
  {
  }

  lemma IndexListAfterComma(i: nat, w: string)
    requires w != [] && w[0] != ' '
    ensures IndexListAfter(i, "," + w) == Cons(Index(i), ParseIndexList(w))
  {
    assert ("," + w)[1..] == w;
  }

  lemma IndexesTextStartsWithDigit(sels: Segment, rest: string)
    requires sels != [] && forall j :: 0 <= j < |sels| ==> sels[j].Index?
    ensures Text.IsDigit(IndexesText(sels, rest)[0])
  {
    var d := Text.NatToString(sels[0].index);
    assert IndexesText(sels, rest)[0] == d[0];
  }

  lemma IndexListLast(i: nat, rest: string)
    requires i <= MaxIndex
    ensures ParseIndexList(Text.NatToString(i) + ("]" + rest)) == Some(([Index(i)], rest))
  {
    IndexListHead(i, "]" + rest);
    IndexListAfterClose(i, rest);
  }

  lemma IndexListStep(i: nat, w: string)
    requires i <= MaxIndex && w != [] && Text.IsDigit(w[0])
    ensures ParseIndexList(Text.NatToString(i) + ("," + w)) == Cons(Index(i), ParseIndexList(w))
  {
    IndexListHead(i, "," + w);
    IndexListAfterComma(i, w);
  }

  /** A printed index list of several indexes reads as its first index, then the printed rest. */
  lemma IndexesTextStep(sels: Segment, rest: string)
    requires |sels| > 1 && forall j :: 0 <= j < |sels| ==> sels[j].Index?
    requires sels[0].index <= MaxIndex
    ensures ParseIndexList(IndexesText(sels, rest)) == Cons(Index(sels[0].index), ParseIndexList(IndexesText(sels[1..], rest)))
  {
    IndexesTextStartsWithDigit(sels[1..], rest);
    IndexListStep(sels[0].index, IndexesText(sels[1..], rest));
  }

  lemma {:induction false} IndexListRoundTrip(sels: Segment, rest: string)
    requires sels != [] && forall j :: 0 <= j < |sels| ==> sels[j].Index? && sels[j].index <= MaxIndex
    ensures ParseIndexList(IndexesText(sels, rest)) == Some((sels, rest))
    decreases |sels|
  {
    var i := sels[0].index;
    if |sels| == 1 {
      IndexListLast(i, rest);
      assert sels == [Index(i)];
    } else {
      IndexesTextStep(sels, rest);
      IndexListRoundTrip(sels[1..], rest);
      assert sels == [Index(i)] + sels[1..];
    }
  }

  lemma BracketDispatch(x: string)
    requires x != [] && x[0] != ' '
    ensures ParseBracket(x) ==
      if x[0] == '\'' then ParseNameList(x[1..]) else if Text.IsDigit(x[0]) then ParseIndexList(x) else None
  {
  }

  lemma BracketRoundTrip(seg: Segment, rest: string)
    requires PrintableSegment(seg)
    ensures ParseBracket(BracketText(seg, rest)) == Some((seg, rest))
  {
    var x := BracketText(seg, rest);
    if seg[0].Name? {
      assert x[1..] == NamesText(seg, rest);
      BracketDispatch(x);
      NameListRoundTrip(seg, rest);
    } else {
      IndexesTextStartsWithDigit(seg, rest);
      BracketDispatch(x);
      IndexListRoundTrip(seg, rest);
    }
  }

  lemma SegmentsBracketStep(x: string, seg: Segment, more: string, afterBracket: bool)
    requires ParseBracket(x) == Some((seg, more))
    ensures ParseSegments("[" + x, "", afterBracket, false) == Prepend(Some([seg]), ParseSegments(more, "", true, false))
  {
    assert ("[" + x)[1..] == x;
    assert [] + [seg] == [seg];
  }

  lemma {:induction false} SegmentsRoundTrip(p: Path, afterBracket: bool)
    requires Printable(p)
    ensures ParseSegments(PrintSegments(p), "", afterBracket, false) == Some(p)
    decreases |p|
  {
    if p != [] {
      PrintableTail(p);
      var more := PrintSegments(p[1..]);
      BracketRoundTrip(p[0], more);
      SegmentsBracketStep(BracketText(p[0], more), p[0], more, afterBracket);
      SegmentsRoundTrip(p[1..], true);
      assert [p[0]] + p[1..] == p;
    }
  }

  /** Every printable path reads back as itself. */
  lemma PathRoundTrip(p: Path)
    requires Printable(p)
    ensures ParsePath(PrintPath(p)) == Some(p)
  {
    var s := PrintPath(p);
    assert SkipSpaces(s) == s;
    if p != [] {
      assert s[1] == '[';
      assert s[1..] == PrintSegments(p);
      SegmentsRoundTrip(p, false);
    }
  }

  // ---- dotted paths, as the library's users write them -----------------

  /** A character that may appear in a dotted member name. */
  predicate PlainChar(c: char)
  {
    c != '.' && c != '[' && c != ']' && c != '(' && c != ')' && c != ' '
  }

  predicate PlainName(name: string)
  {
    name != [] && name != "*" && forall k :: 0 <= k < |name| ==> PlainChar(name[k])
  }

  /** `a.b.c`: the names joined by dots. */
  function DottedText(names: seq<string>): string
    requires names != []
  {
    names[0] + (if |names| == 1 then "" else "." + DottedText(names[1..]))
  }

  /** The path a dotted text stands for: one single-name segment per name. */
  function DottedPath(names: seq<string>): (p: Path)
    ensures |p| == |names| && forall k :: 0 <= k < |p| ==> p[k] == [Name(names[k])]
  {
    seq(|names|, k requires 0 <= k < |names| => [Name(names[k])])
  }

  /** The characters of a plain name are gathered into the pending name. */
  lemma {:induction false} NameRun(x: string, t: string, name: string, afterDot: bool)
    requires forall k :: 0 <= k < |x| ==> PlainChar(x[k])
    ensures ParseSegments(x + t, name, false, afterDot) == ParseSegments(t, name + x, false, afterDot)
    decreases |x|
  {
    if x == [] {
      assert x + t == t && name + x == name;
    } else {
      assert (x + t)[0] == x[0] && (x + t)[1..] == x[1..] + t;
      NameRun(x[1..], t, name + [x[0]], afterDot);
      assert name + [x[0]] + x[1..] == name + x;
    }
  }

  predicate AllSpaces(sp: string)
  {
    forall k :: 0 <= k < |sp| ==> sp[k] == ' '
  }

  lemma {:induction false} SkipAllSpaces(sp: string)
    requires AllSpaces(sp)
    ensures SkipSpaces(sp) == []
    decreases |sp|
  {
    if sp != [] {
      SkipAllSpaces(sp[1..]);
    }
  }

  /** Trailing spaces end the path after the pending name. */
  lemma SpacesEndPath(sp: string, name: string, afterDot: bool)
    requires AllSpaces(sp) && name != []
    ensures ParseSegments(sp, name, false, afterDot) == NameSegment(name)
  {
    SkipAllSpaces(sp);
  }

  lemma {:induction false} DottedSegments(names: seq<string>, sp: string, afterDot: bool)
    requires names != [] && forall k :: 0 <= k < |names| ==> PlainName(names[k])
    requires AllSpaces(sp)
    ensures ParseSegments(DottedText(names) + sp, "", false, afterDot) == Some(DottedPath(names))
    decreases |names|
  {
    var n := names[0];
    var rest := if |names| == 1 then "" else "." + DottedText(names[1..]);
    assert DottedText(names) + sp == n + (rest + sp);
    NameRun(n, rest + sp, "", afterDot);
    assert "" + n == n;
    if |names| > 1 {
      var more := DottedText(names[1..]);
      assert more[0] == names[1][0];
      assert (rest + sp)[1..] == more + sp;
      DottedSegments(names[1..], sp, true);
      assert DottedPath(names) == [[Name(n)]] + DottedPath(names[1..]);
    } else {
      assert rest + sp == sp;
      SpacesEndPath(sp, n, afterDot);
      assert DottedPath(names) == [[Name(n)]];
    }
  }

  /** A dotted text, spaces after it or not, is read from its first character: it is neither the root nor `$.` or `$[`. */
  lemma DottedStart(names: seq<string>, sp: string)
    requires names != [] && forall k :: 0 <= k < |names| ==> PlainName(names[k])
    requires names[0] != "$"
    ensures var s := DottedText(names) + sp;
      s != [] && s != "$" && PlainChar(s[0]) && (s[0] == '$' ==> PlainChar(s[1]))
  {
    var n := names[0];
    assert PlainChar(n[0]);
    if n[0] == '$' {
      assert |n| > 1 && PlainChar(n[1]);
    }
  }

  /** `Address.Street`, and the same followed by spaces, reads as the path of its names. */
  lemma DottedRoundTrip(names: seq<string>, sp: string)
    requires names != [] && forall k :: 0 <= k < |names| ==> PlainName(names[k])
    requires names[0] != "$" && AllSpaces(sp)
    ensures ParsePath(DottedText(names) + sp) == Some(DottedPath(names))
  {
    var s := DottedText(names) + sp;
    DottedStart(names, sp);
    assert SkipSpaces(s) == s;
    DottedSegments(names, sp, false);
  }

  /** Spaces after a bracket end the path. */
  lemma SpacesAfterBracket(sp: string)
    requires sp != [] && AllSpaces(sp)
    ensures ParseSegments(sp, "", true, false) == Some([])
  {
    SkipAllSpaces(sp);
  }

  /** A text that opens with a bracket is read as segments from its first character. */
  lemma BracketStart(t: string)
    requires t != [] && t[0] == '['
    ensures ParsePath(t) == ParseSegments(t, "", false, false)
  {
    assert SkipSpaces(t) == t;
  }

  /** A single bracket, `[0]` or `['a']`, followed by spaces reads as its segment alone. */
  lemma BracketThenSpaces(seg: Segment, sp: string)
    requires PrintableSegment(seg) && sp != [] && AllSpaces(sp)
    ensures ParsePath("[" + BracketText(seg, sp)) == Some([seg])
  {
    var x := BracketText(seg, sp);
    BracketRoundTrip(seg, sp);
    SegmentsBracketStep(x, seg, sp, false);
    SpacesAfterBracket(sp);
    assert [seg] + [] == [seg];
    BracketStart("[" + x);
  }

  // ---- leading spaces, and the character after a comma -----------------

  lemma {:induction false} SkipLeadingSpaces(sp: string, t: string)
    requires AllSpaces(sp) && (t == [] || t[0] != ' ')
    ensures SkipSpaces(sp + t) == t
    decreases |sp|
  {
    if sp != [] {
      assert (sp + t)[1..] == sp[1..] + t;
      SkipLeadingSpaces(sp[1..], t);
    }
  }

  /** A text of spaces only is the root. */
  lemma SpacesOnlyRoot(sp: string)
    requires AllSpaces(sp)
    ensures ParsePath(sp) == Some([])
  {
    SkipAllSpaces(sp);
  }

  /** Leading spaces belong to the first member name: ` Name` is the member ` Name`, not `Name`. */
  lemma LeadingSpacesKept(sp: string, name: string)
    requires sp != [] && AllSpaces(sp) && PlainName(name) && name != "$"
    ensures ParsePath(sp + name) == Some([[Name(sp + name)]])
  {
    var text := sp + name;
    assert PlainChar(name[0]);
    SkipLeadingSpaces(sp, name);
    assert text[..|text| - |name|] == sp;
    if name[0] == '$' {
      assert |name| > 1 && PlainChar(name[1]);
    }
    NameRun(name, "", sp, false);
    assert name + "" == name;
  }

  /** Spaces then a final `$`: JPath reads the character after the `$`, past the end of the text. */
  lemma SpacedDollarRejected(sp: string)
    requires sp != [] && AllSpaces(sp)
    ensures ParsePath(sp + "$") == None
  {
    SkipLeadingSpaces(sp, "$");
  }

  /** Spaces before `$.` or `$[` are dropped with the `$`. */
  lemma SpacedRootDropped(sp: string, t: string)
    requires AllSpaces(sp) && t != [] && (t[0] == '.' || t[0] == '[')
    ensures ParsePath(sp + ("$" + t)) == ParsePath("$" + t)
  {
    var d := "$" + t;
    SkipLeadingSpaces(sp, d);
    assert SkipSpaces(d) == d;
    assert |sp + d| > 1 && |d| > 1;
    assert d[0] == '$' && d[1] == t[0] && d[1..] == t;
    assert ParsePath(d) == ParseSegments(t, "", false, false);
  }

  /** Spaces before a bracket are a member name of their own: ` ['a']` selects the member ` `, then `a` in it. */
  lemma SpacesBeforeBracket(sp: string, seg: Segment)
    requires sp != [] && AllSpaces(sp) && PrintableSegment(seg)
    ensures ParsePath(sp + ("[" + BracketText(seg, ""))) == Some([[Name(sp)], seg])
  {
    var x := BracketText(seg, "");
    var t := "[" + x;
    var text := sp + t;
    SkipLeadingSpaces(sp, t);
    assert text[..|text| - |t|] == sp;
    assert text != "$" && t[0] == '[';
    assert ParsePath(text) == ParseSegments(t, sp, false, false);
    BracketAfterName(x, seg, sp);
  }

  lemma BracketAfterName(x: string, seg: Segment, name: string)
    requires PrintableSegment(seg) && x == BracketText(seg, "") && name != [] && name != "*"
    ensures ParseSegments("[" + x, name, false, false) == Some([[Name(name)], seg])
  {
    BracketRoundTrip(seg, "");
    BracketAfterNameStep(x, seg, "", name);
    assert ParseSegments("", "", true, false) == Some([]);
    assert NameSegment(name) == Some([[Name(name)]]);
    assert [[Name(name)]] + [seg] + [] == [[Name(name)], seg];
  }

  lemma BracketAfterNameStep(x: string, seg: Segment, more: string, name: string)
    requires ParseBracket(x) == Some((seg, more))
    ensures ParseSegments("[" + x, name, false, false) ==
      Prepend(Prepend(NameSegment(name), Some([seg])), ParseSegments(more, "", true, false))
  {
    assert ("[" + x)[1..] == x;
  }

  /** After a comma and its spaces, the next character is stepped over whatever it is. */
  lemma NameListStepAny(n: string, c: char, w: string)
    requires c != ' '
    ensures ParseNameList(QuotedText(n, "," + ([c] + w))) == Cons(Name(n), ParseNameList(w))
  {
    var t := "," + ([c] + w);
    ReadQuotedEscaped(n, t);
    assert t[1..] == [c] + w;
    assert ([c] + w)[1..] == w;
  }

  /** `'a',xb']` reads as the names `a` and `b`: the `x` stands where the opening quote belongs. */
  lemma NameListSkipsOpener(n: string, m: string, c: char, rest: string)
    requires c != ' '
    ensures ParseNameList(QuotedText(n, "," + ([c] + QuotedText(m, "]" + rest)))) == Some(([Name(n), Name(m)], rest))
  {
    NameListLast(m, rest);
    SecondNameAfterAny(n, c, QuotedText(m, "]" + rest), m, rest);
  }

  lemma SecondNameAfterAny(n: string, c: char, w: string, m: string, rest: string)
    requires c != ' ' && ParseNameList(w) == Some(([Name(m)], rest))
    ensures ParseNameList(QuotedText(n, "," + ([c] + w))) == Some(([Name(n), Name(m)], rest))
  {
    NameListStepAny(n, c, w);
    assert [Name(n)] + [Name(m)] == [Name(n), Name(m)];
  }

  /** A name followed by a dot and nothing else is rejected. */
  lemma TrailingDotRejected(name: string, afterDot: bool)
    requires PlainName(name)
    ensures ParseSegments(name + ".", "", false, afterDot) == None
  {
    NameRun(name, ".", "", afterDot);
    assert "" + name == name;
  }

  /** The recursive-descent `..` is outside the subset: a name followed by `..` is rejected. */
  lemma ScanRejected(name: string, t: string, afterDot: bool)
    requires PlainName(name)
    ensures ParseSegments(name + ".." + t, "", false, afterDot) == None
  {
    assert name + ".." + t == name + (".." + t);
    NameRun(name, ".." + t, "", afterDot);
  }
}
