// What a comparison promises across calls: a forced refresh always passes
// and leaves the actual value as the snapshot; a failed comparison never
// touches the snapshot file but leaves the actual value beside it; a passing
// one only removes a stale mismatched-actual file; and what a refresh writes,
// the next plain comparison reads back as a match. The last fails for the
// engine as written when the filtered value is a string but the unfiltered
// one is not.

module EngineProperties {
  import opened Wrappers
  import opened Text
  import opened JsonValue
  import opened JsonPath
  import opened JsonPathSyntax
  import opened HostValues
  import opened OrdinalOrder
  import opened Comparers
  import opened Settings
  import opened PathFilter
  import opened Filtering
  import opened Engine
  import opened Messages
  import opened SnapshotValues

  /**
   * The JSON reader reads back what the serializer writes, followed by a
   * newline. The library's reader does not do this for a string that looks
   * like an ISO 8601 date: it reads it as a date token, so the read-back
   * lemmas below speak of snapshots without such strings.
   */
  ghost predicate ReadsWritten(parse: string -> Option<Value>)
  {
    forall v :: WellFormed(v) ==> parse(Serialize(v) + NewLine) == Some(v)
  }

  /** The JSON reader yields objects whose member names are distinct, as any JToken does. */
  ghost predicate ReadsWellFormed(parse: string -> Option<Value>)
  {
    forall s :: parse(s).Some? ==> WellFormed(parse(s).value)
  }

  // ---- one comparison ---------------------------------------------------------------

  /** Null settings are refused before anything is read or written. */
  lemma NullSettingsRefused(actual: Option<Host>, parse: string -> Option<Value>, hasWriter: bool, w: World)
    ensures CompareCorrected(actual, None, parse, hasWriter, w) == (Err(ArgumentNull("settings")), w)
    ensures CompareAsWritten(actual, None, parse, hasWriter, w) == (Err(ArgumentNull("settings")), w)
  {
  }

  /** The comparison's answer, when it gives one, is the verdict: a refresh passes, otherwise the comparer decides. */
  lemma ConcludeAnswersVerdict(c: Config, a: Value, pair: (Option<Value>, Option<Value>), hasWriter: bool, w: World)
    requires c.group.Some? ==> GroupPair(c.group.value, pair.0, pair.1)
    ensures var r := Conclude(c, a, pair, hasWriter, w);
      r.0.Ok? ==> (r.0.value <==> Refreshes(c, pair.0) || CompareWith(c.comparer, a, pair.0))
    ensures Conclude(c, a, pair, hasWriter, w).0.Err? <==>
      MismatchedActualFilePath(c).Err? || (Refreshes(c, pair.0) && SnapshotFilePath(c).Err?)
  {
  }

  /**
   * A refresh writes the snapshot file with the actual value and removes the
   * mismatched-actual file, unless the two paths coincide.
   */
  lemma RefreshWritesSnapshot(c: Config, a: Value, pair: (Option<Value>, Option<Value>), hasWriter: bool, w: World)
    requires c.group.Some? ==> GroupPair(c.group.value, pair.0, pair.1)
    requires Refreshes(c, pair.0) && Conclude(c, a, pair, hasWriter, w).0.Ok?
    ensures SnapshotFilePath(c).Ok? && MismatchedActualFilePath(c).Ok?
    ensures var p, m := SnapshotFilePath(c).value, MismatchedActualFilePath(c).value;
      var files := Conclude(c, a, pair, hasWriter, w).1.files;
      files == (w.files - {m})[p := FileContents(p == m, c.group, a, pair.0, pair.1)] &&
      Conclude(c, a, pair, hasWriter, w).0 == Ok(true)
  {
  }

  /**
   * A failed comparison leaves the snapshot file as it was and writes the
   * actual value to the mismatched-actual file.
   */
  lemma MismatchKeepsSnapshot(c: Config, a: Value, pair: (Option<Value>, Option<Value>), hasWriter: bool, w: World)
    requires c.group.Some? ==> GroupPair(c.group.value, pair.0, pair.1)
    requires Conclude(c, a, pair, hasWriter, w).0 == Ok(false)
    ensures !Refreshes(c, pair.0) && MismatchedActualFilePath(c).Ok?
    ensures var m := MismatchedActualFilePath(c).value;
      var files := Conclude(c, a, pair, hasWriter, w).1.files;
      files == w.files[m := FileContents(true, c.group, a, pair.0, pair.1)] &&
      (forall p :: p != m ==> (p in files <==> p in w.files) && (p in files ==> files[p] == w.files[p]))
  {
    var m := MismatchedActualFilePath(c).value;
    assert Conclude(c, a, pair, hasWriter, w).1.files == (w.files - {m})[m := FileContents(true, c.group, a, pair.0, pair.1)];
  }

  /** A passing comparison that refreshes nothing only deletes the mismatched-actual file: no message, no tip. */
  lemma MatchOnlyCleans(c: Config, a: Value, pair: (Option<Value>, Option<Value>), hasWriter: bool, w: World)
    requires c.group.Some? ==> GroupPair(c.group.value, pair.0, pair.1)
    requires !Refreshes(c, pair.0) && Conclude(c, a, pair, hasWriter, w).0 == Ok(true)
    ensures MismatchedActualFilePath(c).Ok?
    ensures Conclude(c, a, pair, hasWriter, w).1 == w.(files := w.files - {MismatchedActualFilePath(c).value})
    ensures CompareWith(c.comparer, a, pair.0)
  {
  }

  /** A forced refresh never reports a mismatch. */
  lemma ForcedRefreshPasses(actual: Option<Host>, c: Config, parse: string -> Option<Value>, hasWriter: bool, w: World)
    requires c.forceRefresh
    ensures CompareCorrected(actual, Some(c), parse, hasWriter, w).0 != Ok(false)
    ensures CompareAsWritten(actual, Some(c), parse, hasWriter, w).0 != Ok(false)
  {
  }

  /**
   * A filtering error is raised only once the snapshot has been read, with the
   * read decided as written: the read's own error and messages come first, and
   * both versions of CompareTo agree.
   */
  lemma FilterErrorAfterRead(actual: Option<Host>, c: Config, parse: string -> Option<Value>, hasWriter: bool, w: World)
    requires ActualValue(actual, c.includedPaths, c.excludedPaths).Err?
    ensures var read := GetSnapshotted(c, RawAsWritten(c, actual), parse, hasWriter, w);
      CompareCorrected(actual, Some(c), parse, hasWriter, w) ==
        (if read.0.Err? then Err(read.0.error) else Err(ActualValue(actual, c.includedPaths, c.excludedPaths).error), read.1)
    ensures CompareCorrected(actual, Some(c), parse, hasWriter, w) == CompareAsWritten(actual, Some(c), parse, hasWriter, w)
  {
  }

  /** Excluding `$` fails the filter of any non-null actual with the root-exclusion error. */
  lemma RootExcludedFilter(h: Host, included: seq<string>)
    ensures ActualValue(Some(h), included, ["$"]) == Err(RootExclusionError(WrapperGeneration, "$"))
  {
    var v := FromObject(h);
    assert ParsePath(["$"][0]) == Some([]);
    RootExclusionNamed(v, ["$"], 0, WrapperGeneration);
    assert FilterSelected(v, included, ["$"]) == Err(RootExclusionError(WrapperGeneration, "$"));
  }

  /** A missing snapshot file, with neither flag set, reads as no snapshot and gives the warning and the rerun tip. */
  lemma MissingSnapshotRead(c: Config, raw: bool, parse: string -> Option<Value>, hasWriter: bool, w: World)
    requires !c.createMissing && !c.forceRefresh
    requires SnapshotFilePath(c).Ok? && SnapshotFilePath(c).value !in w.files
    ensures GetSnapshotted(c, raw, parse, hasWriter, w) ==
      (Ok((None, None)), Noticed(w, hasWriter, MissingSnapshotWarning(SnapshotFilePath(c).value), RerunFlag, RerunTip))
  {
  }

  /** Excluding the root while the snapshot file is missing: the missing-file warning and tip are given, then the root-exclusion error. */
  lemma RootExclusionAfterWarning(h: Host, c: Config, parse: string -> Option<Value>, hasWriter: bool, w: World)
    requires c.excludedPaths == ["$"] && !c.createMissing && !c.forceRefresh
    requires SnapshotFilePath(c).Ok? && SnapshotFilePath(c).value !in w.files
    ensures CompareCorrected(Some(h), Some(c), parse, hasWriter, w) ==
      (Err(RootExclusionError(WrapperGeneration, "$")),
       Noticed(w, hasWriter, MissingSnapshotWarning(SnapshotFilePath(c).value), RerunFlag, RerunTip))
  {
    RootExcludedFilter(h, c.includedPaths);
    MissingSnapshotRead(c, RawAsWritten(c, Some(h)), parse, hasWriter, w);
    FilterErrorAfterRead(Some(h), c, parse, hasWriter, w);
  }

  // ---- reading back what was written ------------------------------------------------

  /** The snapshot read, and the file it came from, are well formed when the reader's output is. */
  lemma SnapshottedWellFormed(c: Config, raw: bool, parse: string -> Option<Value>, hasWriter: bool, w: World)
    requires ReadsWellFormed(parse)
    requires GetSnapshotted(c, raw, parse, hasWriter, w).0.Ok?
    ensures var pair := GetSnapshotted(c, raw, parse, hasWriter, w).0.value;
      pair.1.Some? ==> WellFormed(pair.1.value)
  {
    var p := SnapshotFilePath(c).value;
    if p in w.files && !raw {
      var contents := w.files[p];
      if parse(contents).Some? {
        assert WellFormed(parse(contents).value);
      }
    }
  }

  /** An ungrouped string is written bare, and read back as plain text. */
  lemma RawReadBack(c: Config, s: string, toMismatch: bool, parse: string -> Option<Value>, hasWriter: bool, w: World)
    requires c.group.None? && !c.forceRefresh
    requires SnapshotFilePath(c).Ok? && SnapshotFilePath(c).value in w.files
    requires w.files[SnapshotFilePath(c).value] == FileContents(toMismatch, None, Str(s), None, None)
    ensures GetSnapshotted(c, true, parse, hasWriter, w).0 == Ok((Some(Str(s)), Some(Str(s))))
  {
    TrimNewLineWritten(s);
  }

  /** Any other ungrouped value is written as JSON, and parsed back. */
  lemma JsonReadBack(c: Config, a: Value, toMismatch: bool, parse: string -> Option<Value>, hasWriter: bool, w: World)
    requires ReadsWritten(parse) && WellFormed(a) && !a.Str?
    requires c.group.None? && !c.forceRefresh
    requires SnapshotFilePath(c).Ok? && SnapshotFilePath(c).value in w.files
    requires w.files[SnapshotFilePath(c).value] == FileContents(toMismatch, None, a, None, None)
    ensures GetSnapshotted(c, false, parse, hasWriter, w).0 == Ok((Some(a), Some(a)))
  {
    assert parse(Serialize(a) + NewLine) == Some(a);
  }

  /** A grouped file is written as a JSON object; its group's member is read back. */
  lemma GroupReadBack(c: Config, a: Value, toMismatch: bool, pair: (Option<Value>, Option<Value>),
                      parse: string -> Option<Value>, hasWriter: bool, w: World)
    requires ReadsWritten(parse) && WellFormed(a) && (pair.1.Some? ==> WellFormed(pair.1.value))
    requires c.group.Some? && GroupPair(c.group.value, pair.0, pair.1) && !c.forceRefresh
    requires SnapshotFilePath(c).Ok? && SnapshotFilePath(c).value in w.files
    requires w.files[SnapshotFilePath(c).value] == FileContents(toMismatch, c.group, a, pair.0, pair.1)
    ensures GetSnapshotted(c, false, parse, hasWriter, w).0.Ok?
    ensures GetSnapshotted(c, false, parse, hasWriter, w).0.value.0 == Some(a)
  {
    var g := GroupFile(toMismatch, c.group.value, a, pair.0, pair.1);
    GroupFileWellFormed(toMismatch, c.group.value, a, pair.0, pair.1);
    GroupFileKeepsOtherGroups(toMismatch, c.group.value, a, pair.0, pair.1);
    assert parse(Serialize(g) + NewLine) == Some(g);
  }

  /** With the default comparer, a snapshot that holds the actual value passes and only the mismatched-actual file goes. */
  lemma SameValueMatches(c: Config, a: Value, pair: (Option<Value>, Option<Value>), hasWriter: bool, w: World)
    requires c.group.Some? ==> GroupPair(c.group.value, pair.0, pair.1)
    requires c.comparer.None? && !c.forceRefresh && WellFormed(a) && pair.0 == Some(a)
    requires MismatchedActualFilePath(c).Ok?
    ensures Conclude(c, a, pair, hasWriter, w) == (Ok(true), w.(files := w.files - {MismatchedActualFilePath(c).value}))
  {
    CompareReflexive(a);
  }

  // ---- a refresh, then a plain comparison -------------------------------------------

  /** A refresh of `c`, followed by a comparison of the same value with refreshing turned off. */
  function AfterRefresh(actual: Option<Host>, c: Config, parse: string -> Option<Value>, hasWriter: bool, w: World)
    : (Result<bool>, World)
  {
    var first := CompareCorrected(actual, Some(c), parse, hasWriter, w);
    CompareCorrected(actual, Some(c.(forceRefresh := false)), parse, hasWriter, first.1)
  }

  /** What a successful forced refresh leaves: the snapshot file holds the filtered actual value. */
  lemma RefreshLeaves(actual: Option<Host>, c: Config, parse: string -> Option<Value>, hasWriter: bool, w: World)
    returns (a: Value, pair: (Option<Value>, Option<Value>), before: World)
    requires ReadsWellFormed(parse) && c.forceRefresh
    requires CompareCorrected(actual, Some(c), parse, hasWriter, w).0.Ok?
    ensures ActualValue(actual, c.includedPaths, c.excludedPaths) == Ok(a)
    ensures (c.group.Some? ==> GroupPair(c.group.value, pair.0, pair.1)) && (pair.1.Some? ==> WellFormed(pair.1.value))
    ensures SnapshotFilePath(c).Ok? && MismatchedActualFilePath(c).Ok?
    ensures var p, m := SnapshotFilePath(c).value, MismatchedActualFilePath(c).value;
      CompareCorrected(actual, Some(c), parse, hasWriter, w).1.files ==
        (before.files - {m})[p := FileContents(p == m, c.group, a, pair.0, pair.1)]
  {
    a := ActualValue(actual, c.includedPaths, c.excludedPaths).value;
    var raw := c.group.None? && a.Str?;
    var read := GetSnapshotted(c, raw, parse, hasWriter, w);
    pair, before := read.0.value, read.1;
    SnapshottedWellFormed(c, raw, parse, hasWriter, w);
    RefreshWritesSnapshot(c, a, pair, hasWriter, before);
  }

  /** A plain comparison against a snapshot file that holds the filtered actual value passes, with the default comparer. */
  lemma WrittenMatches(actual: Option<Host>, c: Config, a: Value, toMismatch: bool, pair: (Option<Value>, Option<Value>),
                       parse: string -> Option<Value>, hasWriter: bool, w: World)
    requires ReadsWritten(parse) && !c.forceRefresh && c.comparer.None?
    requires ActualValue(actual, c.includedPaths, c.excludedPaths) == Ok(a) && WellFormed(a)
    requires (c.group.Some? ==> GroupPair(c.group.value, pair.0, pair.1)) && (pair.1.Some? ==> WellFormed(pair.1.value))
    requires SnapshotFilePath(c).Ok? && MismatchedActualFilePath(c).Ok? && SnapshotFilePath(c).value in w.files
    requires w.files[SnapshotFilePath(c).value] == FileContents(toMismatch, c.group, a, pair.0, pair.1)
    ensures CompareCorrected(actual, Some(c), parse, hasWriter, w).0 == Ok(true)
  {
    var raw := c.group.None? && a.Str?;
    if c.group.None? {
      if a.Str? {
        RawReadBack(c, a.s, toMismatch, parse, hasWriter, w);
      } else {
        JsonReadBack(c, a, toMismatch, parse, hasWriter, w);
      }
    } else {
      GroupReadBack(c, a, toMismatch, pair, parse, hasWriter, w);
    }
    var read := GetSnapshotted(c, raw, parse, hasWriter, w);
    SameValueMatches(c, a, read.0.value, hasWriter, read.1);
  }

  /**
   * What a forced refresh writes, the next comparison without refreshing
   * reads back and accepts, with the default comparer: for a string written
   * bare and read as text, for any other value or a grouped file written as
   * JSON and parsed.
   */
  lemma RefreshThenMatches(actual: Option<Host>, c: Config, parse: string -> Option<Value>, hasWriter: bool, w: World)
    requires ReadsWritten(parse) && ReadsWellFormed(parse)
    requires c.forceRefresh && c.comparer.None?
    requires var f := ActualValue(actual, c.includedPaths, c.excludedPaths); f.Ok? ==> WellFormed(f.value)
    requires CompareCorrected(actual, Some(c), parse, hasWriter, w).0.Ok?
    ensures AfterRefresh(actual, c, parse, hasWriter, w).0 == Ok(true)
  {
    var a, pair, before := RefreshLeaves(actual, c, parse, hasWriter, w);
    var c2 := c.(forceRefresh := false);
    assert SnapshotFilePath(c2) == SnapshotFilePath(c) && MismatchedActualFilePath(c2) == MismatchedActualFilePath(c);
    var p, m := SnapshotFilePath(c).value, MismatchedActualFilePath(c).value;
    WrittenMatches(actual, c2, a, p == m, pair, parse, hasWriter, CompareCorrected(actual, Some(c), parse, hasWriter, w).1);
  }

  // ---- the plain-text read decided before filtering -------------------------------------

  /** The dictionary of the example: a single string under `Name`. */
  lemma NameDictionary(s: string)
    ensures FromObject(HDict("Garden", [Named("Name", Some(HStr(s)))])) == Obj([Member("Name", Str(s))])
  {
    var es := [Named("Name", Some(HStr(s)))];
    assert FromObject(es[0].value.value) == Str(s);
    var v := FromObject(HDict("Garden", es));
    assert |v.members| == 1 && v.members[0] == Member("Name", Str(s));
  }

  /** The path `Name` selects the one member of that dictionary's value. */
  lemma NameTokens(s: string)
    ensures ParsePath("Name").Some?
    ensures SelectTokens(Obj([Member("Name", Str(s))]), "Name") == Ok([Node([Key("Name")], Str(s))])
  {
    PlainNamePath("Name");
    var v := Obj([Member("Name", Str(s))]);
    NameSelects(v, "Name");
    assert "Name" in Keys(v.members) && PropertyValue(v, "Name") == Some(Str(s));
  }

  /** That dictionary, filtered down to its `Name` member, is the bare string. */
  lemma NameSelectedString(s: string)
    ensures ActualValue(Some(HDict("Garden", [Named("Name", Some(HStr(s)))])), ["Name"], []) == Ok(Str(s))
  {
    NameDictionary(s);
    NameTokens(s);
    FilterOnePath(Obj([Member("Name", Str(s))]), "Name");
  }

  /** As written, the forced refresh of that dictionary passes and writes the bare string with a line break. */
  lemma AsWrittenFirstRun(s: string, c: Config, parse: string -> Option<Value>, hasWriter: bool, w: World)
    requires c.group.None? && c.includedPaths == ["Name"] && c.excludedPaths == [] && c.forceRefresh
    requires SnapshotFilePath(c).Ok? && MismatchedActualFilePath(c).Ok?
    ensures var first := CompareAsWritten(Some(HDict("Garden", [Named("Name", Some(HStr(s)))])), Some(c), parse, hasWriter, w);
      first.0 == Ok(true) && SnapshotFilePath(c).value in first.1.files &&
      first.1.files[SnapshotFilePath(c).value] == s + NewLine
  {
    NameSelectedString(s);
    var read := GetSnapshotted(c, false, parse, hasWriter, w);
    assert read.0 == Ok((None, None));
    var w1 := Conclude(c, Str(s), (None, None), hasWriter, read.1).1;
    assert w1.files[SnapshotFilePath(c).value] == s + NewLine;
  }

  /** As written, a dictionary is never read as plain text, so a bare string that is not JSON is an error. */
  lemma AsWrittenSecondRun(s: string, c: Config, parse: string -> Option<Value>, hasWriter: bool, w: World)
    requires parse(s + NewLine).None?
    requires c.group.None? && !c.forceRefresh
    requires SnapshotFilePath(c).Ok? && SnapshotFilePath(c).value in w.files
    requires w.files[SnapshotFilePath(c).value] == s + NewLine
    ensures CompareAsWritten(Some(HDict("Garden", [Named("Name", Some(HStr(s)))])), Some(c), parse, hasWriter, w).0 ==
      Err(UnparsableSnapshot(SnapshotFilePath(c).value))
  {
    var read := GetSnapshotted(c, false, parse, hasWriter, w);
    assert read.0 == Err(UnparsableSnapshot(SnapshotFilePath(c).value));
  }

  /**
   * As written, a refresh of an object filtered down to a string writes the
   * bare string, and the next comparison parses it as JSON: for any text
   * that is not JSON the comparison is an error instead of a match.
   */
  lemma AsWrittenRefreshThenFails(s: string, c: Config, parse: string -> Option<Value>, hasWriter: bool, w: World)
    requires parse(s + NewLine).None?
    requires c.group.None? && c.includedPaths == ["Name"] && c.excludedPaths == [] && c.forceRefresh
    requires SnapshotFilePath(c).Ok? && MismatchedActualFilePath(c).Ok?
    ensures var actual := Some(HDict("Garden", [Named("Name", Some(HStr(s)))]));
      var first := CompareAsWritten(actual, Some(c), parse, hasWriter, w);
      first.0 == Ok(true) &&
      CompareAsWritten(actual, Some(c.(forceRefresh := false)), parse, hasWriter, first.1).0 ==
        Err(UnparsableSnapshot(SnapshotFilePath(c).value))
  {
    var actual := Some(HDict("Garden", [Named("Name", Some(HStr(s)))]));
    AsWrittenFirstRun(s, c, parse, hasWriter, w);
    var c2 := c.(forceRefresh := false);
    assert SnapshotFilePath(c2) == SnapshotFilePath(c);
    AsWrittenSecondRun(s, c2, parse, hasWriter, CompareAsWritten(actual, Some(c), parse, hasWriter, w).1);
  }

  /** With the plain-text read decided from the filtered value, the same refresh is read back and matches. */
  lemma CorrectedRefreshThenMatches(s: string, c: Config, parse: string -> Option<Value>, hasWriter: bool, w: World)
    requires parse(s + NewLine).None?
    requires c.group.None? && c.includedPaths == ["Name"] && c.excludedPaths == [] && c.forceRefresh && c.comparer.None?
    requires SnapshotFilePath(c).Ok? && MismatchedActualFilePath(c).Ok?
    ensures var actual := Some(HDict("Garden", [Named("Name", Some(HStr(s)))]));
      CompareCorrected(actual, Some(c), parse, hasWriter, w).0 == Ok(true) &&
      AfterRefresh(actual, c, parse, hasWriter, w).0 == Ok(true)
  {
    NameSelectedString(s);
    var read := GetSnapshotted(c, true, parse, hasWriter, w);
    assert read.0 == Ok((None, None));
    RefreshWritesSnapshot(c, Str(s), (None, None), hasWriter, read.1);
    var w1 := Conclude(c, Str(s), (None, None), hasWriter, read.1).1;
    var c2 := c.(forceRefresh := false);
    assert SnapshotFilePath(c2) == SnapshotFilePath(c) && MismatchedActualFilePath(c2) == MismatchedActualFilePath(c);
    var p, m := SnapshotFilePath(c).value, MismatchedActualFilePath(c).value;
    RawReadBack(c2, s, p == m, parse, hasWriter, w1);
    SameValueMatches(c2, Str(s), (Some(Str(s)), Some(Str(s))), hasWriter, GetSnapshotted(c2, true, parse, hasWriter, w1).1);
  }
}
