// Properties of the middleware stages and of the default pipeline: the
// decision tables of the file-storage stages, the comparator's verdict, the
// JSON stage against the JToken code, and a whole run of the default chain.

module MiddlewareProperties {
  import opened Wrappers
  import opened Text
  import opened JsonValue
  import opened JsonPath
  import opened HostValues
  import opened PathFilter
  import opened SnapshotValues
  import opened Filtering
  import opened Messages
  import opened Engine
  import opened Context
  import opened MiddlewareOptions
  import opened Stages
  import opened Pipeline
  import opened Builders

  // ---- the reading stage ------------------------------------------------------

  /**
   * The reading stage, once the rest of the chain succeeded: Expected becomes
   * known exactly when the snapshot file exists or missing snapshots are
   * created or refreshed; it is the file's text (less one trailing newline)
   * when the file is used, and Actual otherwise; the warning is written
   * exactly when Expected stays unknown; files and Actual are untouched.
   */
  lemma ReadingDecisionTable(o: StorageOptions, hasWriter: bool, s: PipelineState, path: string)
    requires SnapshotFilePathOf(o, s.ctx.testName) == Ok(path)
    requires !s.ctx.expectedKnown
    ensures var r := ReadingAfter(o, true, hasWriter, s);
      r.0 == Ok(true) && r.1.world.files == s.world.files && r.1.ctx.actual == s.ctx.actual
      && (r.1.ctx.expectedKnown <==> path in s.world.files || o.createMissing || o.forceRefresh)
      && (path in s.world.files && !o.forceRefresh ==>
            ExpectedOf(r.1.ctx) == Ok(Some(HStr(TrimNewLine(s.world.files[path])))))
      && (!(path in s.world.files && !o.forceRefresh) && (o.createMissing || o.forceRefresh) ==>
            ExpectedOf(r.1.ctx) == Ok(s.ctx.actual))
      && (r.1.world.log != s.world.log <==> hasWriter && !r.1.ctx.expectedKnown)
  {
    var r := ReadingAfter(o, true, hasWriter, s);
    if !r.1.ctx.expectedKnown && hasWriter {
      assert |r.1.world.log| > |s.world.log|;
    }
  }

  /** A reading stage whose options name no snapshot directory fails as Path.Combine does, and changes nothing. */
  lemma ReadingWithoutDirectory(o: StorageOptions, hasWriter: bool, s: PipelineState)
    requires o.directory.None?
    ensures ReadingAfter(o, true, hasWriter, s) == (Err(ArgumentNull("path1")), s)
  {
  }

  // ---- the writing stage ------------------------------------------------------

  /**
   * The writing stage, for a snapshot file and a separate mismatch file: the
   * old mismatch file always goes; a failed chain, or a missing snapshot
   * nothing may create, stores Actual's text in the mismatch file; a forced
   * refresh, or a missing snapshot that may be created, stores it in the
   * snapshot file; otherwise nothing is written. The chain's answer is
   * passed on, and Actual that is not a string is refused before any write.
   */
  lemma WritingDecisionTable(o: StorageOptions, mismatchPath: Option<string> -> string, ok: bool, hasWriter: bool, s: PipelineState, path: string)
    requires SnapshotFilePathOf(o, s.ctx.testName) == Ok(path)
    requires mismatchPath(s.ctx.testName) != path
    ensures var m := mismatchPath(s.ctx.testName);
      var cleaned := s.world.files - {m};
      var toMismatch := !ok || (!o.forceRefresh && !o.createMissing && path !in s.world.files);
      var toSnapshot := !toMismatch && (o.forceRefresh || (o.createMissing && path !in s.world.files));
      var r := WritingAfter(o, mismatchPath, ok, hasWriter, s);
      r.1.ctx == s.ctx
      && ((toMismatch || toSnapshot) && !IsString(s.ctx.actual) ==> r == (Err(PayloadText(s.ctx.actual).error), s.(world := s.world.(files := cleaned))))
      && (toMismatch && IsString(s.ctx.actual) ==> r.0 == Ok(ok) && r.1.world.files == cleaned[m := s.ctx.actual.value.s])
      && (toSnapshot && IsString(s.ctx.actual) ==> r.0 == Ok(ok) && r.1.world.files == cleaned[path := s.ctx.actual.value.s])
      && (!toMismatch && !toSnapshot ==> r == (Ok(ok), s.(world := s.world.(files := cleaned))))
  {
    var m := mismatchPath(s.ctx.testName);
    assert path in s.world.files - {m} <==> path in s.world.files;
  }

  /** Without a forced refresh an existing snapshot file is never rewritten. */
  lemma ExistingSnapshotKept(o: StorageOptions, mismatchPath: Option<string> -> string, ok: bool, hasWriter: bool, s: PipelineState, path: string)
    requires SnapshotFilePathOf(o, s.ctx.testName) == Ok(path)
    requires mismatchPath(s.ctx.testName) != path
    requires !o.forceRefresh && path in s.world.files
    ensures var r := WritingAfter(o, mismatchPath, ok, hasWriter, s).1;
      path in r.world.files && r.world.files[path] == s.world.files[path]
  {
    WritingDecisionTable(o, mismatchPath, ok, hasWriter, s, path);
  }

  /**
   * A snapshot the writing stage refreshes from a string Actual is read back
   * by the reading stage as that string less one trailing newline, so the
   * next comparison of the same Actual passes exactly when the string does
   * not end with a newline.
   */
  lemma RefreshedSnapshotNextRun(o: StorageOptions, mismatchPath: Option<string> -> string, hasWriter: bool, s: PipelineState, path: string)
    requires SnapshotFilePathOf(o, s.ctx.testName) == Ok(path)
    requires mismatchPath(s.ctx.testName) != path
    requires o.forceRefresh && IsString(s.ctx.actual) && !s.ctx.expectedKnown
    ensures var written := WritingAfter(o, mismatchPath, true, hasWriter, s);
      var read := ReadingAfter(o.(forceRefresh := false), true, hasWriter, written.1);
      var text := s.ctx.actual.value.s;
      written.0 == Ok(true)
      && ExpectedOf(read.1.ctx) == Ok(Some(HStr(TrimNewLine(text))))
      && (ComparatorAfter(true, read.1).0 == Ok(true) <==> !IsSuffix(NewLine, text))
  {
    WritingDecisionTable(o, mismatchPath, true, hasWriter, s, path);
    var written := WritingAfter(o, mismatchPath, true, hasWriter, s);
    var text := s.ctx.actual.value.s;
    assert written.1.world.files[path] == text;
    var read := ReadingAfter(o.(forceRefresh := false), true, hasWriter, written.1);
    if IsSuffix(NewLine, text) {
      assert |TrimNewLine(text)| != |text|;
    } else {
      EqualsIgnoreCaseReflexive(text);
    }
  }

  // ---- the comparator ---------------------------------------------------------

  /** Every text equals itself when case is ignored. */
  lemma EqualsIgnoreCaseReflexive(a: string)
    ensures EqualsIgnoreCase(a, a)
  {
  }

  /**
   * The comparator's verdict: never true while Expected is unknown, true for
   * the same text, and the same with Actual and Expected exchanged.
   */
  lemma ComparatorVerdict(s: PipelineState)
    ensures !s.ctx.expectedKnown ==> ComparatorAfter(true, s).0 == Ok(false)
    ensures s.ctx.expectedKnown && TextOf(s.ctx.actual) == TextOf(s.ctx.expected) ==> ComparatorAfter(true, s).0 == Ok(true)
    ensures ComparatorAfter(true, s).0 ==
      ComparatorAfter(true, s.(ctx := s.ctx.(actual := s.ctx.expected, expected := s.ctx.actual))).0
    ensures ComparatorAfter(true, s).1 == s
  {
    EqualsIgnoreCaseReflexive(TextOf(s.ctx.actual));
    var a, b := TextOf(s.ctx.actual), TextOf(s.ctx.expected);
    assert EqualsIgnoreCase(a, b) <==> EqualsIgnoreCase(b, a);
  }

  /** A number and the string of its digits compare equal, and so do strings differing only in the case of ASCII letters. */
  lemma ComparatorExamples(s: PipelineState)
    ensures ComparatorAfter(true, s.(ctx := ContextState(None, Some(HStr("42")), Some(HInt(42)), true))).0 == Ok(true)
    ensures ComparatorAfter(true, s.(ctx := ContextState(None, Some(HStr("Value")), Some(HStr("vALUE")), true))).0 == Ok(true)
    ensures ComparatorAfter(true, s.(ctx := ContextState(None, None, None, true))).0 == Ok(true)
  {
    assert IntToString(42) == "42";
    var a, b := "Value", "vALUE";
    assert forall k :: 0 <= k < 5 ==> FoldCase(a[k]) == FoldCase(b[k]);
  }

  // ---- the JSON serializer ------------------------------------------------------

  /**
   * The JSON stage serializes as the JToken code filters: it fails exactly
   * when that code does, and otherwise writes its result, JSON null where
   * the select path matched nothing.
   */
  lemma SerializedLikeJTokenFilter(h: Host, o: JsonOptions)
    ensures SerializedValue(Some(h), o).Ok? <==> FilterJson(ToToken(h), o.selectPath, o.excludedPaths).Ok?
    ensures SerializedValue(Some(h), o).Ok? ==>
      SerializedValue(Some(h), o).value == Serialize(FilterJson(ToToken(h), o.selectPath, o.excludedPaths).value.GetOr(Null))
  {
    var v := ToToken(h);
    GenerationsAgree(Lookup(v), o.excludedPaths, |o.excludedPaths|, MiddlewareGeneration, JTokenGeneration);
  }

  /** With no paths configured the whole value is serialized, strings quoted as JSON strings. */
  lemma UnfilteredSerialization(h: Host, o: JsonOptions)
    requires o.selectPath.None? && o.excludedPaths == []
    ensures SerializedValue(Some(h), o) == Ok(Serialize(ToToken(h)))
    ensures h.HStr? ==> SerializedValue(Some(h), o) == Ok(Quote(h.s))
  {
    RemoveNoPaths(ToToken(h), MiddlewareGeneration);
  }

  /**
   * Before the rest of the chain: a string Actual is left alone unless
   * strings are serialized; any other Actual becomes its serialization, or
   * the stage fails with the context unchanged.
   */
  lemma JsonBeforeTable(o: JsonOptions, c: ContextState)
    ensures !o.serializeStrings && IsString(c.actual) ==> JsonBefore(o, c) == (None, c)
    ensures (o.serializeStrings || !IsString(c.actual)) && SerializedValue(c.actual, o).Ok? ==>
      JsonBefore(o, c) == (None, c.(actual := Some(HStr(SerializedValue(c.actual, o).value))))
    ensures SerializedValue(c.actual, o).Err? && (o.serializeStrings || !IsString(c.actual)) ==>
      JsonBefore(o, c) == (Some(SerializedValue(c.actual, o).error), c)
    ensures JsonBefore(o, c).1.expected == c.expected && JsonBefore(o, c).1.expectedKnown == c.expectedKnown
  {
  }

  // ---- the function call stage ----------------------------------------------------

  /** The callback runs only after the rest of the chain succeeded; a failure short-circuits it with nothing changed. */
  lemma FunctionCallShortCircuits(process: Option<Callback>, s: PipelineState)
    ensures FunctionAfter(process, false, s) == (Ok(false), s)
    ensures process.None? ==> FunctionAfter(process, true, s) == (Ok(true), s)
    ensures process.Some? ==> FunctionAfter(process, true, s).0 == Ok(process.value(s.ctx).result)
  {
  }

  // ---- the default pipeline ---------------------------------------------------------

  /**
   * The default chain (registered reading, JSON, comparator, writing), for an
   * Actual the JSON stage leaves alone: the reading stage's work runs first
   * after ProcessNext and the writing stage's last, each given the answer of
   * the one before, the first error ending the run.
   */
  lemma DefaultPipelineRun(o: StorageOptions, j: JsonOptions, mismatchPath: Option<string> -> string, hasWriter: bool, s: PipelineState)
    requires JsonBefore(j, s.ctx) == (None, s.ctx)
    ensures Run(Reversed(DefaultStages(o, j, mismatchPath)), hasWriter, s) ==
      var read := ReadingAfter(o, true, hasWriter, s);
      if read.0.Err? then read else
      var json := JsonAfter(j, read.0.value, read.1);
      if json.0.Err? then json else
      var compared := ComparatorAfter(json.0.value, json.1);
      if compared.0.Err? then compared else
      WritingAfter(o, mismatchPath, compared.0.value, hasWriter, compared.1)
  {
    var stages := DefaultStages(o, j, mismatchPath);
    var w, c, js, rd := stages[3], stages[2], stages[1], stages[0];
    assert Reversed(stages) == [w, c, js, rd];
    assert [w, c, js, rd][1..] == [c, js, rd];
    assert [c, js, rd][1..] == [js, rd];
    assert [js, rd][1..] == [rd];
    assert [rd][1..] == [];
    assert Run([], hasWriter, s) == (Ok(true), s);
    var read := Run([rd], hasWriter, s);
    assert read == After(rd, true, hasWriter, s);
    var json := Run([js, rd], hasWriter, s);
    assert json == if read.0.Err? then read else After(js, read.0.value, hasWriter, read.1);
    var compared := Run([c, js, rd], hasWriter, s);
    assert compared == if json.0.Err? then json else After(c, json.0.value, hasWriter, json.1);
  }

  /**
   * The default chain, run for a string Actual whose text is in its snapshot
   * file (with or without one trailing newline), with no refresh forced and
   * strings not serialized: it answers true, writes nothing, removes the
   * mismatch file, and leaves Expected the snapshot.
   */
  lemma DefaultPipelineMatches(o: StorageOptions, j: JsonOptions, mismatchPath: Option<string> -> string, hasWriter: bool,
                               s: PipelineState, path: string, text: string)
    requires SnapshotFilePathOf(o, s.ctx.testName) == Ok(path) && mismatchPath(s.ctx.testName) != path
    requires !o.forceRefresh && !j.serializeStrings && !s.ctx.expectedKnown
    requires s.ctx.actual == Some(HStr(text))
    requires path in s.world.files && TrimNewLine(s.world.files[path]) == text
    ensures var r := Run(Reversed(DefaultStages(o, j, mismatchPath)), hasWriter, s);
      r.0 == Ok(true) && r.1.world == s.world.(files := s.world.files - {mismatchPath(s.ctx.testName)})
      && ExpectedOf(r.1.ctx) == Ok(Some(HStr(text)))
  {
    DefaultPipelineRun(o, j, mismatchPath, hasWriter, s);
    ReadingDecisionTable(o, hasWriter, s, path);
    var read := ReadingAfter(o, true, hasWriter, s);
    assert read.1 == s.(ctx := WithExpected(s.ctx, Some(HStr(text))));
    EqualsIgnoreCaseReflexive(text);
    WritingDecisionTable(o, mismatchPath, true, hasWriter, read.1, path);
  }

  /**
   * The default chain for a string Actual whose snapshot holds a different
   * text: it answers false and stores Actual in the mismatch file.
   */
  lemma DefaultPipelineMismatch(o: StorageOptions, j: JsonOptions, mismatchPath: Option<string> -> string, hasWriter: bool,
                                s: PipelineState, path: string, text: string)
    requires SnapshotFilePathOf(o, s.ctx.testName) == Ok(path) && mismatchPath(s.ctx.testName) != path
    requires !o.forceRefresh && !j.serializeStrings && !s.ctx.expectedKnown
    requires s.ctx.actual == Some(HStr(text))
    requires path in s.world.files && !EqualsIgnoreCase(text, TrimNewLine(s.world.files[path]))
    ensures var r := Run(Reversed(DefaultStages(o, j, mismatchPath)), hasWriter, s);
      r.0 == Ok(false) && r.1.world.files == (s.world.files - {mismatchPath(s.ctx.testName)})[mismatchPath(s.ctx.testName) := text]
  {
    DefaultPipelineRun(o, j, mismatchPath, hasWriter, s);
    ReadingDecisionTable(o, hasWriter, s, path);
    var read := ReadingAfter(o, true, hasWriter, s);
    assert read.1 == s.(ctx := WithExpected(s.ctx, Some(HStr(TrimNewLine(s.world.files[path])))));
    WritingDecisionTable(o, mismatchPath, false, hasWriter, read.1, path);
  }
}
