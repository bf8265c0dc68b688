// What each middleware stage does around its call to ProcessNext. A stage's
// Process runs its own work before handing the context on (only the JSON
// serializer has any), asks the rest of the chain, and then finishes its work
// with the answer the rest of the chain gave. Each part is a function on the
// context and the world, and a method that does the same to the objects.

module Stages {
  import opened Wrappers
  import opened Text
  import opened JsonValue
  import opened HostValues
  import opened PathFilter
  import opened SnapshotValues
  import opened Filtering
  import opened Messages
  import opened Files
  import opened Engine
  import opened Context
  import opened MiddlewareOptions

  /** What a FunctionCallMiddleware callback does: its answer, the Actual it leaves, and the Expected it sets, if it sets one. */
  datatype Call = Call(result: bool, actual: Option<Host>, setExpected: Option<Option<Host>>)

  /** A `Func<SnapshotContext, bool>`: it sees the context and may change it through its public members. */
  type Callback = ContextState -> Call

  /** The middleware classes of the library, with what each was configured with. */
  datatype StageKind =
    | ReadingStage(storage: StorageOptions)
    | JsonStage(json: JsonOptions)
    | ComparatorStage
    /** The writing stage; `mismatchPath` is its options' GetMismatedActualFilePath. */
    | WritingStage(storage: StorageOptions, mismatchPath: Option<string> -> string)
    | FunctionStage(process: Option<Callback>)

  /** Everything a run of the pipeline reads and changes: the context, the files, the tip flags of the stage classes, the messages. */
  datatype PipelineState = PipelineState(ctx: ContextState, world: World)

  function StateOf(ctx: SnapshotContext, store: FileStore, tips: TipFlags): PipelineState
    reads ctx, store, tips, ctx.writer
  {
    PipelineState(ctx.State(), WorldOf(store, tips, ctx.writer))
  }

  /** `value is string` for an Actual or Expected value. */
  predicate IsString(value: Option<Host>)
  {
    value.Some? && value.value.HStr?
  }

  /** Object.GetType() as it appears in a message. */
  function TypeNameOf(h: Host): string
  {
    match h
    case HBool(_) => "System.Boolean"
    case HInt(_) => "System.Int32"
    case HStr(_) => "System.String"
    case HGuid(_) => "System.Guid"
    case HList(t, _) => t
    case HDict(t, _) => t
    case HRecord(t, _) => t
  }

  /** `value?.ToString() ?? ""`. */
  function TextOf(value: Option<Host>): string
  {
    if value.None? then "" else HostText(value.value)
  }

  // ---- the JSON serializer stage ------------------------------------------

  /**
   * FilterAndSerializeValue: null is written `null`; anything else becomes a
   * token, loses what the exclude paths match, and is replaced by what the
   * select path matches (no match is null, one match itself, more an array).
   */
  function SerializedValue(value: Option<Host>, o: JsonOptions): (r: Result<string>)
    ensures value.None? ==> r == Ok("null")
  {
    if value.None? then Ok(Serialize(Null))
    else
      match ExcludePaths(ToToken(value.value), o.excludedPaths, MiddlewareGeneration)
      case Err(e) => Err(e)
      case Ok(w) =>
        match ApplySelectPath(w, o.selectPath)
        case Err(e) => Err(e)
        case Ok(selected) => Ok(Serialize(Unwrap(selected)))
  }

  /** The same, on a token the exclusion loop changes in place. */
  method FilterAndSerializeValue(value: Option<Host>, o: JsonOptions) returns (r: Result<string>)
    ensures r == SerializedValue(value, o)
  {
    if value.None? {
      return Ok(Serialize(Null));
    }
    var root := ToToken(value.value);
    var pruned := RemoveMatches(root, o.excludedPaths, MiddlewareGeneration);
    if pruned.Err? {
      return Err(pruned.error);
    }
    var selected := ApplySelectPath(pruned.value, o.selectPath);
    if selected.Err? {
      return Err(selected.error);
    }
    var tokens := selected.value;
    if |tokens| == 0 {
      r := Ok(Serialize(Null));
    } else if |tokens| == 1 {
      r := Ok(Serialize(tokens[0]));
    } else {
      r := Ok(Serialize(Arr(tokens)));
    }
  }

  /** Before ProcessNext: Actual is serialized unless it is a string and strings are left alone; an error leaves it as it was. */
  function JsonBefore(o: JsonOptions, c: ContextState): (Option<Error>, ContextState)
  {
    if o.serializeStrings || !IsString(c.actual) then
      match SerializedValue(c.actual, o)
      case Err(e) => (Some(e), c)
      case Ok(text) => (None, c.(actual := Some(HStr(text))))
    else (None, c)
  }

  /** After ProcessNext: a failure is passed on; otherwise a known Expected that is not a string is serialized. */
  function JsonAfter(o: JsonOptions, ok: bool, s: PipelineState): (Result<bool>, PipelineState)
  {
    if !ok then (Ok(false), s)
    else if s.ctx.expectedKnown && !IsString(s.ctx.expected) then
      match SerializedValue(s.ctx.expected, o)
      case Err(e) => (Err(e), s)
      case Ok(text) => (Ok(true), s.(ctx := WithExpected(s.ctx, Some(HStr(text)))))
    else (Ok(true), s)
  }

  method JsonProcessBefore(o: JsonOptions, ctx: SnapshotContext) returns (err: Option<Error>)
    modifies ctx
    ensures (err, ctx.State()) == JsonBefore(o, old(ctx.State()))
  {
    err := None;
    if o.serializeStrings || !IsString(ctx.actual) {
      var text := FilterAndSerializeValue(ctx.actual, o);
      if text.Err? {
        err := Some(text.error);
      } else {
        ctx.SetActual(Some(HStr(text.value)));
      }
    }
  }

  method JsonProcessAfter(o: JsonOptions, ok: bool, ctx: SnapshotContext) returns (r: Result<bool>)
    modifies ctx
    ensures forall w :: (r, PipelineState(ctx.State(), w)) == JsonAfter(o, ok, PipelineState(old(ctx.State()), w))
  {
    if !ok {
      r := Ok(false);
    } else if ctx.expectedKnown && !IsString(ctx.expected) {
      var text := FilterAndSerializeValue(ctx.expected, o);
      if text.Err? {
        r := Err(text.error);
      } else {
        ctx.SetExpected(Some(HStr(text.value)));
        r := Ok(true);
      }
    } else {
      r := Ok(true);
    }
  }

  // ---- the string comparator stage -----------------------------------------

  /** After ProcessNext: a failure is passed on; otherwise the verdict is whether Expected is known and has Actual's text, ignoring case. */
  function ComparatorAfter(ok: bool, s: PipelineState): (Result<bool>, PipelineState)
  {
    if !ok then (Ok(false), s)
    else (Ok(s.ctx.expectedKnown && EqualsIgnoreCase(TextOf(s.ctx.actual), TextOf(s.ctx.expected))), s)
  }

  method ComparatorProcessAfter(ok: bool, ctx: SnapshotContext) returns (r: Result<bool>)
    ensures forall w :: (r, PipelineState(ctx.State(), w)) == ComparatorAfter(ok, PipelineState(ctx.State(), w))
  {
    if !ok {
      r := Ok(false);
    } else {
      r := Ok(ctx.expectedKnown && EqualsIgnoreCase(TextOf(ctx.actual), TextOf(ctx.expected)));
    }
  }

  // ---- the function call stage --------------------------------------------

  /** The context once a callback has run. */
  function Called(c: ContextState, call: Call): (r: ContextState)
    ensures r.testName == c.testName && r.actual == call.actual
    ensures call.setExpected.None? ==> r.expected == c.expected && r.expectedKnown == c.expectedKnown
    ensures call.setExpected.Some? ==> ExpectedOf(r) == Ok(call.setExpected.value)
  {
    var withActual := c.(actual := call.actual);
    if call.setExpected.Some? then WithExpected(withActual, call.setExpected.value) else withActual
  }

  /** After ProcessNext: `ok && (process == null || process(context))`, the callback running only when the rest succeeded. */
  function FunctionAfter(process: Option<Callback>, ok: bool, s: PipelineState): (Result<bool>, PipelineState)
  {
    if !ok then (Ok(false), s)
    else if process.None? then (Ok(true), s)
    else
      var call := process.value(s.ctx);
      (Ok(call.result), s.(ctx := Called(s.ctx, call)))
  }

  method FunctionProcessAfter(process: Option<Callback>, ok: bool, ctx: SnapshotContext) returns (r: Result<bool>)
    modifies ctx
    ensures forall w :: (r, PipelineState(ctx.State(), w)) == FunctionAfter(process, ok, PipelineState(old(ctx.State()), w))
  {
    if !ok {
      r := Ok(false);
    } else if process.None? {
      r := Ok(true);
    } else {
      var call := process.value(ctx.State());
      ctx.SetActual(call.actual);
      if call.setExpected.Some? {
        ctx.SetExpected(call.setExpected.value);
      }
      r := Ok(call.result);
    }
  }

  // ---- the file-storage reading stage --------------------------------------

  /**
   * After ProcessNext: a failure is passed on. Otherwise an existing snapshot
   * file (unless a refresh is forced) gives Expected its text, less one
   * trailing newline; when creating missing snapshots or refreshing,
   * Expected is Actual; otherwise Expected stays unknown and a warning is
   * written, with the rerun tip the first time. The stage itself succeeds.
   */
  function ReadingAfter(o: StorageOptions, ok: bool, hasWriter: bool, s: PipelineState): (Result<bool>, PipelineState)
  {
    if !ok then (Ok(false), s)
    else
      match SnapshotFilePathOf(o, s.ctx.testName)
      case Err(e) => (Err(e), s)
      case Ok(path) =>
        if path in s.world.files && !o.forceRefresh then
          (Ok(true), s.(ctx := WithExpected(s.ctx, Some(HStr(TrimNewLine(s.world.files[path]))))))
        else if o.createMissing || o.forceRefresh then
          (Ok(true), s.(ctx := WithExpected(s.ctx, s.ctx.actual)))
        else
          (Ok(true), s.(world := Noticed(s.world, hasWriter, MissingSnapshotWarning(path), RerunFlag, RerunTip)))
  }

  method ReadingProcessAfter(o: StorageOptions, ok: bool, ctx: SnapshotContext, store: FileStore, tips: TipFlags) returns (r: Result<bool>)
    modifies ctx, tips, ctx.writer
    ensures (r, StateOf(ctx, store, tips)) == ReadingAfter(o, ok, ctx.writer != null, old(StateOf(ctx, store, tips)))
  {
    if !ok {
      return Ok(false);
    }
    var path := SnapshotFilePathOf(o, ctx.testName);
    if path.Err? {
      return Err(path.error);
    }
    if store.Exists(path.value) && !o.forceRefresh {
      var text := store.ReadAllText(path.value);
      ctx.SetExpected(Some(HStr(TrimNewLine(text))));
    } else if o.createMissing || o.forceRefresh {
      ctx.SetExpected(ctx.actual);
    } else {
      Announce(ctx.writer, tips, MissingSnapshotWarning(path.value), RerunFlag, RerunTip);
    }
    r := Ok(true);
  }

  // ---- the file-storage writing stage --------------------------------------

  /** WriteValue: only a string can be stored, as its exact text; anything else is refused before any write. */
  function PayloadText(value: Option<Host>): (r: Result<string>)
    ensures r.Ok? <==> IsString(value)
    ensures r.Ok? ==> r.value == value.value.s
    ensures value.None? ==> r == Err(NonStringPayload(true, ""))
  {
    match value
    case None => Err(NonStringPayload(true, ""))
    case Some(HStr(s)) => Ok(s)
    case Some(h) => Err(NonStringPayload(false, TypeNameOf(h)))
  }

  /** Actual written to `path`, then a message and its tip. */
  function Stored(ok: bool, value: Option<Host>, path: string, message: Notice, flag: Flag, tip: Notice, hasWriter: bool, w: World): (Result<bool>, World)
  {
    match PayloadText(value)
    case Err(e) => (Err(e), w)
    case Ok(text) => (Ok(ok), Noticed(w.(files := w.files[path := text]), hasWriter, message, flag, tip))
  }

  /** The writing stage's decision on the files, for the context's test name and Actual. */
  function WritingWorld(o: StorageOptions, mismatchPath: Option<string> -> string, ok: bool,
                        testName: Option<string>, actual: Option<Host>, hasWriter: bool, w: World): (Result<bool>, World)
  {
    match SnapshotFilePathOf(o, testName)
    case Err(e) => (Err(e), w)
    case Ok(path) =>
      var mismatch := mismatchPath(testName);
      var cleaned := w.(files := w.files - {mismatch});
      if !ok || (!o.forceRefresh && !o.createMissing && path !in cleaned.files) then
        Stored(ok, actual, mismatch, MismatchWritten(mismatch), MismatchFlag, MismatchReviewTip, hasWriter, cleaned)
      else if o.forceRefresh || (o.createMissing && path !in cleaned.files) then
        Stored(ok, actual, path, SnapshotWritten(path), NewFileFlag, NewFileReviewTip, hasWriter, cleaned)
      else (Ok(ok), cleaned)
  }

  /**
   * After ProcessNext, whatever it answered: any old mismatch file goes; a
   * failure, or a missing snapshot that nothing may create, writes Actual to
   * the mismatch file; a forced refresh, or a missing snapshot that may be
   * created, writes it to the snapshot file. The answer is passed on; the
   * context is left as it was.
   */
  function WritingAfter(o: StorageOptions, mismatchPath: Option<string> -> string, ok: bool, hasWriter: bool, s: PipelineState): (Result<bool>, PipelineState)
  {
    var r := WritingWorld(o, mismatchPath, ok, s.ctx.testName, s.ctx.actual, hasWriter, s.world);
    (r.0, s.(world := r.1))
  }

  method WriteValue(value: Option<Host>, path: string, store: FileStore) returns (err: Option<Error>)
    modifies store
    ensures PayloadText(value).Err? ==> err == Some(PayloadText(value).error) && store.files == old(store.files)
    ensures PayloadText(value).Ok? ==> err.None? && store.files == old(store.files)[path := PayloadText(value).value]
  {
    if !IsString(value) {
      return Some(PayloadText(value).error);
    }
    store.WriteAllText(path, value.value.s);
    err := None;
  }

  method StoreValue(ok: bool, value: Option<Host>, path: string, message: Notice, flag: Flag, tip: Notice,
                    writer: MessageLog?, store: FileStore, tips: TipFlags) returns (r: Result<bool>)
    modifies store, tips, writer
    ensures (r, WorldOf(store, tips, writer)) == Stored(ok, value, path, message, flag, tip, writer != null, old(WorldOf(store, tips, writer)))
  {
    var err := WriteValue(value, path, store);
    if err.Some? {
      r := Err(err.value);
    } else {
      Announce(writer, tips, message, flag, tip);
      r := Ok(ok);
    }
  }

  method WriteFiles(o: StorageOptions, mismatchPath: Option<string> -> string, ok: bool, testName: Option<string>, actual: Option<Host>,
                    writer: MessageLog?, store: FileStore, tips: TipFlags) returns (r: Result<bool>)
    modifies store, tips, writer
    ensures (r, WorldOf(store, tips, writer)) == WritingWorld(o, mismatchPath, ok, testName, actual, writer != null, old(WorldOf(store, tips, writer)))
  {
    var path := SnapshotFilePathOf(o, testName);
    if path.Err? {
      return Err(path.error);
    }
    var mismatch := mismatchPath(testName);
    if store.Exists(mismatch) {
      store.Delete(mismatch);
    }
    assert store.files == old(store.files) - {mismatch};
    if !ok || (!o.forceRefresh && !o.createMissing && !store.Exists(path.value)) {
      r := StoreValue(ok, actual, mismatch, MismatchWritten(mismatch), MismatchFlag, MismatchReviewTip, writer, store, tips);
    } else if o.forceRefresh || (o.createMissing && !store.Exists(path.value)) {
      r := StoreValue(ok, actual, path.value, SnapshotWritten(path.value), NewFileFlag, NewFileReviewTip, writer, store, tips);
    } else {
      r := Ok(ok);
    }
  }

  method WritingProcessAfter(o: StorageOptions, mismatchPath: Option<string> -> string, ok: bool,
                             ctx: SnapshotContext, store: FileStore, tips: TipFlags) returns (r: Result<bool>)
    modifies store, tips, ctx.writer
    ensures (r, StateOf(ctx, store, tips)) == WritingAfter(o, mismatchPath, ok, ctx.writer != null, old(StateOf(ctx, store, tips)))
  {
    r := WriteFiles(o, mismatchPath, ok, ctx.testName, ctx.actual, ctx.writer, store, tips);
  }

  // ---- dispatch -------------------------------------------------------------

  /** A stage's work before ProcessNext: only the JSON serializer has any. */
  function Before(k: StageKind, c: ContextState): (Option<Error>, ContextState)
  {
    if k.JsonStage? then JsonBefore(k.json, c) else (None, c)
  }

  /** A stage's work after ProcessNext answered `ok`. */
  function After(k: StageKind, ok: bool, hasWriter: bool, s: PipelineState): (Result<bool>, PipelineState)
  {
    match k
    case ReadingStage(o) => ReadingAfter(o, ok, hasWriter, s)
    case JsonStage(o) => JsonAfter(o, ok, s)
    case ComparatorStage => ComparatorAfter(ok, s)
    case WritingStage(o, mismatchPath) => WritingAfter(o, mismatchPath, ok, hasWriter, s)
    case FunctionStage(process) => FunctionAfter(process, ok, s)
  }

  method StageBefore(k: StageKind, ctx: SnapshotContext) returns (err: Option<Error>)
    modifies ctx
    ensures (err, ctx.State()) == Before(k, old(ctx.State()))
  {
    if k.JsonStage? {
      err := JsonProcessBefore(k.json, ctx);
    } else {
      err := None;
    }
  }

  method StageAfter(k: StageKind, ok: bool, ctx: SnapshotContext, store: FileStore, tips: TipFlags) returns (r: Result<bool>)
    modifies ctx, store, tips, ctx.writer
    ensures (r, StateOf(ctx, store, tips)) == After(k, ok, ctx.writer != null, old(StateOf(ctx, store, tips)))
  {
    match k {
      case ReadingStage(o) =>
        r := ReadingProcessAfter(o, ok, ctx, store, tips);
      case JsonStage(o) =>
        r := JsonProcessAfter(o, ok, ctx);
      case ComparatorStage =>
        r := ComparatorProcessAfter(ok, ctx);
      case WritingStage(o, mismatchPath) =>
        r := WritingProcessAfter(o, mismatchPath, ok, ctx, store, tips);
      case FunctionStage(process) =>
        r := FunctionProcessAfter(process, ok, ctx);
    }
  }
}
