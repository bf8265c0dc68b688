// SnapshotBuilder and SnapshotBuilderBase: a middleware pipeline together with
// lists of option actions. The options of every file-storage and JSON stage
// the builder adds are a new options object with the actions run on it in
// the order they were added; without an explicit pipeline, Build uses the
// default one of reading, JSON serializing, comparing and writing stages.
//
// The two classes hold the same code; SnapshotBuilderBase in addition keeps a
// snapshot directory tail and registers, when constructed, an action that
// points the snapshot directory at the test's source directory. Here they are
// one class, with one constructor for each.

module Builders {
  import opened Wrappers
  import opened Text
  import opened MiddlewareOptions
  import opened Stages
  import opened Pipeline

  /** The directory tail SnapshotBuilderBase starts with. */
  const DefaultSnapshotDirectoryTail: string := "_snapshots"

  /** A file-storage option action: SnapshotBuilderBase's own directory action, or one given to WithFileStorageOptions. */
  datatype StorageAction =
    | DirectoryFromStackTrace
    | StorageStep(step: StorageOptions -> StorageOptions)

  /** Actions applied one after another, the first one first. */
  function ApplyAll<T>(x: T, actions: seq<T -> T>): T
    decreases |actions|
  {
    if actions == [] then x else actions[|actions| - 1](ApplyAll(x, actions[..|actions| - 1]))
  }

  /** Running `a + b` is running `a`, then `b` on its result. */
  lemma {:induction false} ApplyAllAppend<T>(x: T, a: seq<T -> T>, b: seq<T -> T>)
    ensures ApplyAll(x, a + b) == ApplyAll(ApplyAll(x, a), b)
    decreases |b|
  {
    if b == [] {
      assert a + b == a;
    } else {
      var n := |b| - 1;
      assert (a + b)[..|a + b| - 1] == a + b[..n];
      ApplyAllAppend(x, a, b[..n]);
    }
  }

  /**
   * GetSnapshotDirectoryFromStackTrace: the directory of the test's source
   * file (empty when none is found) combined with the tail (null counting as
   * empty); the tail is the one the builder has when the options are built.
   */
  function StackTraceDirectory(testDirectory: Option<string>, tail: Option<string>): string
  {
    PathCombine(testDirectory.GetOr(""), tail.GetOr(""))
  }

  /** What an action does to the options. */
  function Step(a: StorageAction, testDirectory: Option<string>, tail: Option<string>): StorageOptions -> StorageOptions
  {
    match a
    case DirectoryFromStackTrace => (o: StorageOptions) => o.(directory := Some(StackTraceDirectory(testDirectory, tail)))
    case StorageStep(f) => f
  }

  function Steps(actions: seq<StorageAction>, testDirectory: Option<string>, tail: Option<string>): (r: seq<StorageOptions -> StorageOptions>)
    ensures |r| == |actions| && forall i :: 0 <= i < |actions| ==> r[i] == Step(actions[i], testDirectory, tail)
  {
    seq(|actions|, i requires 0 <= i < |actions| => Step(actions[i], testDirectory, tail))
  }

  /** The options of a stage: a new object, then every action in the order added. */
  function BuiltStorage(env: Environment, actions: seq<StorageAction>, testDirectory: Option<string>, tail: Option<string>): StorageOptions
  {
    ApplyAll(DefaultStorageOptions(env), Steps(actions, testDirectory, tail))
  }

  /**
   * With no action of its user, a SnapshotBuilderBase keeps snapshots in the
   * tail directory under the test's source directory, creating and
   * refreshing them as the environment says.
   */
  lemma BaseDirectoryDefault(env: Environment, testDirectory: Option<string>, tail: Option<string>)
    ensures BuiltStorage(env, [DirectoryFromStackTrace], testDirectory, tail) ==
      DefaultStorageOptions(env).(directory := Some(StackTraceDirectory(testDirectory, tail)))
  {
    var steps := Steps([DirectoryFromStackTrace], testDirectory, tail);
    assert steps[..0] == [];
    assert steps[0] == Step(DirectoryFromStackTrace, testDirectory, tail);
    assert ApplyAll(DefaultStorageOptions(env), steps) == steps[0](DefaultStorageOptions(env));
  }

  /** An action added later overrides the directory the constructor's action chose. */
  lemma LaterDirectoryWins(env: Environment, earlier: seq<StorageAction>, testDirectory: Option<string>, tail: Option<string>,
                           f: StorageOptions -> StorageOptions, d: string)
    requires forall o :: f(o).directory == Some(d)
    ensures BuiltStorage(env, earlier + [StorageStep(f)], testDirectory, tail).directory == Some(d)
  {
    var steps := Steps(earlier + [StorageStep(f)], testDirectory, tail);
    assert steps[..|steps| - 1] == Steps(earlier, testDirectory, tail);
    assert steps[|steps| - 1] == f;
  }

  /** The default pipeline's stages in the order they are registered. */
  function DefaultStages(storage: StorageOptions, json: JsonOptions, mismatchPath: Option<string> -> string): seq<StageKind>
  {
    [ReadingStage(storage), JsonStage(json), ComparatorStage, WritingStage(storage, mismatchPath)]
  }

  /** The initializer `_ => BuildFileStorageOptions(_.Options)`. */
  function WithStorage(storage: StorageOptions): StageKind -> StageKind
  {
    (k: StageKind) => if k.ReadingStage? || k.WritingStage? then k.(storage := storage) else k
  }

  /** The initializer `_ => BuildJsonOptions(_.Options)`. */
  function WithJson(json: JsonOptions): StageKind -> StageKind
  {
    (k: StageKind) => if k.JsonStage? then k.(json := json) else k
  }

  class SnapshotBuilder {
    /** The SnapshotMiddlewarePipeline the builder is. */
    const pipeline: SnapshotMiddlewarePipeline
    var fileStorageActions: seq<StorageAction>
    var jsonActions: seq<JsonOptions -> JsonOptions>
    /** SnapshotBuilderBase's SnapshotDirectoryTail. */
    var snapshotDirectoryTail: Option<string>
    /** The environment a new FileStorageOptions reads. */
    const env: Environment
    /** The directory of the test's source file, as found in the stack trace. */
    const testDirectory: Option<string>
    /** The writing stage's GetMismatedActualFilePath. */
    const mismatchPath: Option<string> -> string

    ghost predicate Valid()
      reads this, pipeline, pipeline.Repr
    {
      pipeline.Valid()
    }

    /** The options the file-storage stages get. */
    function Storage(): StorageOptions
      reads this
    {
      BuiltStorage(env, fileStorageActions, testDirectory, snapshotDirectoryTail)
    }

    function Json(): JsonOptions
      reads this
    {
      ApplyAll(DefaultJsonOptions(), jsonActions)
    }

    /** A SnapshotBuilder: an empty pipeline, no actions. */
    constructor (env: Environment, mismatchPath: Option<string> -> string)
      ensures Valid() && pipeline.Chain() == [] && fresh(pipeline)
      ensures fileStorageActions == [] && jsonActions == []
      ensures this.env == env && this.mismatchPath == mismatchPath
    {
      pipeline := new SnapshotMiddlewarePipeline();
      fileStorageActions, jsonActions := [], [];
      snapshotDirectoryTail := Some(DefaultSnapshotDirectoryTail);
      this.env, this.testDirectory, this.mismatchPath := env, None, mismatchPath;
    }

    /** A SnapshotBuilderBase: the snapshot directory action registered first, the default tail. */
    constructor Base(env: Environment, testDirectory: Option<string>, mismatchPath: Option<string> -> string)
      ensures Valid() && pipeline.Chain() == [] && fresh(pipeline)
      ensures fileStorageActions == [DirectoryFromStackTrace] && jsonActions == []
      ensures snapshotDirectoryTail == Some(DefaultSnapshotDirectoryTail)
      ensures this.env == env && this.testDirectory == testDirectory && this.mismatchPath == mismatchPath
    {
      pipeline := new SnapshotMiddlewarePipeline();
      fileStorageActions, jsonActions := [DirectoryFromStackTrace], [];
      snapshotDirectoryTail := Some(DefaultSnapshotDirectoryTail);
      this.env, this.testDirectory, this.mismatchPath := env, testDirectory, mismatchPath;
    }

    /** WithFileStorageOptions: a null action is refused; otherwise it joins the end of the list. */
    method WithFileStorageOptions(action: Option<StorageOptions -> StorageOptions>) returns (err: Option<Error>)
      modifies this
      ensures action.None? ==> err == Some(ArgumentNull("action")) && fileStorageActions == old(fileStorageActions)
      ensures action.Some? ==> err.None? && fileStorageActions == old(fileStorageActions) + [StorageStep(action.value)]
      ensures jsonActions == old(jsonActions) && snapshotDirectoryTail == old(snapshotDirectoryTail)
    {
      if action.None? {
        return Some(ArgumentNull("action"));
      }
      fileStorageActions := fileStorageActions + [StorageStep(action.value)];
      err := None;
    }

    /** WithJsonOptions: a null action is refused; otherwise it joins the end of the list. */
    method WithJsonOptions(action: Option<JsonOptions -> JsonOptions>) returns (err: Option<Error>)
      modifies this
      ensures action.None? ==> err == Some(ArgumentNull("action")) && jsonActions == old(jsonActions)
      ensures action.Some? ==> err.None? && jsonActions == old(jsonActions) + [action.value]
      ensures fileStorageActions == old(fileStorageActions) && snapshotDirectoryTail == old(snapshotDirectoryTail)
    {
      if action.None? {
        return Some(ArgumentNull("action"));
      }
      jsonActions := jsonActions + [action.value];
      err := None;
    }

    /** The protected BuildFileStorageOptions(options): every action run on the object, in order. */
    method ConfigureStorage(options: FileStorageOptions)
      modifies options
      ensures options.Properties() == ApplyAll(old(options.Properties()), Steps(fileStorageActions, testDirectory, snapshotDirectoryTail))
    {
      var steps := Steps(fileStorageActions, testDirectory, snapshotDirectoryTail);
      ghost var start := options.Properties();
      var i := 0;
      while i < |steps|
        invariant 0 <= i <= |steps|
        invariant options.Properties() == ApplyAll(start, steps[..i])
      {
        options.Apply(steps[i]);
        assert steps[..i + 1][..i] == steps[..i];
        i := i + 1;
      }
      assert steps[..i] == steps;
    }

    /** The protected BuildJsonOptions(options). */
    method ConfigureJson(options: JsonSerializerOptions)
      modifies options
      ensures options.Properties() == ApplyAll(old(options.Properties()), jsonActions)
    {
      ghost var start := options.Properties();
      var i := 0;
      while i < |jsonActions|
        invariant 0 <= i <= |jsonActions|
        invariant options.Properties() == ApplyAll(start, jsonActions[..i])
      {
        options.Apply(jsonActions[i]);
        assert jsonActions[..i + 1][..i] == jsonActions[..i];
        i := i + 1;
      }
      assert jsonActions[..i] == jsonActions;
    }

    /** BuildFileStorageOptions(): a new options object with every action run on it. */
    method BuildFileStorageOptions() returns (options: FileStorageOptions)
      ensures fresh(options) && options.Properties() == Storage()
    {
      options := new FileStorageOptions(env);
      ConfigureStorage(options);
    }

    /** BuildJsonOptions(): a new options object with every action run on it. */
    method BuildJsonOptions() returns (options: JsonSerializerOptions)
      ensures fresh(options) && options.Properties() == Json()
    {
      options := new JsonSerializerOptions();
      ConfigureJson(options);
    }

    /** UseFileStorageReadingMiddleware(pipeline): a reading stage with the built options becomes the head. */
    method UseFileStorageReadingMiddleware(pipe: SnapshotMiddlewarePipeline)
      requires pipe.Valid()
      modifies pipe
      ensures pipe.Valid() && fresh(pipe.Repr - old(pipe.Repr))
      ensures pipe.Chain() == [ReadingStage(Storage())] + old(pipe.Chain())
    {
      pipe.UseNew(ReadingStage(DefaultStorageOptions(env)), Some(WithStorage(Storage())));
    }

    /** UseJsonSerializerMiddlware(pipeline). */
    method UseJsonSerializerMiddlware(pipe: SnapshotMiddlewarePipeline)
      requires pipe.Valid()
      modifies pipe
      ensures pipe.Valid() && fresh(pipe.Repr - old(pipe.Repr))
      ensures pipe.Chain() == [JsonStage(Json())] + old(pipe.Chain())
    {
      pipe.UseNew(JsonStage(DefaultJsonOptions()), Some(WithJson(Json())));
    }

    /** UseStringComparatorMiddleware(pipeline). */
    method UseStringComparatorMiddleware(pipe: SnapshotMiddlewarePipeline)
      requires pipe.Valid()
      modifies pipe
      ensures pipe.Valid() && fresh(pipe.Repr - old(pipe.Repr))
      ensures pipe.Chain() == [ComparatorStage] + old(pipe.Chain())
    {
      pipe.UseNew(ComparatorStage, None);
    }

    /** UseFileStorageWritingMiddleware(pipeline). */
    method UseFileStorageWritingMiddleware(pipe: SnapshotMiddlewarePipeline)
      requires pipe.Valid()
      modifies pipe
      ensures pipe.Valid() && fresh(pipe.Repr - old(pipe.Repr))
      ensures pipe.Chain() == [WritingStage(Storage(), mismatchPath)] + old(pipe.Chain())
    {
      pipe.UseNew(WritingStage(DefaultStorageOptions(env), mismatchPath), Some(WithStorage(Storage())));
    }

    /**
     * BuildDefaultMiddlewarePipeline: a new pipeline with the reading, JSON,
     * comparator and writing stages registered in that order; its chain.
     */
    method BuildDefaultMiddlewarePipeline() returns (chain: Middleware)
      ensures fresh(chain.Repr) && chain.Valid()
      ensures chain.Kinds == Reversed(DefaultStages(Storage(), Json(), mismatchPath))
    {
      var pipe := new SnapshotMiddlewarePipeline();
      UseFileStorageReadingMiddleware(pipe);
      UseJsonSerializerMiddlware(pipe);
      UseStringComparatorMiddleware(pipe);
      UseFileStorageWritingMiddleware(pipe);
      chain := pipe.head;
      assert Reversed(DefaultStages(Storage(), Json(), mismatchPath)) == pipe.Chain();
    }

    /** Build: the chain the snapshot runs, the builder's own when it has one, otherwise the default. */
    method Build() returns (chain: Middleware)
      requires Valid()
      ensures chain.Valid()
      ensures pipeline.head != null ==> chain == pipeline.head
      ensures pipeline.head == null ==> fresh(chain.Repr) && chain.Kinds == Reversed(DefaultStages(Storage(), Json(), mismatchPath))
    {
      if pipeline.head != null {
        chain := pipeline.head;
      } else {
        chain := BuildDefaultMiddlewarePipeline();
      }
    }

    /** The builder's Use(middleware). */
    method Use(middleware: Middleware?) returns (err: Option<Error>)
      requires Valid()
      requires middleware != null ==> middleware.Valid() && middleware.Repr !! pipeline.Repr
      modifies pipeline, if middleware == null then {} else middleware.Repr
      ensures Valid()
      ensures middleware == null ==> err == Some(ArgumentNull("middleware")) && pipeline.Chain() == old(pipeline.Chain())
      ensures middleware != null ==> err.None? && pipeline.Chain() == old(middleware.Kinds) + old(pipeline.Chain())
    {
      err := pipeline.Use(middleware);
    }

    /** The builder's Use<T>(initializer): a new stage of kind `kind`, initialized when an initializer is given. */
    method UseNew(kind: StageKind, initializer: Option<StageKind -> StageKind>)
      requires Valid()
      modifies pipeline
      ensures Valid() && pipeline.Chain() == [Initialized(kind, initializer)] + old(pipeline.Chain())
    {
      pipeline.UseNew(kind, initializer);
    }

    /** The builder's Use(Func). */
    method UseFunction(process: Option<Callback>)
      requires Valid()
      modifies pipeline
      ensures Valid() && pipeline.Chain() == [FunctionStage(process)] + old(pipeline.Chain())
    {
      pipeline.UseFunction(process);
    }

    /** The builder's Use(Action). */
    method UseAction(process: Callback)
      requires Valid()
      modifies pipeline
      ensures Valid() && pipeline.Chain() == [FunctionStage(Some(AlwaysTrue(process)))] + old(pipeline.Chain())
    {
      pipeline.UseAction(process);
    }
  }
}
