// The options objects of the middleware stages: FileStorageOptions, shared by
// the reading and writing stages, and JsonSerializerOptions. Each is a class
// whose fields option actions set in place; a stage keeps the values its
// options held once they were built.

module MiddlewareOptions {
  import opened Wrappers
  import opened Text
  import Messages

  /** The environment variables FileStorageOptions reads when it is created, as "set to a non-empty value". */
  datatype Environment = Environment(createMissingSet: bool, refreshSet: bool)

  const CreateMissingSnapshotsEnvironmentVariableName: string := Messages.CreateMissingSnapshotsVariable
  const RefreshSnapshotsEnvironmentVariableName: string := Messages.RefreshSnapshotsVariable

  /** The snapshot file extension a new FileStorageOptions starts with. */
  const DefaultExtension: string := ".snapshot"

  /** The property values of a FileStorageOptions object. */
  datatype StorageOptions = StorageOptions(
    createMissing: bool,
    forceRefresh: bool,
    directory: Option<string>,
    extension: Option<string>)

  /** A new FileStorageOptions: flags from the environment, no directory, the `.snapshot` extension. */
  function DefaultStorageOptions(env: Environment): (o: StorageOptions)
    ensures o.createMissing == env.createMissingSet && o.forceRefresh == env.refreshSet
    ensures o.directory.None? && o.extension == Some(DefaultExtension)
  {
    StorageOptions(env.createMissingSet, env.refreshSet, None, Some(DefaultExtension))
  }

  /**
   * The file name GetSnapshotFilePath builds: the test name and extension
   * concatenated (a null one counting as empty), every '/' and '\' made '_'.
   */
  function SnapshotFileName(testName: Option<string>, extension: Option<string>): (r: string)
    ensures |r| == |testName.GetOr("") + extension.GetOr("")|
    ensures forall k :: 0 <= k < |r| ==> r[k] != '/' && r[k] != '\\'
    ensures var raw := testName.GetOr("") + extension.GetOr("");
      forall k :: 0 <= k < |r| ==> r[k] == (if raw[k] == '/' || raw[k] == '\\' then '_' else raw[k])
  {
    var raw := testName.GetOr("") + extension.GetOr("");
    ReplaceCharTwice(raw, '/', '\\', '_');
    ReplaceAllProperties(raw, {'/', '\\'}, '_');
    ReplaceChar(ReplaceChar(raw, '/', '_'), '\\', '_')
  }

  /** GetSnapshotFilePath: Path.Combine throws for a null directory. */
  function SnapshotFilePathOf(o: StorageOptions, testName: Option<string>): (r: Result<string>)
    ensures o.directory.None? <==> r == Err(ArgumentNull("path1"))
    ensures r.Ok? ==> r.value == PathCombine(o.directory.value, SnapshotFileName(testName, o.extension))
  {
    if o.directory.None? then Err(ArgumentNull("path1"))
    else Ok(PathCombine(o.directory.value, SnapshotFileName(testName, o.extension)))
  }

  /** A test name and extension free of path separators name their file unchanged. */
  lemma PlainNameKept(testName: string, extension: string)
    requires forall k :: 0 <= k < |testName + extension| ==> (testName + extension)[k] != '/' && (testName + extension)[k] != '\\'
    ensures SnapshotFileName(Some(testName), Some(extension)) == testName + extension
  {
    var raw := testName + extension;
    ReplaceAllProperties(raw, {'/', '\\'}, '_');
    ReplaceCharTwice(raw, '/', '\\', '_');
  }

  /** Path.Combine with a fixed directory is one-to-one on names that do not start with '/'. */
  lemma PathCombineInjective(directory: string, a: string, b: string)
    requires a != "" && b != "" && a[0] != '/' && b[0] != '/'
    requires PathCombine(directory, a) == PathCombine(directory, b)
    ensures a == b
  {
    var r := PathCombine(directory, a);
    if directory != [] && directory[|directory| - 1] != '/' {
      assert r == directory + "/" + a && r == directory + "/" + b;
      assert a == r[|directory| + 1..] == b;
    } else if directory != [] {
      assert r == directory + a && r == directory + b;
      assert a == r[|directory|..] == b;
    }
  }

  /**
   * Sanitising keeps distinct snapshot files apart: two test names with the
   * same extension that differ after the replacement are stored at different
   * paths in the same directory.
   */
  lemma DistinctTestsDistinctFiles(o: StorageOptions, a: Option<string>, b: Option<string>)
    requires o.directory.Some? && o.extension.Some? && o.extension.value != ""
    requires SnapshotFileName(a, o.extension) != SnapshotFileName(b, o.extension)
    ensures SnapshotFilePathOf(o, a).value != SnapshotFilePathOf(o, b).value
  {
    var na, nb := SnapshotFileName(a, o.extension), SnapshotFileName(b, o.extension);
    assert na != "" && na[0] != '/';
    assert nb != "" && nb[0] != '/';
    if SnapshotFilePathOf(o, a).value == SnapshotFilePathOf(o, b).value {
      PathCombineInjective(o.directory.value, na, nb);
    }
  }

  /** A FileStorageOptions object. */
  class FileStorageOptions {
    var createMissing: bool
    var forceRefresh: bool
    var directory: Option<string>
    var extension: Option<string>

    constructor (env: Environment)
      ensures Properties() == DefaultStorageOptions(env)
    {
      createMissing, forceRefresh := env.createMissingSet, env.refreshSet;
      directory, extension := None, Some(DefaultExtension);
    }

    function Properties(): StorageOptions
      reads this
    {
      StorageOptions(createMissing, forceRefresh, directory, extension)
    }

    /** An option action run on this object: it may set any of the properties. */
    method Apply(action: StorageOptions -> StorageOptions)
      modifies this
      ensures Properties() == action(old(Properties()))
    {
      var o := action(Properties());
      createMissing, forceRefresh, directory, extension := o.createMissing, o.forceRefresh, o.directory, o.extension;
    }
  }

  /** The property values of a JsonSerializerOptions object. */
  datatype JsonOptions = JsonOptions(
    writeIndented: bool,
    serializeStrings: bool,
    selectPath: Option<string>,
    excludedPaths: seq<string>)

  /** A new JsonSerializerOptions: indented output, strings passed through, no select path, nothing excluded. */
  function DefaultJsonOptions(): (o: JsonOptions)
    ensures o.writeIndented && !o.serializeStrings && o.selectPath.None? && o.excludedPaths == []
  {
    JsonOptions(true, false, None, [])
  }

  /** A JsonSerializerOptions object; its ExcludedPaths list is changed in place through the getter. */
  class JsonSerializerOptions {
    var writeIndented: bool
    var serializeStrings: bool
    var selectPath: Option<string>
    var excludedPaths: seq<string>

    constructor ()
      ensures Properties() == DefaultJsonOptions()
    {
      writeIndented, serializeStrings, selectPath, excludedPaths := true, false, None, [];
    }

    function Properties(): JsonOptions
      reads this
    {
      JsonOptions(writeIndented, serializeStrings, selectPath, excludedPaths)
    }

    method Apply(action: JsonOptions -> JsonOptions)
      modifies this
      ensures Properties() == action(old(Properties()))
    {
      var o := action(Properties());
      writeIndented, serializeStrings, selectPath, excludedPaths := o.writeIndented, o.serializeStrings, o.selectPath, o.excludedPaths;
    }
  }
}
