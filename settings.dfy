// SnapshotSettings: the properties that steer one snapshot comparison, the
// validating SnapshotGroup setter, the derivation of the snapshot and
// mismatched-actual file paths, and SnapshotField, which appends a JSONPath
// to the included or excluded list.

module Settings {
  import opened Wrappers
  import opened Text
  import opened Comparers
  import opened Messages

  /** The values of a settings object's properties; `None` is a null reference. */
  datatype Config = Config(
    name: Option<string>,
    group: Option<string>,
    indentJson: bool,
    selectPath: Option<string>,
    includedPaths: seq<string>,
    excludedPaths: seq<string>,
    createMissing: bool,
    forceRefresh: bool,
    directory: Option<string>,
    snapshotExtension: string,
    mismatchedActualExtension: string,
    comparer: Option<Comparer>)

  /** A new settings object; the two flags start as "the environment variable is set to something non-empty". */
  function DefaultConfig(createMissingVariableSet: bool, refreshVariableSet: bool): (c: Config)
    ensures c.name.None? && c.group.None? && c.directory.None? && c.comparer.None?
    ensures c.indentJson && c.selectPath.None? && c.includedPaths == [] && c.excludedPaths == []
    ensures c.createMissing == createMissingVariableSet && c.forceRefresh == refreshVariableSet
    ensures c.snapshotExtension == ".txt" && c.mismatchedActualExtension == ".txt.actual"
  {
    Config(None, None, true, None, [], [], createMissingVariableSet, refreshVariableSet, None, ".txt", ".txt.actual", None)
  }

  // ---- the SnapshotGroup setter ---------------------------------------------

  /** A value the group property can hold: null, or text with no white space at either end. */
  predicate StoredGroup(g: Option<string>)
  {
    g.None? || (g.value != [] && !IsWhiteSpace(g.value[0]) && !IsWhiteSpace(g.value[|g.value| - 1]))
  }

  /** What the setter stores for `value`, or the ArgumentOutOfRangeException it throws for a blank one. */
  function GroupSetter(value: Option<string>): (r: Result<Option<string>>)
    ensures r.Err? <==> value.Some? && AllWhiteSpace(value.value)
    ensures r.Err? ==> r.error == BlankSnapshotGroup && TypeOf(r.error) == ArgumentOutOfRangeException
    ensures r.Ok? ==> StoredGroup(r.value) && (r.value.None? <==> value.None?)
    ensures r.Ok? && value.Some? ==> r.value.value == Trim(value.value)
  {
    if value.Some? && IsNullOrWhiteSpace(value) then Err(BlankSnapshotGroup)
    else if value.None? then Ok(None)
    else Ok(Some(Trim(value.value)))
  }

  /** The trimmed text is what is left of the value between white-space runs at either end. */
  lemma GroupSetterTrims(value: string)
    requires !AllWhiteSpace(value)
    ensures var g := GroupSetter(Some(value)).value.value;
      exists a, b :: 0 <= a <= b <= |value| && g == value[a..b] && AllWhiteSpace(value[..a]) && AllWhiteSpace(value[b..])
  {
    var g := Trim(value);
    var a := LeadingWhiteSpace(value);
    assert g == value[a..a + |g|];
  }

  /** Storing a stored value again changes nothing. */
  lemma GroupSetterIdempotent(g: Option<string>)
    requires StoredGroup(g)
    ensures GroupSetter(g) == Ok(g)
  {
    if g.Some? {
      var s := g.value;
      assert !AllWhiteSpace(s) by {
        assert !IsWhiteSpace(s[0]);
      }
      assert LeadingWhiteSpace(s) == 0 && s[0..] == s;
      assert TrailingWhiteSpace(s) == 0 && s[..|s|] == s;
    }
  }

  // ---- file paths -------------------------------------------------------------

  /** The characters `/ | : * ? \ " < >`, which are not allowed in a file name on one common file system or another. */
  const BadFilenameCharacters: set<char> := {'/', '|', ':', '*', '?', '\\', '"', '<', '>'}

  /** Each bad file-name character replaced by `_`. */
  function SanitiseFileName(s: string): (r: string)
    ensures |r| == |s|
    ensures forall k :: 0 <= k < |r| ==> r[k] !in BadFilenameCharacters
    ensures forall k :: 0 <= k < |s| ==> r[k] == (if s[k] in BadFilenameCharacters then '_' else s[k])
  {
    ReplaceAll(s, BadFilenameCharacters, '_')
  }

  /** The directory text Path.Combine puts before a relative file name. */
  function DirectoryPrefix(directory: string): string
  {
    if directory == [] then ""
    else if directory[|directory| - 1] == '/' then directory
    else directory + "/"
  }

  /** A non-empty sanitised file name never starts with `/`, so it is combined after the directory. */
  lemma CombineSanitised(directory: string, name: string)
    ensures name != [] ==> PathCombine(directory, SanitiseFileName(name)) == DirectoryPrefix(directory) + SanitiseFileName(name)
    ensures name == [] ==> PathCombine(directory, SanitiseFileName(name)) == directory
  {
    var n := SanitiseFileName(name);
    if n != [] {
      assert n[0] != '/';
    }
  }

  /**
   * GetSnapshotFilePathWithExtension: a blank base name is an error; otherwise
   * the directory (empty when null) combined with the sanitised base name and
   * extension.
   */
  function FilePathWithExtension(directory: Option<string>, baseName: Option<string>, extension: string): (r: Result<string>)
    ensures r.Err? <==> IsNullOrWhiteSpace(baseName)
    ensures r.Err? ==> r.error == BlankSnapshotName
    ensures r.Ok? ==> r.value == DirectoryPrefix(directory.GetOr("")) + SanitiseFileName(baseName.value + extension)
  {
    if IsNullOrWhiteSpace(baseName) then Err(BlankSnapshotName)
    else
      CombineSanitised(directory.GetOr(""), baseName.value + extension);
      Ok(PathCombine(directory.GetOr(""), SanitiseFileName(baseName.value + extension)))
  }

  /** SnapshotFilePath: directory, then the sanitised name and snapshot extension. */
  function SnapshotFilePath(c: Config): Result<string>
  {
    FilePathWithExtension(c.directory, c.name, c.snapshotExtension)
  }

  /** The name part of the mismatched-actual file: the snapshot name, then `.` and the group when there is one. */
  function MismatchBaseName(c: Config): string
  {
    c.name.GetOr("") + (if c.group.None? then "" else "." + c.group.value)
  }

  /** MismatchedActualFilePath: directory, then the sanitised name, group and mismatch extension. */
  function MismatchedActualFilePath(c: Config): Result<string>
  {
    FilePathWithExtension(c.directory, Some(MismatchBaseName(c)), c.mismatchedActualExtension)
  }

  /** Two files in the same directory have the same path only when their sanitised names agree. */
  lemma FilePathsInjective(directory: Option<string>, a: Option<string>, x: string, b: Option<string>, y: string)
    requires FilePathWithExtension(directory, a, x).Ok? && FilePathWithExtension(directory, b, y).Ok?
    ensures FilePathWithExtension(directory, a, x) == FilePathWithExtension(directory, b, y) <==>
      SanitiseFileName(a.value + x) == SanitiseFileName(b.value + y)
  {
    var p := DirectoryPrefix(directory.GetOr(""));
    var m, n := SanitiseFileName(a.value + x), SanitiseFileName(b.value + y);
    if p + m == p + n {
      assert m == (p + m)[|p|..] && n == (p + n)[|p|..];
    }
  }

  /** A grouped mismatch file has a path even without a snapshot name. */
  lemma GroupedMismatchPathExists(c: Config)
    requires c.group.Some? && StoredGroup(c.group)
    ensures MismatchedActualFilePath(c).Ok?
  {
    var b := MismatchBaseName(c);
    var g := c.group.value;
    assert b[|c.name.GetOr("")| + 1] == g[0];
  }

  /**
   * With the default extensions, the mismatched-actual file is never the
   * snapshot file, so deleting it cannot delete the snapshot.
   */
  lemma DefaultPathsDiffer(c: Config)
    requires c.snapshotExtension == ".txt" && c.mismatchedActualExtension == ".txt.actual"
    requires SnapshotFilePath(c).Ok?
    ensures MismatchedActualFilePath(c).Ok?
    ensures MismatchedActualFilePath(c).value != SnapshotFilePath(c).value
  {
    var name := c.name.value;
    assert !AllWhiteSpace(MismatchBaseName(c)) by {
      var k :| 0 <= k < |name| && !IsWhiteSpace(name[k]);
      assert MismatchBaseName(c)[k] == name[k];
    }
    FilePathsInjective(c.directory, c.name, ".txt", Some(MismatchBaseName(c)), ".txt.actual");
  }

  // ---- the settings object ---------------------------------------------------

  class SnapshotSettings {
    var name: Option<string>
    /** `_snapshotGroup`, written only through the setter. */
    var group: Option<string>
    var indentJson: bool
    var selectPath: Option<string>
    var includedPaths: seq<string>
    var excludedPaths: seq<string>
    var createMissing: bool
    var forceRefresh: bool
    var directory: Option<string>
    var snapshotExtension: string
    var mismatchedActualExtension: string
    var comparer: Option<Comparer>
    var messageWriter: MessageLog?

    /** The setter keeps the group null or trimmed and non-blank. */
    predicate Valid()
      reads this
    {
      StoredGroup(group)
    }

    function Properties(): Config
      reads this
    {
      Config.Config(name, group, indentJson, selectPath, includedPaths, excludedPaths, createMissing, forceRefresh,
        directory, snapshotExtension, mismatchedActualExtension, comparer)
    }

    constructor (createMissingVariableSet: bool, refreshVariableSet: bool)
      ensures Valid() && Properties() == DefaultConfig(createMissingVariableSet, refreshVariableSet) && messageWriter == null
    {
      name, group, indentJson, selectPath := None, None, true, None;
      includedPaths, excludedPaths := [], [];
      createMissing, forceRefresh := createMissingVariableSet, refreshVariableSet;
      directory, snapshotExtension, mismatchedActualExtension := None, ".txt", ".txt.actual";
      comparer, messageWriter := None, null;
    }

    /** A settings object holding the given property values, as a settings factory makes one. */
    constructor FromConfig(c: Config)
      requires StoredGroup(c.group)
      ensures Valid() && Properties() == c && messageWriter == null
    {
      name, group, indentJson, selectPath := c.name, c.group, c.indentJson, c.selectPath;
      includedPaths, excludedPaths := c.includedPaths, c.excludedPaths;
      createMissing, forceRefresh := c.createMissing, c.forceRefresh;
      directory, snapshotExtension, mismatchedActualExtension := c.directory, c.snapshotExtension, c.mismatchedActualExtension;
      comparer, messageWriter := c.comparer, null;
    }

    /** The SnapshotGroup setter: a blank value is refused and nothing changes; anything else is stored trimmed. */
    method SetSnapshotGroup(value: Option<string>) returns (err: Option<Error>)
      requires Valid()
      modifies this
      ensures Valid()
      ensures GroupSetter(value).Err? ==> err == Some(BlankSnapshotGroup) && Properties() == old(Properties())
      ensures GroupSetter(value).Ok? ==> err == None && Properties() == old(Properties()).(group := GroupSetter(value).value)
      ensures messageWriter == old(messageWriter)
    {
      if value.Some? && IsNullOrWhiteSpace(value) {
        return Some(BlankSnapshotGroup);
      }
      group := if value.None? then None else Some(Trim(value.value));
      return None;
    }

    /**
     * Running a settings initializer: it assigns the properties it computes
     * from the current ones, the group through its setter; a blank group
     * throws and leaves the previous group in place.
     */
    method Apply(initializer: Config -> Config) returns (err: Option<Error>)
      requires Valid()
      modifies this
      ensures Valid()
      ensures Properties() == Initialized(old(Properties()), initializer).0
      ensures err == Initialized(old(Properties()), initializer).1
      ensures messageWriter == old(messageWriter)
    {
      var c := initializer(Properties());
      AssignAllButGroup(c);
      err := SetSnapshotGroup(c.group);
    }

    /** The initializer's plain property assignments: every property but the group takes the given value. */
    method AssignAllButGroup(c: Config)
      requires Valid()
      modifies this
      ensures Valid()
      ensures Properties() == c.(group := old(group)) && messageWriter == old(messageWriter)
    {
      AssignSelection(c);
      AssignStorage(c);
    }

    /** The assignments of the properties that choose what is compared. */
    method AssignSelection(c: Config)
      requires Valid()
      modifies this
      ensures Valid() && messageWriter == old(messageWriter)
      ensures Properties() == old(Properties()).(name := c.name, indentJson := c.indentJson, selectPath := c.selectPath,
        includedPaths := c.includedPaths, excludedPaths := c.excludedPaths)
    {
      name, indentJson, selectPath, includedPaths, excludedPaths := c.name, c.indentJson, c.selectPath, c.includedPaths, c.excludedPaths;
    }

    /** The assignments of the properties that choose the files and the comparer. */
    method AssignStorage(c: Config)
      requires Valid()
      modifies this
      ensures Valid() && messageWriter == old(messageWriter)
      ensures Properties() == old(Properties()).(createMissing := c.createMissing, forceRefresh := c.forceRefresh,
        directory := c.directory, snapshotExtension := c.snapshotExtension,
        mismatchedActualExtension := c.mismatchedActualExtension, comparer := c.comparer)
    {
      createMissing, forceRefresh, directory := c.createMissing, c.forceRefresh, c.directory;
      snapshotExtension, mismatchedActualExtension, comparer := c.snapshotExtension, c.mismatchedActualExtension, c.comparer;
    }
  }

  /** The properties after an initializer runs, and the error its group assignment raises, if any. */
  function Initialized(c: Config, initializer: Config -> Config): (Config, Option<Error>)
  {
    var d := initializer(c);
    var g := GroupSetter(d.group);
    (d.(group := if g.Ok? then g.value else c.group), if g.Ok? then None else Some(g.error))
  }

  /** An initializer that assigns properties but leaves the group as it was succeeds and changes nothing else. */
  lemma InitializerKeepingGroup(c: Config, initializer: Config -> Config)
    requires StoredGroup(c.group) && initializer(c).group == c.group
    ensures Initialized(c, initializer) == (initializer(c), None)
  {
    GroupSetterIdempotent(c.group);
  }

  /**
   * A field of the settings: a JSONPath whose Include and Exclude append it
   * to the included or the excluded list of its settings object.
   */
  class SnapshotField {
    const settings: SnapshotSettings
    const jsonPath: string

    constructor (settings: SnapshotSettings, jsonPath: string)
      ensures this.settings == settings && this.jsonPath == jsonPath
    {
      this.settings := settings;
      this.jsonPath := jsonPath;
    }

    /** Include: the path joins the end of the included list; the field is returned for chaining. */
    method Include() returns (r: SnapshotField)
      modifies settings
      ensures r == this
      ensures settings.Properties() == old(settings.Properties()).(includedPaths := old(settings.includedPaths) + [jsonPath])
      ensures settings.messageWriter == old(settings.messageWriter)
    {
      settings.includedPaths := settings.includedPaths + [jsonPath];
      return this;
    }

    /** Exclude: the path joins the end of the excluded list; the field is returned for chaining. */
    method Exclude() returns (r: SnapshotField)
      modifies settings
      ensures r == this
      ensures settings.Properties() == old(settings.Properties()).(excludedPaths := old(settings.excludedPaths) + [jsonPath])
      ensures settings.messageWriter == old(settings.messageWriter)
    {
      settings.excludedPaths := settings.excludedPaths + [jsonPath];
      return this;
    }
  }
}
