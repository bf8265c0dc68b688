// Snapshot.CompareTo and the file handling behind it: read the snapshot (or
// one group of a grouped snapshot file), filter the actual value, compare,
// and then refresh or create the snapshot file, or write a mismatched-actual
// file beside it, telling the settings' message writer what was written.
//
// The specification functions work on a World: the files, the once-only tip
// flags and the message writer's lines. The methods work on the FileStore,
// TipFlags and MessageLog objects and are proved to change them exactly as
// the functions say.

module Engine {
  import opened Wrappers
  import opened Text
  import opened JsonValue
  import opened HostValues
  import opened Comparers
  import opened Messages
  import opened Settings
  import opened SnapshotValues
  import opened Filtering
  import opened Files

  /** What a comparison reads and changes besides its arguments. */
  datatype World = World(files: map<string, string>, tips: Tips, log: seq<Notice>)

  /** The world the objects describe; a null writer holds no lines. */
  function WorldOf(store: FileStore, tips: TipFlags, writer: MessageLog?): World
    reads store, tips, writer
  {
    World(store.files, tips.State(), if writer == null then [] else writer.lines)
  }

  /** The settings' property values, or nothing for a null reference. */
  function PropertiesOf(settings: SnapshotSettings?): Option<Config>
    reads settings
  {
    if settings == null then None else Some(settings.Properties())
  }

  /** The message writer of a settings object, null for null settings. */
  function WriterOf(settings: SnapshotSettings?): MessageLog?
    reads settings
  {
    if settings == null then null else settings.messageWriter
  }

  /** A message and, while its flag is down, its tip, as Announce emits them. */
  function Noticed(w: World, hasWriter: bool, message: Notice, flag: Flag, tip: Notice): (r: World)
    ensures r.files == w.files && r.tips == Raised(w.tips, flag)
    ensures r.log == WithTip(w.log, hasWriter, message, Shown(w.tips, flag), tip).0
  {
    w.(log := WithTip(w.log, hasWriter, message, Shown(w.tips, flag), tip).0, tips := Raised(w.tips, flag))
  }

  // ---- reading ----------------------------------------------------------------

  /**
   * ReadSnapshotFromFile, once the snapshot file path is known: the file is
   * used when it exists, unless a forced refresh of an ungrouped snapshot is
   * going to overwrite it anyway; as text with one trailing newline removed,
   * or parsed as JSON. A file that is missing and that nothing will create
   * draws a warning, and the first such warning a tip.
   */
  function ReadFrom(path: string, c: Config, readAsString: bool, parse: string -> Option<Value>, hasWriter: bool, w: World)
    : (r: (Result<Option<Value>>, World))
    ensures r.1.files == w.files
    ensures r.0.Err? ==> r.0.error == UnparsableSnapshot(path)
    ensures r.0.Ok? && r.0.value.Some? <==>
      path in w.files && (!c.forceRefresh || c.group.Some?) && (readAsString || parse(w.files[path]).Some?)
    ensures r.0 == Ok(None) && !c.createMissing && !c.forceRefresh ==>
      r.1 == Noticed(w, hasWriter, MissingSnapshotWarning(path), RerunFlag, RerunTip)
    ensures r.1 != w ==> r.0 == Ok(None) && !c.createMissing && !c.forceRefresh
  {
    if path in w.files && (!c.forceRefresh || c.group.Some?) then
      var contents := w.files[path];
      if readAsString then (Ok(Some(Str(TrimNewLine(contents)))), w)
      else if parse(contents).None? then (Err(UnparsableSnapshot(path)), w)
      else (Ok(Some(parse(contents).value)), w)
    else if !c.createMissing && !c.forceRefresh then
      (Ok(None), Noticed(w, hasWriter, MissingSnapshotWarning(path), RerunFlag, RerunTip))
    else (Ok(None), w)
  }

  /** ReadSnapshotFromFile: the snapshot file path is derived first, and its error raised. */
  function ReadSnapshot(c: Config, readAsString: bool, parse: string -> Option<Value>, hasWriter: bool, w: World)
    : (Result<Option<Value>>, World)
  {
    match SnapshotFilePath(c)
    case Err(e) => (Err(e), w)
    case Ok(path) => ReadFrom(path, c, readAsString, parse, hasWriter, w)
  }

  /**
   * The relation GetSnapshottedValue establishes between the value to compare
   * and the group file it came from: both absent, or the file is an object and
   * the value is that object's member for the group, if it has one.
   */
  predicate GroupPair(group: string, snapshotted: Option<Value>, complete: Option<Value>)
  {
    (complete.None? && snapshotted.None?) ||
    (complete.Some? && complete.value.Obj? && snapshotted == PropertyValue(complete.value, group))
  }

  /**
   * GetSnapshottedValue: the snapshotted value to compare and the complete
   * file contents; the same value twice without a group; with a group, the
   * group's member of the file, which must then be an object.
   */
  function GetSnapshotted(c: Config, readAsString: bool, parse: string -> Option<Value>, hasWriter: bool, w: World)
    : (r: (Result<(Option<Value>, Option<Value>)>, World))
    ensures r.1.files == w.files
    ensures r.0.Ok? && c.group.None? ==> r.0.value.0 == r.0.value.1
    ensures r.0.Ok? && c.group.Some? ==> GroupPair(c.group.value, r.0.value.0, r.0.value.1)
    ensures r.0.Ok? ==> ReadSnapshot(c, readAsString, parse, hasWriter, w).0 == Ok(r.0.value.1)
  {
    match SnapshotFilePath(c)
    case Err(e) => (Err(e), w)
    case Ok(path) =>
      var read := ReadFrom(path, c, readAsString, parse, hasWriter, w);
      (match read.0
       case Err(e) => Err(e)
       case Ok(snapshot) =>
         if c.group.None? || snapshot.None? then Ok((snapshot, snapshot))
         else if !snapshot.value.Obj? then Err(NotASnapshotGroup(path))
         else Ok((PropertyValue(snapshot.value, c.group.value), snapshot)),
       read.1)
  }

  // ---- writing ----------------------------------------------------------------

  /** Looking a key up in members whose keys, position by position, are those of another list gives the same position. */
  lemma IndexOfSameKeys(ms: seq<Member>, ns: seq<Member>, k: string)
    requires |ms| == |ns| && forall i :: 0 <= i < |ms| ==> ms[i].key == ns[i].key
    ensures IndexOfKey(ms, k) == IndexOfKey(ns, k)
  {
  }

  /** Replacing the value of member `k` changes what `k` looks up and nothing else. */
  lemma ReplaceMemberLookup(ms: seq<Member>, k: string, x: Value, j: string)
    ensures PropertyValue(Obj(ReplaceMember(ms, k, x)), j) ==
      if j == k && k in Keys(ms) then Some(x) else PropertyValue(Obj(ms), j)
  {
    var rs := ReplaceMember(ms, k, x);
    IndexOfSameKeys(ms, rs, j);
  }

  /** Members with distinct well-formed values stay well formed when one value is replaced by a well-formed one. */
  lemma ReplaceMemberWellFormed(ms: seq<Member>, k: string, x: Value)
    requires WellFormed(Obj(ms)) && WellFormed(x)
    ensures WellFormed(Obj(ReplaceMember(ms, k, x)))
  {
    var rs := ReplaceMember(ms, k, x);
    assert forall i :: 0 <= i < |rs| ==> rs[i].value == ms[i].value || rs[i].value == x;
  }

  /** A member added under a new key keeps the object well formed. */
  lemma AddMemberWellFormed(v: Value, k: string, x: Value)
    requires WellFormed(v) && WellFormed(x) && AddMember(v, k, x).Ok?
    ensures WellFormed(AddMember(v, k, x).value)
  {
    var ms := AddMember(v, k, x).value.members;
    assert ms == v.members + [Member(k, x)];
    assert forall i :: 0 <= i < |v.members| ==> ms[i] == v.members[i];
  }

  /**
   * The object written to a grouped file: to the mismatched-actual file, an
   * object holding only this group; to the snapshot file, the existing group
   * file (or a new object) with this group's member replaced or added.
   */
  function GroupFile(toMismatch: bool, group: string, actual: Value, snapshotted: Option<Value>, complete: Option<Value>)
    : (r: Value)
    requires GroupPair(group, snapshotted, complete)
    ensures r.Obj?
    ensures toMismatch ==> r == Obj([Member(group, actual)])
  {
    if toMismatch then
      AddMember(Obj([]), group, actual).value
    else
      var base := if complete.Some? && complete.value.Obj? then complete.value else Obj([]);
      if snapshotted.Some? then Obj(ReplaceMember(base.members, group, actual))
      else AddMember(base, group, actual).value
  }

  /**
   * A grouped file holds the actual value under its group, and every other
   * group of the existing file as it was; a new file holds no other group.
   */
  lemma GroupFileKeepsOtherGroups(toMismatch: bool, group: string, actual: Value, snapshotted: Option<Value>, complete: Option<Value>)
    requires GroupPair(group, snapshotted, complete)
    ensures var r := GroupFile(toMismatch, group, actual, snapshotted, complete);
      PropertyValue(r, group) == Some(actual) &&
      (!toMismatch && complete.Some? ==> forall j :: j != group ==> PropertyValue(r, j) == PropertyValue(complete.value, j)) &&
      (toMismatch || complete.None? ==> forall j :: j != group ==> PropertyValue(r, j) == None)
  {
    var r := GroupFile(toMismatch, group, actual, snapshotted, complete);
    var base := if toMismatch || complete.None? then Obj([]) else complete.value;
    if !toMismatch && snapshotted.Some? {
      forall j ensures PropertyValue(r, j) == if j == group then Some(actual) else PropertyValue(base, j) {
        ReplaceMemberLookup(base.members, group, actual, j);
      }
    }
  }

  /** A grouped file is well formed when the actual value and the existing file are. */
  lemma GroupFileWellFormed(toMismatch: bool, group: string, actual: Value, snapshotted: Option<Value>, complete: Option<Value>)
    requires GroupPair(group, snapshotted, complete)
    requires WellFormed(actual) && (complete.Some? ==> WellFormed(complete.value))
    ensures WellFormed(GroupFile(toMismatch, group, actual, snapshotted, complete))
  {
    var base := if toMismatch || complete.None? then Obj([]) else complete.value;
    if !toMismatch && snapshotted.Some? {
      ReplaceMemberWellFormed(base.members, group, actual);
    } else {
      AddMemberWellFormed(base, group, actual);
    }
  }

  /** The text written to a file: the value serialized (an ungrouped string bare), then a newline. */
  function FileContents(toMismatch: bool, group: Option<string>, actual: Value, snapshotted: Option<Value>, complete: Option<Value>)
    : string
    requires group.Some? ==> GroupPair(group.value, snapshotted, complete)
  {
    (if group.None? then SerializeValue(actual) else SerializeValue(GroupFile(toMismatch, group.value, actual, snapshotted, complete)))
    + NewLine
  }

  /** When a comparison stores the actual value as the snapshot: always on a forced refresh, and when creating a missing one. */
  predicate Refreshes(c: Config, snapshotted: Option<Value>)
  {
    c.forceRefresh || (c.createMissing && snapshotted.None?)
  }

  /**
   * WriteSnapshotIfRequired: any mismatched-actual file is deleted; then the
   * snapshot file is written when the comparison refreshes it, or else the
   * mismatched-actual file when the comparison failed, each with its message
   * and, the first time, its tip.
   */
  function WriteIfRequired(result: bool, actual: Value, snapshotted: Option<Value>, complete: Option<Value>, c: Config,
                           hasWriter: bool, w: World): (Option<Error>, World)
    requires c.group.Some? ==> GroupPair(c.group.value, snapshotted, complete)
  {
    match MismatchedActualFilePath(c)
    case Err(e) => (Some(e), w)
    case Ok(mismatch) =>
      WriteChosen(result, actual, snapshotted, complete, c, mismatch, hasWriter, w.(files := w.files - {mismatch}))
  }

  /** After the mismatched-actual file is gone: the refreshed snapshot, else the mismatched actual on a failed comparison, else nothing. */
  function WriteChosen(result: bool, actual: Value, snapshotted: Option<Value>, complete: Option<Value>, c: Config,
                       mismatch: string, hasWriter: bool, w: World): (Option<Error>, World)
    requires c.group.Some? ==> GroupPair(c.group.value, snapshotted, complete)
  {
    if Refreshes(c, snapshotted) then RefreshWrite(actual, snapshotted, complete, c, mismatch, hasWriter, w)
    else if !result then (None, MismatchWrite(actual, snapshotted, complete, c, mismatch, hasWriter, w))
    else (None, w)
  }

  /** The snapshot file written with the actual value, announced first. */
  function RefreshWrite(actual: Value, snapshotted: Option<Value>, complete: Option<Value>, c: Config, mismatch: string,
                        hasWriter: bool, w: World): (Option<Error>, World)
    requires c.group.Some? ==> GroupPair(c.group.value, snapshotted, complete)
  {
    match SnapshotFilePath(c)
    case Err(e) => (Some(e), w)
    case Ok(path) =>
      var told := Noticed(w, hasWriter, SnapshotWritten(path), NewFileFlag, RefreshedReviewTip);
      (None, told.(files := told.files[path := FileContents(path == mismatch, c.group, actual, snapshotted, complete)]))
  }

  /** The mismatched-actual file written with the actual value, announced first. */
  function MismatchWrite(actual: Value, snapshotted: Option<Value>, complete: Option<Value>, c: Config, mismatch: string,
                         hasWriter: bool, w: World): World
    requires c.group.Some? ==> GroupPair(c.group.value, snapshotted, complete)
  {
    var told := Noticed(w, hasWriter, MismatchWritten(mismatch), MismatchFlag, MismatchReviewTip);
    told.(files := told.files[mismatch := FileContents(true, c.group, actual, snapshotted, complete)])
  }

  // ---- the comparison -------------------------------------------------------------

  /** The verdict: true whenever the snapshot is refreshed, otherwise the comparer's (the default one when none is set). */
  predicate Verdict(c: Config, actual: Value, snapshotted: Option<Value>)
  {
    Refreshes(c, snapshotted) || CompareWith(c.comparer, actual, snapshotted)
  }

  /** The comparison and its writes, once the snapshot has been read and the actual value filtered. */
  function Conclude(c: Config, actual: Value, pair: (Option<Value>, Option<Value>), hasWriter: bool, w: World): (Result<bool>, World)
    requires c.group.Some? ==> GroupPair(c.group.value, pair.0, pair.1)
  {
    var result := Verdict(c, actual, pair.0);
    var written := WriteIfRequired(result, actual, pair.0, pair.1, c, hasWriter, w);
    if written.0.Some? then (Err(written.0.value), written.1) else (Ok(result), written.1)
  }

  /** The plain-text read as written: `actual is string || actual is Guid`, for an ungrouped snapshot. */
  predicate RawAsWritten(c: Config, actual: Option<Host>)
  {
    c.group.None? && actual.Some? && IsStringLike(actual.value)
  }

  /**
   * The plain-text read as the model has it: an ungrouped snapshot is read as
   * text exactly when the filtered actual is a string, which is how such a
   * value is written; when filtering fails, as written.
   */
  predicate RawCorrected(c: Config, actual: Option<Host>, filtered: Result<Value>)
  {
    if filtered.Ok? then c.group.None? && filtered.value.Str? else RawAsWritten(c, actual)
  }

  /**
   * The body of CompareTo once the plain-text read is decided: the snapshot is
   * read first, then a filtering error is raised, then the comparison is
   * concluded.
   */
  function Compared(c: Config, filtered: Result<Value>, readAsString: bool, parse: string -> Option<Value>,
                    hasWriter: bool, w: World): (Result<bool>, World)
  {
    var read := GetSnapshotted(c, readAsString, parse, hasWriter, w);
    match read.0
    case Err(e) => (Err(e), read.1)
    case Ok(pair) =>
      match filtered
      case Err(e) => (Err(e), read.1)
      case Ok(a) => Conclude(c, a, pair, hasWriter, read.1)
  }

  /** CompareTo as the model has it: null settings are refused; the read is decided by RawCorrected. */
  function CompareCorrected(actual: Option<Host>, settings: Option<Config>, parse: string -> Option<Value>, hasWriter: bool, w: World)
    : (Result<bool>, World)
  {
    if settings.None? then (Err(ArgumentNull("settings")), w)
    else
      var c := settings.value;
      var filtered := ActualValue(actual, c.includedPaths, c.excludedPaths);
      Compared(c, filtered, RawCorrected(c, actual, filtered), parse, hasWriter, w)
  }

  /** CompareTo as written: the read is decided by RawAsWritten. */
  function CompareAsWritten(actual: Option<Host>, settings: Option<Config>, parse: string -> Option<Value>, hasWriter: bool, w: World)
    : (Result<bool>, World)
  {
    if settings.None? then (Err(ArgumentNull("settings")), w)
    else
      var c := settings.value;
      Compared(c, ActualValue(actual, c.includedPaths, c.excludedPaths), RawAsWritten(c, actual), parse, hasWriter, w)
  }


  // ---- the methods ------------------------------------------------------------------

  /** ReadSnapshotFromFile. */
  method ReadSnapshotFromFile(settings: SnapshotSettings, readAsString: bool, parse: string -> Option<Value>,
                              store: FileStore, tips: TipFlags) returns (r: Result<Option<Value>>)
    modifies tips, settings.messageWriter
    ensures (r, WorldOf(store, tips, settings.messageWriter)) ==
      ReadSnapshot(settings.Properties(), readAsString, parse, settings.messageWriter != null, old(WorldOf(store, tips, settings.messageWriter)))
  {
    var snapshotPath := SnapshotFilePath(settings.Properties());
    if snapshotPath.Err? {
      return Err(snapshotPath.error);
    }
    var path := snapshotPath.value;
    if store.Exists(path) && (!settings.forceRefresh || settings.group.Some?) {
      var contents := store.ReadAllText(path);
      if readAsString {
        return Ok(Some(Str(TrimNewLine(contents))));
      }
      var parsed := parse(contents);
      if parsed.None? {
        return Err(UnparsableSnapshot(path));
      }
      return Ok(Some(parsed.value));
    }
    if !settings.createMissing && !settings.forceRefresh {
      Announce(settings.messageWriter, tips, MissingSnapshotWarning(path), RerunFlag, RerunTip);
    }
    return Ok(None);
  }

  /** GetSnapshottedValue: the value to compare, and the complete snapshot it came from. */
  method GetSnapshottedValue(settings: SnapshotSettings, readAsString: bool, parse: string -> Option<Value>,
                             store: FileStore, tips: TipFlags) returns (r: Result<(Option<Value>, Option<Value>)>)
    modifies tips, settings.messageWriter
    ensures (r, WorldOf(store, tips, settings.messageWriter)) ==
      GetSnapshotted(settings.Properties(), readAsString, parse, settings.messageWriter != null, old(WorldOf(store, tips, settings.messageWriter)))
  {
    var snapshot := ReadSnapshotFromFile(settings, readAsString, parse, store, tips);
    if snapshot.Err? {
      return Err(snapshot.error);
    }
    if settings.group.None? || snapshot.value.None? {
      return Ok((snapshot.value, snapshot.value));
    }
    var o := snapshot.value.value;
    if !o.Obj? {
      return Err(NotASnapshotGroup(SnapshotFilePath(settings.Properties()).value));
    }
    return Ok((PropertyValue(o, settings.group.value), Some(o)));
  }

  /** WriteValueToFile: the text and a newline, replacing whatever the file held. */
  method WriteValueToFile(value: string, filePath: string, store: FileStore)
    modifies store
    ensures store.files == old(store.files)[filePath := value + NewLine]
  {
    store.WriteAllText(filePath, value + NewLine);
  }

  /**
   * The last step of WriteSnapshotIfRequired: the actual value, or the group
   * file holding it, serialized into the chosen file.
   */
  method WriteActualValue(fileToWrite: string, toMismatch: bool, actual: Value, snapshotted: Option<Value>, complete: Option<Value>,
                          group: Option<string>, store: FileStore)
    requires group.Some? ==> GroupPair(group.value, snapshotted, complete)
    modifies store
    ensures store.files == old(store.files)[fileToWrite := FileContents(toMismatch, group, actual, snapshotted, complete)]
  {
    if group.None? {
      WriteValueToFile(SerializeValue(actual), fileToWrite, store);
      return;
    }
    var jsonToWrite: SnapshotValue;
    if toMismatch {
      jsonToWrite := CreateObject();
      var _ := jsonToWrite.Add(group.value, actual);
    } else {
      jsonToWrite := new SnapshotValue(if complete.Some? && complete.value.Obj? then complete.value else Obj([]));
      if snapshotted.Some? {
        jsonToWrite.ReplaceProperty(group.value, actual);
      } else {
        var _ := jsonToWrite.Add(group.value, actual);
      }
    }
    WriteValueToFile(SerializeValue(jsonToWrite.token), fileToWrite, store);
  }

  /** The first step of WriteSnapshotIfRequired: the mismatched-actual file is deleted if it exists. */
  method DeleteMismatchFile(c: Config, store: FileStore) returns (mismatch: Result<string>)
    modifies store
    ensures mismatch == MismatchedActualFilePath(c)
    ensures mismatch.Err? ==> store.files == old(store.files)
    ensures mismatch.Ok? ==> store.files == old(store.files) - {mismatch.value}
  {
    mismatch := MismatchedActualFilePath(c);
    if mismatch.Err? {
      return;
    }
    if store.Exists(mismatch.value) {
      store.Delete(mismatch.value);
    } else {
      assert store.files - {mismatch.value} == store.files;
    }
  }

  /** WriteSnapshotIfRequired. */
  method WriteSnapshotIfRequired(result: bool, actual: Value, snapshotted: Option<Value>, complete: Option<Value>,
                                 settings: SnapshotSettings, store: FileStore, tips: TipFlags) returns (err: Option<Error>)
    requires settings.group.Some? ==> GroupPair(settings.group.value, snapshotted, complete)
    modifies store, tips, settings.messageWriter
    ensures (err, WorldOf(store, tips, settings.messageWriter)) ==
      WriteIfRequired(result, actual, snapshotted, complete, settings.Properties(), settings.messageWriter != null,
        old(WorldOf(store, tips, settings.messageWriter)))
  {
    err := WriteFiles(result, actual, snapshotted, complete, settings.Properties(), settings.messageWriter, store, tips);
  }

  method WriteFiles(result: bool, actual: Value, snapshotted: Option<Value>, complete: Option<Value>,
                    c: Config, writer: MessageLog?, store: FileStore, tips: TipFlags) returns (err: Option<Error>)
    requires c.group.Some? ==> GroupPair(c.group.value, snapshotted, complete)
    modifies store, tips, writer
    ensures (err, WorldOf(store, tips, writer)) ==
      WriteIfRequired(result, actual, snapshotted, complete, c, writer != null, old(WorldOf(store, tips, writer)))
  {
    var mismatch := DeleteMismatchFile(c, store);
    if mismatch.Err? {
      err := Some(mismatch.error);
    } else {
      err := WriteChosenFile(result, actual, snapshotted, complete, c, writer, mismatch.value, store, tips);
    }
  }

  /**
   * The file to write, if any, is chosen in the order of the source: a
   * refreshed snapshot first, then a mismatched actual.
   */
  method WriteChosenFile(result: bool, actual: Value, snapshotted: Option<Value>, complete: Option<Value>, c: Config,
                         writer: MessageLog?, mismatch: string, store: FileStore, tips: TipFlags) returns (err: Option<Error>)
    requires c.group.Some? ==> GroupPair(c.group.value, snapshotted, complete)
    modifies store, tips, writer
    ensures (err, WorldOf(store, tips, writer)) ==
      WriteChosen(result, actual, snapshotted, complete, c, mismatch, writer != null, old(WorldOf(store, tips, writer)))
  {
    if c.forceRefresh || (c.createMissing && snapshotted.None?) {
      err := RefreshSnapshotFile(actual, snapshotted, complete, c, writer, mismatch, store, tips);
    } else if !result {
      WriteMismatchFile(actual, snapshotted, complete, c, writer, mismatch, store, tips);
      err := None;
    } else {
      err := None;
    }
  }

  /** The refresh branch of WriteSnapshotIfRequired. */
  method RefreshSnapshotFile(actual: Value, snapshotted: Option<Value>, complete: Option<Value>, c: Config, writer: MessageLog?,
                             mismatch: string, store: FileStore, tips: TipFlags) returns (err: Option<Error>)
    requires c.group.Some? ==> GroupPair(c.group.value, snapshotted, complete)
    modifies store, tips, writer
    ensures (err, WorldOf(store, tips, writer)) ==
      RefreshWrite(actual, snapshotted, complete, c, mismatch, writer != null, old(WorldOf(store, tips, writer)))
  {
    var snapshotPath := SnapshotFilePath(c);
    if snapshotPath.Err? {
      return Some(snapshotPath.error);
    }
    var fileToWrite := snapshotPath.value;
    Announce(writer, tips, SnapshotWritten(fileToWrite), NewFileFlag, RefreshedReviewTip);
    WriteActualValue(fileToWrite, fileToWrite == mismatch, actual, snapshotted, complete, c.group, store);
    return None;
  }

  /** The mismatch branch of WriteSnapshotIfRequired. */
  method WriteMismatchFile(actual: Value, snapshotted: Option<Value>, complete: Option<Value>, c: Config, writer: MessageLog?,
                           mismatch: string, store: FileStore, tips: TipFlags)
    requires c.group.Some? ==> GroupPair(c.group.value, snapshotted, complete)
    modifies store, tips, writer
    ensures WorldOf(store, tips, writer) ==
      MismatchWrite(actual, snapshotted, complete, c, mismatch, writer != null, old(WorldOf(store, tips, writer)))
  {
    Announce(writer, tips, MismatchWritten(mismatch), MismatchFlag, MismatchReviewTip);
    WriteActualValue(mismatch, true, actual, snapshotted, complete, c.group, store);
  }

  /**
   * CompareTo: whether the actual value matches its snapshot, with the
   * snapshot and mismatched-actual files written as the settings require.
   */
  method CompareTo(actual: Option<Host>, settings: SnapshotSettings?, parse: string -> Option<Value>,
                   store: FileStore, tips: TipFlags) returns (r: Result<bool>)
    modifies store, tips, WriterOf(settings)
    ensures (r, WorldOf(store, tips, WriterOf(settings))) ==
      CompareCorrected(actual, PropertiesOf(settings), parse, WriterOf(settings) != null, old(WorldOf(store, tips, WriterOf(settings))))
  {
    if settings == null {
      return Err(ArgumentNull("settings"));
    }
    var filtered := ActualSnapshotValue(actual, settings);
    var readAsString := if filtered.Ok? then settings.group.None? && filtered.value.IsString()
      else settings.group.None? && actual.Some? && IsStringLike(actual.value);
    ghost var f := ActualValue(actual, settings.includedPaths, settings.excludedPaths);
    assert readAsString == RawCorrected(settings.Properties(), actual, f);
    r := CompareFiltered(filtered, f, readAsString, settings, parse, store, tips);
  }

  /** The rest of CompareTo once the actual value is filtered: the snapshot is read, then the filter's error raised or the comparison made. */
  method CompareFiltered(filtered: Result<SnapshotValue>, ghost f: Result<Value>, readAsString: bool, settings: SnapshotSettings,
                         parse: string -> Option<Value>, store: FileStore, tips: TipFlags) returns (r: Result<bool>)
    requires f.Err? ==> filtered == Err(f.error)
    requires f.Ok? ==> filtered.Ok? && filtered.value.token == f.value
    modifies store, tips, settings.messageWriter
    ensures (r, WorldOf(store, tips, settings.messageWriter)) ==
      Compared(settings.Properties(), f, readAsString, parse, settings.messageWriter != null, old(WorldOf(store, tips, settings.messageWriter)))
  {
    var snap := GetSnapshottedValue(settings, readAsString, parse, store, tips);
    if snap.Err? {
      return Err(snap.error);
    }
    if filtered.Err? {
      return Err(filtered.error);
    }
    r := ConcludeComparison(filtered.value.token, snap.value, settings, store, tips);
  }

  /** The verdict, then the writes it calls for; a write's error replaces the verdict. */
  method ConcludeComparison(actual: Value, pair: (Option<Value>, Option<Value>), settings: SnapshotSettings,
                            store: FileStore, tips: TipFlags) returns (r: Result<bool>)
    requires settings.group.Some? ==> GroupPair(settings.group.value, pair.0, pair.1)
    modifies store, tips, settings.messageWriter
    ensures (r, WorldOf(store, tips, settings.messageWriter)) ==
      Conclude(settings.Properties(), actual, pair, settings.messageWriter != null, old(WorldOf(store, tips, settings.messageWriter)))
  {
    var result := Verdict(settings.Properties(), actual, pair.0);
    var err := WriteSnapshotIfRequired(result, actual, pair.0, pair.1, settings, store, tips);
    if err.Some? {
      return Err(err.value);
    }
    return Ok(result);
  }
}
