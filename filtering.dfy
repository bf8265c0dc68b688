// The filtering of an actual value before it is compared or stored, in the
// three generations the library carries: the SnapshotValue code of
// Snapshot.SnapshotValue.cs (exclude, then a list of include paths), the
// JToken code of Snapshot.Json.cs (exclude, then one select path) and the
// serializer middleware (the same as the JToken code, then always JSON).

module Filtering {
  import opened Wrappers
  import opened JsonValue
  import opened JsonPathSyntax
  import opened JsonPath
  import opened JsonEdit
  import opened HostValues
  import opened PathFilter
  import opened SnapshotValues
  import opened Settings

  // ---- the SnapshotValue generation -----------------------------------------

  /**
   * The value FilterValue leaves: the exclusions removed first; with no
   * include paths that value itself, otherwise what the include paths select
   * from it, as null, the single match, or an array of the matches.
   */
  function FilterSelected(v: Value, included: seq<string>, excluded: seq<string>): Result<Value>
  {
    match ExcludePaths(v, excluded, WrapperGeneration)
    case Err(e) => Err(e)
    case Ok(w) =>
      if included == [] then Ok(w)
      else
        match SelectIncluded(w, included)
        case Err(e) => Err(e)
        case Ok(selected) => Ok(Unwrap(selected))
  }

  /** ActualSnapshotValue: a null actual is JSON null, untouched by any path; anything else is converted and filtered. */
  function ActualValue(actual: Option<Host>, included: seq<string>, excluded: seq<string>): Result<Value>
  {
    if actual.None? then Ok(Null) else FilterSelected(FromObject(actual.value), included, excluded)
  }

  /** Snapshot.Serialize of a SnapshotValue: a string is written as its bare text, anything else as JSON. */
  function SerializeValue(v: Value): string
  {
    if v.Str? then v.s else Serialize(v)
  }

  /** Snapshot.Serialize writes a string value as its ToString, and anything else as its JSON. */
  lemma SerializeIsToStringForStrings(v: SnapshotValue)
    ensures v.IsString() ==> SerializeValue(v.token) == v.ToString()
    ensures !v.IsString() ==> SerializeValue(v.token) == v.Serialize(false)
  {
  }

  /**
   * FilterValue: the exclusions are removed from the wrapped tree in place;
   * then, when there are include paths, the selection is returned in a new
   * wrapper, and otherwise the same wrapper is returned.
   */
  method FilterValue(value: SnapshotValue, settings: SnapshotSettings) returns (r: Result<SnapshotValue>)
    modifies value
    ensures var f := FilterSelected(old(value.token), settings.includedPaths, settings.excludedPaths);
      (f.Err? ==> r == Err(f.error)) && (f.Ok? ==> r.Ok? && r.value.token == f.value)
    ensures r.Ok? ==> value.token == ExcludePaths(old(value.token), settings.excludedPaths, WrapperGeneration).value
    ensures r.Ok? && settings.includedPaths == [] ==> r.value == value
    ensures r.Ok? && settings.includedPaths != [] ==> fresh(r.value)
  {
    var err := value.RemovePaths(settings.excludedPaths);
    if err.Some? {
      return Err(err.value);
    }
    if settings.includedPaths == [] {
      return Ok(value);
    }
    var selected := SelectIncluded(value.token, settings.includedPaths);
    if selected.Err? {
      return Err(selected.error);
    }
    var tokens := selected.value;
    var s: SnapshotValue;
    if |tokens| == 0 {
      s := CreateNull();
    } else if |tokens| == 1 {
      s := new SnapshotValue(tokens[0]);
    } else {
      s := ArrayToken(tokens);
    }
    return Ok(s);
  }

  /** ActualSnapshotValue: a new wrapper holding the actual value as filtered. */
  method ActualSnapshotValue(actual: Option<Host>, settings: SnapshotSettings) returns (r: Result<SnapshotValue>)
    ensures var a := ActualValue(actual, settings.includedPaths, settings.excludedPaths);
      (a.Err? ==> r == Err(a.error)) && (a.Ok? ==> r.Ok? && fresh(r.value) && r.value.token == a.value)
  {
    if actual.None? {
      var s := CreateNull();
      return Ok(s);
    }
    var s := FromObjectValue(actual.value);
    r := FilterValue(s, settings);
  }

  // ---- properties of the SnapshotValue generation -----------------------------

  /** Filtering fails exactly when an exclude path is not excludable, or an include path does not parse. */
  lemma FilterSelectedOk(v: Value, included: seq<string>, excluded: seq<string>)
    ensures FilterSelected(v, included, excluded).Ok? <==>
      (forall i :: 0 <= i < |excluded| ==> Excludable(excluded[i])) &&
      (forall i :: 0 <= i < |included| ==> ParsePath(included[i]).Some?)
  {
    ResolveExclusionsOk(v, excluded, WrapperGeneration);
    var w := ExcludePaths(v, excluded, WrapperGeneration);
    if w.Ok? {
      SelectIncludedOk(w.value, included);
    }
  }

  /** A null actual is never filtered: even an exclude path that denotes the root raises nothing. */
  lemma NullActualUnfiltered(included: seq<string>, excluded: seq<string>)
    requires exists i :: 0 <= i < |excluded| && ParsePath(excluded[i]) == Some([])
    ensures ActualValue(None, included, excluded) == Ok(Null)
    ensures forall h :: ActualValue(Some(h), included, excluded).Err?
  {
    var i :| 0 <= i < |excluded| && ParsePath(excluded[i]) == Some([]);
    forall h ensures ActualValue(Some(h), included, excluded).Err? {
      RootExclusionRejected(FromObject(h), excluded, i, WrapperGeneration);
    }
  }

  /** With no paths at all the value comes back as it went in. */
  lemma FilterNothing(v: Value)
    ensures FilterSelected(v, [], []) == Ok(v)
  {
    RemoveNoPaths(v, WrapperGeneration);
  }

  /**
   * The include paths are applied to the tree the exclusions left, and their
   * matches are taken in path order: the selection of `ps + qs` is that of
   * `ps` followed by that of `qs`.
   */
  lemma FilterIncludesInOrder(v: Value, ps: seq<string>, qs: seq<string>, excluded: seq<string>)
    requires ExcludePaths(v, excluded, WrapperGeneration).Ok?
    requires var w := ExcludePaths(v, excluded, WrapperGeneration).value;
      SelectIncluded(w, ps).Ok? && SelectIncluded(w, qs).Ok? && ps + qs != []
    ensures var w := ExcludePaths(v, excluded, WrapperGeneration).value;
      FilterSelected(v, ps + qs, excluded) == Ok(Unwrap(SelectIncluded(w, ps).value + SelectIncluded(w, qs).value))
  {
    var w := ExcludePaths(v, excluded, WrapperGeneration).value;
    SelectAllConcat(Lookup(w), ps, qs);
  }

  /** A single include path: no match is JSON null, one match is that node's value, several are an array of them. */
  lemma FilterOnePath(v: Value, p: string)
    requires ParsePath(p).Some?
    ensures var ns := SelectTokens(v, p).value;
      FilterSelected(v, [p], []) == Ok(Unwrap(Values(ns)))
  {
    RemoveNoPaths(v, WrapperGeneration);
    SelectIncludedOne(v, p);
  }

  /** A plain member name is the path of that one member. */
  lemma PlainNamePath(k: string)
    requires PlainName(k) && k != "$"
    ensures ParsePath(k) == Some([[Name(k)]])
  {
    DottedRoundTrip([k], "");
    assert DottedText([k]) + "" == k;
    assert DottedPath([k]) == [[Name(k)]];
  }

  /** A single resolvable exclude path resolves to its own matches. */
  lemma ResolveOne(lookup: string -> Result<seq<Node>>, p: string, g: Generation)
    requires Resolvable(lookup, p)
    ensures ResolveFirst(lookup, [p], 1, g) == Ok(lookup(p).value)
  {
    assert ResolveFirst(lookup, [p], 0, g) == Ok([]);
    assert [] + lookup(p).value == lookup(p).value;
  }

  /** The matches of a member name in an object: that member alone, or nothing. */
  lemma MemberMatches(ms: seq<Member>, k: string)
    requires ParsePath(k) == Some([[Name(k)]])
    ensures SelectTokens(Obj(ms), k).Ok?
    ensures MatchedLocs(SelectTokens(Obj(ms), k).value) == if k in Keys(ms) then {[Key(k)]} else {}
  {
    NameSelects(Obj(ms), k);
  }

  /** Excluding a member by its name removes that member, and leaves an object. */
  lemma ExcludeMember(ms: seq<Member>, k: string, g: Generation)
    requires UniqueKeys(ms) && ParsePath(k) == Some([[Name(k)]])
    ensures ExcludePaths(Obj(ms), [k], g).Ok?
    ensures var w := ExcludePaths(Obj(ms), [k], g).value; w.Obj? && PropertyValue(w, k) == None
  {
    var v := Obj(ms);
    LookupResolvable(v, k, g);
    ResolveOne(Lookup(v), k, g);
    MemberMatches(ms, k);
    var targets := if k in Keys(ms) then {[Key(k)]} else {};
    assert ExcludePaths(v, [k], g) == Ok(Pruned(v, targets));
    MembersAfterPrune(ms, targets, k);
  }

  /**
   * Excluding a member of the object by its name twice: in every one of the
   * three generations the code as written fails with the missing-parent
   * error, where the corrected exclusion removes the member once.
   */
  lemma ExcludeMemberTwice(ms: seq<Member>, k: string, g: Generation)
    requires UniqueKeys(ms) && PlainName(k) && k != "$" && k in Keys(ms)
    ensures ExcludePathsAsWritten(Obj(ms), [k, k], g) == Err(ParentMissing)
    ensures ExcludePaths(Obj(ms), [k, k], g) == ExcludePaths(Obj(ms), [k], g)
  {
    var v := Obj(ms);
    PlainNamePath(k);
    LookupResolvable(v, k, g);
    MemberMatches(ms, k);
    var matches := SelectTokens(v, k).value;
    assert [Key(k)] in MatchedLocs(matches);
    var i :| 0 <= i < |matches| && matches[i].loc == [Key(k)];
    RepeatedPathFails(v, k, g, i);
  }

  /** Exclusion comes before inclusion: including a member that is also excluded selects nothing, so the result is JSON null. */
  lemma ExcludedMemberNotIncluded(ms: seq<Member>, k: string)
    requires UniqueKeys(ms) && PlainName(k) && k != "$"
    ensures FilterSelected(Obj(ms), [k], [k]) == Ok(Null)
  {
    PlainNamePath(k);
    ExcludeMember(ms, k, WrapperGeneration);
    var w := ExcludePaths(Obj(ms), [k], WrapperGeneration).value;
    NameSelects(w, k);
    SelectIncludedOne(w, k);
  }

  // ---- the JToken generation -------------------------------------------------

  /** ApplySelectPath: a null select path yields the root alone, otherwise its matches in order. */
  function ApplySelectPath(v: Value, selectPath: Option<string>): (r: Result<seq<Value>>)
    ensures selectPath.None? ==> r == Ok([v])
    ensures selectPath.Some? ==> (r.Err? <==> ParsePath(selectPath.value).None?)
    ensures selectPath.Some? && r.Ok? ==> r.value == Values(SelectTokens(v, selectPath.value).value)
  {
    if selectPath.None? then Ok([v])
    else
      match SelectTokens(v, selectPath.value)
      case Err(e) => Err(e)
      case Ok(ns) => Ok(Values(ns))
  }

  /** FilterValue of the JToken code: exclusions first, then the select path; no match is no token at all. */
  function FilterJson(v: Value, selectPath: Option<string>, excluded: seq<string>): Result<Option<Value>>
  {
    match ExcludePaths(v, excluded, JTokenGeneration)
    case Err(e) => Err(e)
    case Ok(w) =>
      match ApplySelectPath(w, selectPath)
      case Err(e) => Err(e)
      case Ok(selected) =>
        if |selected| == 0 then Ok(None) else Ok(Some(Unwrap(selected)))
  }

  /** ActualValueAsJson: a null actual is JSON null, untouched by any path. */
  function ActualJson(actual: Option<Host>, selectPath: Option<string>, excluded: seq<string>): Result<Option<Value>>
  {
    if actual.None? then Ok(Some(Null)) else FilterJson(FromObject(actual.value), selectPath, excluded)
  }

  /** Serialize(object) of the JToken code: a string token is its bare text, anything else JSON, and no token at all is `null`. */
  function SerializeJson(v: Option<Value>): string
  {
    if v.Some? && v.value.Str? then v.value.s else Serialize(v.GetOr(Null))
  }

  /** RemoveExcludedPaths: every exclude path resolved against the untouched tree, then the matches detached. */
  method RemoveExcludedPaths(root: Value, settings: SnapshotSettings) returns (r: Result<Value>)
    ensures r == ExcludePaths(root, settings.excludedPaths, JTokenGeneration)
  {
    r := RemoveMatches(root, settings.excludedPaths, JTokenGeneration);
  }

  /** FilterValue of the JToken code, on a token it may change. */
  method FilterJsonValue(value: Value, settings: SnapshotSettings) returns (r: Result<Option<Value>>)
    ensures r == FilterJson(value, settings.selectPath, settings.excludedPaths)
  {
    var pruned := RemoveExcludedPaths(value, settings);
    if pruned.Err? {
      return Err(pruned.error);
    }
    var selected := ApplySelectPath(pruned.value, settings.selectPath);
    if selected.Err? {
      return Err(selected.error);
    }
    var tokens := selected.value;
    if |tokens| == 0 {
      return Ok(None);
    } else if |tokens| == 1 {
      return Ok(Some(tokens[0]));
    }
    return Ok(Some(Arr(tokens)));
  }

  // ---- properties of the JToken generation and relations between the two -----

  /** With a null select path the JToken code keeps the whole pruned tree. */
  lemma NullSelectPathKeepsRoot(v: Value, excluded: seq<string>)
    requires ExcludePaths(v, excluded, JTokenGeneration).Ok?
    ensures FilterJson(v, None, excluded) == Ok(Some(ExcludePaths(v, excluded, JTokenGeneration).value))
  {
  }

  /**
   * One select path in the JToken code and one include path in the
   * SnapshotValue code filter alike, except that the older code gives no
   * token at all where the newer one gives JSON null, and that they name a
   * root exclusion differently.
   */
  lemma GenerationsFilterAlike(v: Value, p: string, excluded: seq<string>)
    requires ParsePath(p).Some?
    ensures FilterJson(v, Some(p), excluded).Ok? <==> FilterSelected(v, [p], excluded).Ok?
    ensures FilterJson(v, Some(p), excluded).Ok? ==>
      FilterSelected(v, [p], excluded).value == FilterJson(v, Some(p), excluded).value.GetOr(Null)
  {
    GenerationsAgree(Lookup(v), excluded, |excluded|, JTokenGeneration, WrapperGeneration);
    var w := ExcludePaths(v, excluded, JTokenGeneration);
    if w.Ok? {
      SelectIncludedOne(w.value, p);
    }
  }

  /** A select path that matches nothing: the JToken code yields no token, the SnapshotValue code JSON null. */
  lemma EmptySelectionDiffers(v: Value, p: string, excluded: seq<string>)
    requires ParsePath(p).Some? && ExcludePaths(v, excluded, JTokenGeneration).Ok?
    requires SelectTokens(ExcludePaths(v, excluded, JTokenGeneration).value, p).value == []
    ensures FilterJson(v, Some(p), excluded) == Ok(None)
    ensures FilterSelected(v, [p], excluded) == Ok(Null)
  {
    GenerationsFilterAlike(v, p, excluded);
  }

  /** Both serializers write a string bare and anything else as JSON; the older one writes a missing token as `null`. */
  lemma SerializersAgree(v: Value)
    ensures SerializeJson(Some(v)) == SerializeValue(v)
    ensures SerializeJson(None) == "null"
    ensures !v.Str? ==> SerializeValue(v) == Serialize(v)
  {
  }
}
