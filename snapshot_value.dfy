// SnapshotValue: the wrapper around one JSON token tree. The tree is held in
// a mutable field; removal of excluded paths, adding a member and replacing
// a member change it in place, the rest are queries.

module SnapshotValues {
  import opened Wrappers
  import opened JsonValue
  import opened JsonPathSyntax
  import opened JsonPath
  import opened JsonEdit
  import opened HostValues
  import opened PathFilter
  import Text

  class SnapshotValue {
    var token: Value

    constructor (t: Value)
      ensures token == t
    {
      token := t;
    }

    /** `jToken is JObject`. */
    predicate IsObject()
      reads this
    {
      token.Obj?
    }

    /** A JValue of string type; a Guid converted by FromObject is one. */
    predicate IsString()
      reads this
    {
      token.Str?
    }

    /** JsonConvert.SerializeObject of the token, always JSON (a string is quoted). */
    function Serialize(indented: bool): (r: string)
      reads this
      ensures token.Str? ==> r == Quote(token.s)
      ensures !token.Str? ==> r == JsonValue.Serialize(token)
    {
      JsonValue.Serialize(token)
    }

    /**
     * JToken.ToString(): a JValue gives the text of the value it holds (empty
     * for null, True or False for a Boolean, the decimal digits of a number,
     * the string itself); an array or object gives its JSON.
     */
    function ToString(): (r: string)
      reads this
      ensures token.Null? ==> r == ""
      ensures token.Bool? ==> r == if token.b then "True" else "False"
      ensures token.Number? ==> r == Text.IntToString(token.n)
      ensures token.Str? ==> r == token.s
      ensures token.Arr? || token.Obj? ==> r == Serialize(true)
    {
      match token
      case Null => ""
      case Bool(b) => if b then "True" else "False"
      case Number(n) => Text.IntToString(n)
      case Str(s) => s
      case _ => JsonValue.Serialize(token)
    }

    /** The member value named `name`, when the token is an object that has one. */
    function PropertyValue(name: string): (r: Option<Value>)
      reads this
      ensures r.Some? <==> token.Obj? && name in Keys(token.members)
      ensures r.Some? ==> exists i :: 0 <= i < |token.members| && token.members[i] == Member(name, r.value)
    {
      JsonValue.PropertyValue(token, name)
    }

    /** The tokens `selectPath` matches, `$` (the root alone) when it is null. */
    function SelectTokens(selectPath: Option<string>): (r: Result<seq<Value>>)
      reads this
      ensures r.Err? <==> ParsePath(selectPath.GetOr("$")).None?
      ensures r.Ok? ==> r.value == Values(JsonPath.SelectTokens(token, selectPath.GetOr("$")).value)
    {
      match JsonPath.SelectTokens(token, selectPath.GetOr("$"))
      case Err(e) => Err(e)
      case Ok(ns) => Ok(Values(ns))
    }

    /** Adding a member: only an object accepts one, and only under a new key. */
    method Add(propertyName: string, value: Value) returns (err: Option<Error>)
      modifies this
      ensures !old(token).Obj? ==> err == Some(AddToNonObject)
      ensures AddMember(old(token), propertyName, value).Err? ==> err == Some(AddMember(old(token), propertyName, value).error) && token == old(token)
      ensures AddMember(old(token), propertyName, value).Ok? ==> err == None && token == AddMember(old(token), propertyName, value).value
    {
      var added := AddMember(token, propertyName, value);
      if added.Err? {
        return Some(added.error);
      }
      token := added.value;
      return None;
    }

    /** Replacing the value of an existing member, in place; every other member is kept where it is. */
    method ReplaceProperty(propertyName: string, value: Value)
      requires token.Obj? && propertyName in Keys(token.members)
      modifies this
      ensures token == Obj(ReplaceMember(old(token).members, propertyName, value))
    {
      token := Obj(ReplaceMember(token.members, propertyName, value));
    }

    /**
     * RemovePaths: every exclude path is resolved first; a path the parser
     * rejects or that matches the root raises its error and nothing is
     * removed; otherwise every match is detached.
     */
    method RemovePaths(paths: seq<string>) returns (err: Option<Error>)
      modifies this
      ensures var r := ExcludePaths(old(token), paths, WrapperGeneration);
        (r.Err? ==> err == Some(r.error) && token == old(token)) &&
        (r.Ok? ==> err == None && token == r.value)
    {
      var r := RemoveMatches(token, paths, WrapperGeneration);
      if r.Err? {
        return Some(r.error);
      }
      token := r.value;
      return None;
    }
  }

  /** SnapshotValue.CreateNull. */
  method CreateNull() returns (s: SnapshotValue)
    ensures fresh(s) && s.token == Null
  {
    s := new SnapshotValue(Null);
  }

  /** SnapshotValue.CreateObject: an empty object. */
  method CreateObject() returns (s: SnapshotValue)
    ensures fresh(s) && s.token == Obj([])
  {
    s := new SnapshotValue(Obj([]));
  }

  /** SnapshotValue.FromObject: properties by name, Guids as strings. */
  method FromObjectValue(h: Host) returns (s: SnapshotValue)
    ensures fresh(s) && s.token == FromObject(h)
  {
    s := new SnapshotValue(FromObject(h));
  }

  /** SnapshotValue.ArrayToken: an array of the given values, in order. */
  method ArrayToken(content: seq<Value>) returns (s: SnapshotValue)
    ensures fresh(s) && s.token == Arr(content)
  {
    s := new SnapshotValue(Arr(content));
  }

  /** SnapshotValue.DeepEquals. */
  predicate DeepEqualValues(a: SnapshotValue, b: SnapshotValue)
    reads a, b
  {
    DeepEquals(a.token, b.token)
  }

  // ---- properties of the wrapper ----------------------------------------------

  /** A Guid actual becomes a string token, as a string actual does. */
  lemma GuidIsString(h: Host)
    requires IsStringLike(h)
    ensures FromObject(h).Str?
    ensures h.HGuid? ==> FromObject(h) == Str(h.text)
  {
  }

  /**
   * A wrapped Boolean, number, string or Guid prints as the object itself
   * does: a JValue's text is that of the value it holds.
   */
  lemma ScalarToStringIsHostText(v: SnapshotValue, h: Host)
    requires h.HBool? || h.HInt? || h.HStr? || h.HGuid?
    requires v.token == FromObject(h)
    ensures v.ToString() == HostText(h)
  {
  }

  /** A null select path selects exactly the root. */
  lemma NullPathSelectsRoot(v: Value)
    ensures JsonPath.SelectTokens(v, "$") == Ok([RootNode(v)])
  {
    assert ParsePath("$") == Some([]);
  }

  /** The value named by a property is found by the single-name path of that property. */
  lemma PropertyValueIsNamePath(v: Value, k: string)
    ensures PropertyValue(v, k).Some? <==> Evaluate([RootNode(v)], [[Name(k)]]) != []
    ensures PropertyValue(v, k).Some? ==> Evaluate([RootNode(v)], [[Name(k)]]) == [Node([Key(k)], PropertyValue(v, k).value)]
  {
    NameSelects(v, k);
  }

  /** After an exclusion that succeeds, the tree still has distinct keys in every object. */
  lemma RemovePathsWellFormed(v: Value, paths: seq<string>, g: Generation)
    requires WellFormed(v) && ExcludePaths(v, paths, g).Ok?
    ensures WellFormed(ExcludePaths(v, paths, g).value)
  {
    var ns := ResolveExclusions(v, paths, g).value;
    PruneWellFormed(v, [], MatchedLocs(ns));
  }

  /** Excluding nothing leaves the tree as it was. */
  lemma RemoveNoPaths(v: Value, g: Generation)
    ensures ExcludePaths(v, [], g) == Ok(v)
  {
    assert MatchedLocs([]) == {};
    PruneNothing(v, []);
  }

  /** A root exclusion leaves no removal behind: the whole call fails and the tree is untouched. */
  lemma RootExclusionRejected(v: Value, paths: seq<string>, i: nat, g: Generation)
    requires i < |paths| && ParsePath(paths[i]) == Some([])
    ensures ExcludePaths(v, paths, g).Err?
  {
    assert !Excludable(paths[i]);
    ResolveExclusionsOk(v, paths, g);
  }

  /** When the paths before it are excludable, a path denoting the root raises the root-exclusion error naming it. */
  lemma RootExclusionNamed(v: Value, paths: seq<string>, i: nat, g: Generation)
    requires i < |paths| && ParsePath(paths[i]) == Some([])
    requires forall j :: 0 <= j < i ==> Excludable(paths[j])
    ensures ExcludePaths(v, paths, g) == Err(RootExclusionError(g, paths[i]))
  {
    var lookup := Lookup(v);
    forall j | 0 <= j < i ensures Resolvable(lookup, paths[j]) {
      LookupResolvable(v, paths[j], g);
    }
    MatchesRootIffEmptyPath(v, paths[i]);
    ResolveStopsAtRoot(lookup, paths, i, g);
  }
}
