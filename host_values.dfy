// The .NET objects handed to the library as actual values, and their
// conversion to JSON tokens: SnapshotValue.FromObject (properties ordered by
// name, Guids written as strings) and plain JToken.FromObject (declaration
// order), plus Object.ToString() as the string comparator sees it.

module HostValues {
  import opened Wrappers
  import opened JsonValue
  import opened OrdinalOrder
  import Text

  /** A non-null .NET object; a null reference is `None` wherever one may occur. */
  datatype Host =
    | HBool(b: bool)
    | HInt(n: int)
    | HStr(s: string)
    | HGuid(text: string)
    | HList(typeName: string, items: seq<Option<Host>>)
    /** A dictionary: entries in insertion order; the contract resolver does not reorder them. */
    | HDict(typeName: string, entries: seq<Named<Option<Host>>>)
    /** An object serialised through its public properties, in declaration order. */
    | HRecord(typeName: string, fields: seq<Named<Option<Host>>>)

  /** Property and dictionary names are distinct at every level, as in any .NET object. */
  predicate HostWellFormed(h: Host)
    decreases h
  {
    match h
    case HList(_, xs) => forall i :: 0 <= i < |xs| ==> xs[i].Some? ==> HostWellFormed(xs[i].value)
    case HDict(_, es) => DistinctNames(es) && forall i :: 0 <= i < |es| ==> es[i].value.Some? ==> HostWellFormed(es[i].value.value)
    case HRecord(_, fs) => DistinctNames(fs) && forall i :: 0 <= i < |fs| ==> fs[i].value.Some? ==> HostWellFormed(fs[i].value.value)
    case _ => true
  }

  /** JToken.FromObject(o, serializer) with the ordered contract resolver and the Guid converter. */
  function FromObject(h: Host): (r: Value)
    ensures r != Null
    ensures h.HStr? || h.HGuid? <==> r.Str?
    ensures h.HList? <==> r.Arr?
    ensures h.HDict? || h.HRecord? <==> r.Obj?
    ensures h.HDict? ==> |r.members| == |h.entries| && forall i :: 0 <= i < |h.entries| ==> r.members[i].key == h.entries[i].name
    ensures h.HRecord? ==> |r.members| == |h.fields| && forall i, j :: 0 <= i < j < |r.members| ==> !Less(r.members[j].key, r.members[i].key)
    decreases h
  {
    match h
    case HBool(b) => Bool(b)
    case HInt(n) => Number(n)
    case HStr(s) => Str(s)
    case HGuid(g) => Str(g)
    case HList(_, xs) =>
      Arr(seq(|xs|, i requires 0 <= i < |xs| => if xs[i].None? then Null else FromObject(xs[i].value)))
    case HDict(_, es) =>
      Obj(seq(|es|, i requires 0 <= i < |es| =>
        Member(es[i].name, if es[i].value.None? then Null else FromObject(es[i].value.value))))
    case HRecord(_, fs) =>
      var sorted := SortByName(fs);
      Obj(seq(|sorted|, i requires 0 <= i < |sorted| =>
        assert sorted[i] in multiset(fs);
        Member(sorted[i].name, if sorted[i].value.None? then Null else FromObject(sorted[i].value.value))))
  }

  /** JToken.FromObject(o) with the default serializer: properties in declaration order. */
  function ToToken(h: Host): (r: Value)
    ensures r != Null
    ensures h.HStr? || h.HGuid? <==> r.Str?
    ensures h.HList? <==> r.Arr?
    ensures h.HDict? || h.HRecord? <==> r.Obj?
    ensures h.HDict? ==> |r.members| == |h.entries| && forall i :: 0 <= i < |h.entries| ==> r.members[i].key == h.entries[i].name
    ensures h.HRecord? ==> |r.members| == |h.fields| && forall i :: 0 <= i < |h.fields| ==> r.members[i].key == h.fields[i].name
    decreases h
  {
    match h
    case HBool(b) => Bool(b)
    case HInt(n) => Number(n)
    case HStr(s) => Str(s)
    case HGuid(g) => Str(g)
    case HList(_, xs) =>
      Arr(seq(|xs|, i requires 0 <= i < |xs| => if xs[i].None? then Null else ToToken(xs[i].value)))
    case HDict(_, es) =>
      Obj(seq(|es|, i requires 0 <= i < |es| =>
        Member(es[i].name, if es[i].value.None? then Null else ToToken(es[i].value.value))))
    case HRecord(_, fs) =>
      Obj(seq(|fs|, i requires 0 <= i < |fs| =>
        Member(fs[i].name, if fs[i].value.None? then Null else ToToken(fs[i].value.value))))
  }

  /** Object.ToString(): a string itself, a number in decimal, a Boolean as True/False, a Guid's text, otherwise the type name. */
  function HostText(h: Host): string
  {
    match h
    case HBool(b) => if b then "True" else "False"
    case HInt(n) => Text.IntToString(n)
    case HStr(s) => s
    case HGuid(g) => g
    case HList(t, _) => t
    case HDict(t, _) => t
    case HRecord(t, _) => t
  }

  /** `actual is string || actual is Guid`. */
  predicate IsStringLike(h: Host)
  {
    h.HStr? || h.HGuid?
  }

  lemma {:induction false} FromObjectWellFormed(h: Host)
    requires HostWellFormed(h)
    ensures WellFormed(FromObject(h))
    decreases h
  {
    match h
    case HList(_, xs) =>
      forall i | 0 <= i < |xs| && xs[i].Some? ensures WellFormed(FromObject(xs[i].value)) {
        FromObjectWellFormed(xs[i].value);
      }
    case HDict(_, es) =>
      forall i | 0 <= i < |es| && es[i].value.Some? ensures WellFormed(FromObject(es[i].value.value)) {
        FromObjectWellFormed(es[i].value.value);
      }
    case HRecord(_, fs) =>
      var sorted := SortByName(fs);
      DistinctNamesOfPermutation(fs, sorted);
      forall i | 0 <= i < |sorted| && sorted[i].value.Some? ensures WellFormed(FromObject(sorted[i].value.value)) {
        assert sorted[i] in multiset(fs);
        FromObjectWellFormed(sorted[i].value.value);
      }
    case _ =>
  }

  /** The ordered conversion of a record has one member per property: its keys are exactly the property names. */
  lemma RecordKeysAreNames(t: string, fs: seq<Named<Option<Host>>>)
    ensures Keys(FromObject(HRecord(t, fs)).members) == set j | 0 <= j < |fs| :: fs[j].name
  {
    var sorted := SortByName(fs);
    var ms := FromObject(HRecord(t, fs)).members;
    assert forall i :: 0 <= i < |ms| ==> ms[i].key == sorted[i].name;
    forall k | k in Keys(ms) ensures exists j :: 0 <= j < |fs| && fs[j].name == k {
      var i :| 0 <= i < |ms| && ms[i].key == k;
      assert sorted[i] in multiset(fs);
      var j :| 0 <= j < |fs| && fs[j] == sorted[i];
    }
    forall j | 0 <= j < |fs| ensures fs[j].name in Keys(ms) {
      assert fs[j] in multiset(sorted);
      var i :| 0 <= i < |sorted| && sorted[i] == fs[j];
      assert ms[i].key == fs[j].name;
    }
  }

  /** The properties of a record may be declared in any order: the token is the same. */
  lemma FromObjectOrderIndependent(t: string, fs: seq<Named<Option<Host>>>, gs: seq<Named<Option<Host>>>)
    requires DistinctNames(fs) && multiset(fs) == multiset(gs)
    ensures FromObject(HRecord(t, fs)) == FromObject(HRecord(t, gs))
  {
    SortOrderIndependent(fs, gs);
  }

  /** Ordering the properties changes member order only: both conversions are deeply equal. */
  lemma {:induction false} FromObjectDeepEqualsToToken(h: Host)
    requires HostWellFormed(h)
    ensures DeepEquals(FromObject(h), ToToken(h))
    decreases h, 1
  {
    match h
    case HList(_, xs) =>
      forall i | 0 <= i < |xs| && xs[i].Some? ensures DeepEquals(FromObject(xs[i].value), ToToken(xs[i].value)) {
        FromObjectDeepEqualsToToken(xs[i].value);
      }
    case HDict(_, _) => DictDeepEqualsToToken(h);
    case HRecord(_, _) => RecordDeepEqualsToToken(h);
    case _ =>
  }

  lemma {:induction false} DictDeepEqualsToToken(h: Host)
    requires h.HDict? && HostWellFormed(h)
    ensures DeepEquals(FromObject(h), ToToken(h))
    decreases h, 0
  {
    var es := h.entries;
    var a, b := FromObject(h).members, ToToken(h).members;
    forall i | 0 <= i < |a|
      ensures 0 <= IndexOfKey(b, a[i].key) && DeepEquals(a[i].value, b[IndexOfKey(b, a[i].key)].value)
    {
      IndexOfUniqueKey(b, i);
      if es[i].value.Some? {
        FromObjectDeepEqualsToToken(es[i].value.value);
      }
    }
  }

  lemma {:induction false} RecordDeepEqualsToToken(h: Host)
    requires h.HRecord? && HostWellFormed(h)
    ensures DeepEquals(FromObject(h), ToToken(h))
    decreases h, 0
  {
    var fs := h.fields;
    var sorted := SortByName(fs);
    var a, b := FromObject(h).members, ToToken(h).members;
    forall i | 0 <= i < |a|
      ensures 0 <= IndexOfKey(b, a[i].key) && DeepEquals(a[i].value, b[IndexOfKey(b, a[i].key)].value)
    {
      assert sorted[i] in multiset(fs);
      var j :| 0 <= j < |fs| && fs[j] == sorted[i];
      assert b[j].key == a[i].key;
      IndexOfUniqueKey(b, j);
      if fs[j].value.Some? {
        FromObjectDeepEqualsToToken(fs[j].value.value);
      }
    }
  }
}
