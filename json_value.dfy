// The JSON token tree the library manipulates (Newtonsoft's JToken family),
// its deep equality (JToken.DeepEquals) and its compact text form
// (JsonConvert.SerializeObject with Formatting.None).

module JsonValue {
  import opened Wrappers
  import Text

  datatype Value =
    | Null
    | Bool(b: bool)
    | Number(n: int)
    | Str(s: string)
    | Arr(items: seq<Value>)
    | Obj(members: seq<Member>)

  /** A JProperty: a key and its value, in document order within its object. */
  datatype Member = Member(key: string, value: Value)

  predicate UniqueKeys(ms: seq<Member>)
  {
    forall i, j :: 0 <= i < j < |ms| ==> ms[i].key != ms[j].key
  }

  /** Every object in the tree has distinct keys, as a JObject always does. */
  predicate WellFormed(v: Value)
    decreases v
  {
    match v
    case Arr(xs) => forall i :: 0 <= i < |xs| ==> WellFormed(xs[i])
    case Obj(ms) => UniqueKeys(ms) && forall i :: 0 <= i < |ms| ==> WellFormed(ms[i].value)
    case _ => true
  }

  function Keys(ms: seq<Member>): set<string>
  {
    set i | 0 <= i < |ms| :: ms[i].key
  }

  /** Position of the member named `k`, or -1 (JObject.Property(k)). */
  function IndexOfKey(ms: seq<Member>, k: string): (i: int)
    ensures -1 <= i < |ms|
    ensures 0 <= i ==> ms[i].key == k && forall j :: 0 <= j < i ==> ms[j].key != k
    ensures i == -1 ==> forall j :: 0 <= j < |ms| ==> ms[j].key != k
  {
    if ms == [] then -1
    else if ms[|ms| - 1].key == k && IndexOfKey(ms[..|ms| - 1], k) == -1 then |ms| - 1
    else IndexOfKey(ms[..|ms| - 1], k)
  }

  lemma IndexOfUniqueKey(ms: seq<Member>, i: int)
    requires UniqueKeys(ms) && 0 <= i < |ms|
    ensures IndexOfKey(ms, ms[i].key) == i
  {
  }

  /** The value of member `k` of an object, absent when `v` is not an object or has no such member. */
  function PropertyValue(v: Value, k: string): (r: Option<Value>)
    ensures r.Some? <==> v.Obj? && k in Keys(v.members)
    ensures r.Some? ==> exists i :: 0 <= i < |v.members| && v.members[i] == Member(k, r.value)
  {
    if v.Obj? && IndexOfKey(v.members, k) >= 0 then Some(v.members[IndexOfKey(v.members, k)].value) else None
  }

  /**
   * JToken.DeepEquals: scalars by type and value, arrays element by element
   * in order, objects by member count and, for each member of the first,
   * a member of the same key in the second whose value is deeply equal.
   */
  predicate DeepEquals(a: Value, b: Value)
    decreases a
  {
    match a
    case Null => b.Null?
    case Bool(x) => b == Bool(x)
    case Number(n) => b == Number(n)
    case Str(s) => b == Str(s)
    case Arr(xs) =>
      b.Arr? && |xs| == |b.items| &&
      forall i :: 0 <= i < |xs| ==> DeepEquals(xs[i], b.items[i])
    case Obj(ms) =>
      b.Obj? && |ms| == |b.members| &&
      forall i :: 0 <= i < |ms| ==>
        var j := IndexOfKey(b.members, ms[i].key);
        0 <= j && DeepEquals(ms[i].value, b.members[j].value)
  }

  lemma {:induction false} DeepEqualsReflexive(v: Value)
    requires WellFormed(v)
    ensures DeepEquals(v, v)
    decreases v
  {
    match v
    case Arr(xs) =>
      forall i | 0 <= i < |xs| ensures DeepEquals(xs[i], xs[i]) {
        DeepEqualsReflexive(xs[i]);
      }
    case Obj(ms) =>
      forall i | 0 <= i < |ms|
        ensures IndexOfKey(ms, ms[i].key) == i && DeepEquals(ms[i].value, ms[i].value)
      {
        IndexOfUniqueKey(ms, i);
        DeepEqualsReflexive(ms[i].value);
      }
    case _ =>
  }

  lemma {:induction false} UniqueKeyCount(ms: seq<Member>)
    requires UniqueKeys(ms)
    ensures |Keys(ms)| == |ms|
  {
    if ms != [] {
      var init := ms[..|ms| - 1];
      UniqueKeyCount(init);
      assert Keys(ms) == Keys(init) + {ms[|ms| - 1].key};
      assert ms[|ms| - 1].key !in Keys(init);
    }
  }

  /** Two objects with distinct keys, the same number of members, and every key of the first in the second, have the same keys. */
  lemma SameKeys(ms: seq<Member>, ns: seq<Member>)
    requires UniqueKeys(ms) && UniqueKeys(ns) && |ms| == |ns|
    requires forall i :: 0 <= i < |ms| ==> IndexOfKey(ns, ms[i].key) >= 0
    ensures Keys(ns) == Keys(ms)
  {
    UniqueKeyCount(ms);
    UniqueKeyCount(ns);
    assert Keys(ms) <= Keys(ns);
    if x :| x in Keys(ns) && x !in Keys(ms) {
      SubsetCardinality(Keys(ms), Keys(ns) - {x});
      assert false;
    }
  }

  lemma {:induction false} SubsetCardinality<T>(a: set<T>, b: set<T>)
    requires a <= b
    ensures |a| <= |b|
    decreases a
  {
    if x :| x in a {
      SubsetCardinality(a - {x}, b - {x});
    }
  }

  lemma {:induction false} DeepEqualsSymmetric(a: Value, b: Value)
    requires WellFormed(a) && WellFormed(b) && DeepEquals(a, b)
    ensures DeepEquals(b, a)
    decreases a
  {
    match a
    case Arr(xs) =>
      forall i | 0 <= i < |xs| ensures DeepEquals(b.items[i], xs[i]) {
        DeepEqualsSymmetric(xs[i], b.items[i]);
      }
    case Obj(ms) =>
      var ns := b.members;
      SameKeys(ms, ns);
      forall j | 0 <= j < |ns|
        ensures 0 <= IndexOfKey(ms, ns[j].key) && DeepEquals(ns[j].value, ms[IndexOfKey(ms, ns[j].key)].value)
      {
        assert ns[j].key in Keys(ms);
        var i := IndexOfKey(ms, ns[j].key);
        IndexOfUniqueKey(ns, j);
        DeepEqualsSymmetric(ms[i].value, ns[j].value);
      }
    case _ =>
  }

  lemma {:induction false} DeepEqualsTransitive(a: Value, b: Value, c: Value)
    requires WellFormed(b) && DeepEquals(a, b) && DeepEquals(b, c)
    ensures DeepEquals(a, c)
    decreases a
  {
    match a
    case Arr(xs) =>
      forall i | 0 <= i < |xs| ensures DeepEquals(xs[i], c.items[i]) {
        DeepEqualsTransitive(xs[i], b.items[i], c.items[i]);
      }
    case Obj(ms) =>
      var ns, os := b.members, c.members;
      forall i | 0 <= i < |ms|
        ensures 0 <= IndexOfKey(os, ms[i].key) && DeepEquals(ms[i].value, os[IndexOfKey(os, ms[i].key)].value)
      {
        var j := IndexOfKey(ns, ms[i].key);
        var k := IndexOfKey(os, ns[j].key);
        DeepEqualsTransitive(ms[i].value, ns[j].value, os[k].value);
      }
    case _ =>
  }

  /** Member order does not matter: an object equals any reordering of itself. */
  lemma MemberOrderIrrelevant(ms: seq<Member>, ns: seq<Member>)
    requires WellFormed(Obj(ms)) && UniqueKeys(ns) && multiset(ms) == multiset(ns)
    ensures DeepEquals(Obj(ms), Obj(ns))
  {
    assert |ms| == |multiset(ms)| == |ns|;
    forall i | 0 <= i < |ms|
      ensures 0 <= IndexOfKey(ns, ms[i].key) && DeepEquals(ms[i].value, ns[IndexOfKey(ns, ms[i].key)].value)
    {
      assert ms[i] in multiset(ns);
      var j :| 0 <= j < |ns| && ns[j] == ms[i];
      IndexOfUniqueKey(ns, j);
      DeepEqualsReflexive(ms[i].value);
    }
  }

  /** JObject.Add: a new member at the end; a key already present is an error. */
  function AddMember(v: Value, k: string, x: Value): (r: Result<Value>)
    ensures !v.Obj? ==> r == Err(AddToNonObject)
    ensures v.Obj? && k in Keys(v.members) ==> r == Err(DuplicateProperty(k))
    ensures v.Obj? && k !in Keys(v.members) ==> r.Ok? && PropertyValue(r.value, k) == Some(x)
    ensures r.Ok? ==> forall j :: j != k ==> PropertyValue(r.value, j) == PropertyValue(v, j)
    ensures r.Ok? ==> r.value == Obj(v.members + [Member(k, x)])
  {
    if !v.Obj? then Err(AddToNonObject)
    else if IndexOfKey(v.members, k) >= 0 then Err(DuplicateProperty(k))
    else
      var ms := v.members + [Member(k, x)];
      assert forall j :: 0 <= j < |v.members| ==> ms[j] == v.members[j];
      assert IndexOfKey(ms, k) == |v.members|;
      Ok(Obj(ms))
  }

  /** The value of member `k` replaced by `x` in place (JToken.Replace on that member's value). */
  function ReplaceMember(ms: seq<Member>, k: string, x: Value): (r: seq<Member>)
    ensures Keys(r) == Keys(ms) && |r| == |ms|
    ensures forall i :: 0 <= i < |ms| ==> r[i].key == ms[i].key
    ensures forall i :: 0 <= i < |ms| && ms[i].key != k ==> r[i] == ms[i]
    ensures forall i :: 0 <= i < |ms| && ms[i].key == k ==> r[i] == Member(k, x)
  {
    var r := seq(|ms|, i requires 0 <= i < |ms| => if ms[i].key == k then Member(k, x) else ms[i]);
    assert forall i :: 0 <= i < |ms| ==> r[i].key == ms[i].key;
    assert Keys(r) == Keys(ms) by {
      forall key | key in Keys(ms) ensures key in Keys(r) {
        var i :| 0 <= i < |ms| && ms[i].key == key;
        assert r[i].key == key;
      }
    }
    r
  }

  // ---- compact JSON text -------------------------------------------------

  function HexDigit(d: nat): char
    requires d < 16
  {
    if d < 10 then ('0' as int + d) as char else ('a' as int + d - 10) as char
  }

  /** One character of a JSON string literal, escaped as Newtonsoft's default escaping does. */
  function EscapeChar(c: char): string
  {
    if c == '"' then "\\\""
    else if c == '\\' then "\\\\"
    else if c == '\n' then "\\n"
    else if c == '\r' then "\\r"
    else if c == '\t' then "\\t"
    else if c == '\U{0008}' then "\\b"
    else if c == '\U{000C}' then "\\f"
    else if (c as int) < 0x20 || c == '\U{0085}' || c == '\U{2028}' || c == '\U{2029}' then
      var n := c as int;
      "\\u" + [HexDigit(n / 0x1000), HexDigit(n / 0x100 % 16), HexDigit(n / 16 % 16), HexDigit(n % 16)]
    else [c]
  }

  function Escape(s: string): string
  {
    if s == [] then "" else EscapeChar(s[0]) + Escape(s[1..])
  }

  function Quote(s: string): string
  {
    "\"" + Escape(s) + "\""
  }

  function Join(parts: seq<string>): string
  {
    if parts == [] then "" else if |parts| == 1 then parts[0] else parts[0] + "," + Join(parts[1..])
  }

  /** JsonConvert.SerializeObject(token, Formatting.None). */
  function Serialize(v: Value): string
    decreases v
  {
    match v
    case Null => "null"
    case Bool(b) => if b then "true" else "false"
    case Number(n) => Text.IntToString(n)
    case Str(s) => Quote(s)
    case Arr(xs) => "[" + Join(seq(|xs|, i requires 0 <= i < |xs| => Serialize(xs[i]))) + "]"
    case Obj(ms) => "{" + Join(seq(|ms|, i requires 0 <= i < |ms| => Quote(ms[i].key) + ":" + Serialize(ms[i].value))) + "}"
  }
}
