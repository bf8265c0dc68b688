// The two built-in comparers: SnapshotComparer (used by Snapshot.CompareTo)
// and SnapshotEqualityComparer (the same rule under the equality-comparer
// interface). A snapshotted value that does not exist never matches;
// otherwise the verdict is JToken.DeepEquals.

module Comparers {
  import opened Wrappers
  import opened JsonValue

  /** The comparer a settings object may name: the library's own, or one supplied by the caller. */
  datatype Comparer =
    | DefaultComparer
    | CustomComparer(compare: (Value, Option<Value>) -> bool)

  /** SnapshotComparer.Compare. */
  predicate Compare(actual: Value, snapshotted: Option<Value>)
  {
    snapshotted.Some? && DeepEquals(actual, snapshotted.value)
  }

  /** SnapshotEqualityComparer.Equals. */
  predicate EqualityEquals(actual: Value, snapshotted: Option<Value>)
  {
    snapshotted.Some? && DeepEquals(actual, snapshotted.value)
  }

  /** `(settings.SnapshotComparer ?? SnapshotComparer.Default).Compare(actual, snapshotted)`. */
  predicate CompareWith(c: Option<Comparer>, actual: Value, snapshotted: Option<Value>)
  {
    match c.GetOr(DefaultComparer)
    case DefaultComparer => Compare(actual, snapshotted)
    case CustomComparer(f) => f(actual, snapshotted)
  }

  /** A missing snapshot never matches, and a match means a snapshot exists. */
  lemma AbsentNeverMatches(actual: Value, snapshotted: Option<Value>)
    ensures snapshotted.None? ==> !Compare(actual, snapshotted) && !EqualityEquals(actual, snapshotted)
    ensures Compare(actual, snapshotted) ==> snapshotted.Some?
  {
  }

  /** Every well-formed value matches itself. */
  lemma CompareReflexive(v: Value)
    requires WellFormed(v)
    ensures Compare(v, Some(v)) && EqualityEquals(v, Some(v))
  {
    DeepEqualsReflexive(v);
  }

  /** Matching is symmetric between well-formed values. */
  lemma CompareSymmetric(a: Value, b: Value)
    requires WellFormed(a) && WellFormed(b)
    ensures Compare(a, Some(b)) <==> Compare(b, Some(a))
  {
    if Compare(a, Some(b)) {
      DeepEqualsSymmetric(a, b);
    }
    if Compare(b, Some(a)) {
      DeepEqualsSymmetric(b, a);
    }
  }

  /** The order of an object's members does not affect the verdict of either comparer. */
  lemma CompareIgnoresMemberOrder(ms: seq<Member>, ns: seq<Member>, actual: Value)
    requires WellFormed(Obj(ms)) && WellFormed(Obj(ns)) && multiset(ms) == multiset(ns)
    ensures Compare(actual, Some(Obj(ms))) <==> Compare(actual, Some(Obj(ns)))
    ensures EqualityEquals(actual, Some(Obj(ms))) <==> EqualityEquals(actual, Some(Obj(ns)))
  {
    MemberOrderIrrelevant(ms, ns);
    MemberOrderIrrelevant(ns, ms);
    if DeepEquals(actual, Obj(ms)) {
      DeepEqualsTransitive(actual, Obj(ms), Obj(ns));
    }
    if DeepEquals(actual, Obj(ns)) {
      DeepEqualsTransitive(actual, Obj(ns), Obj(ms));
    }
  }

  /**
   * The two built-in comparers always agree. Their sources have the same
   * body, so the two predicates above are written identically and this
   * lemma only records that either may stand for the other.
   */
  lemma ComparersAgree(actual: Value, snapshotted: Option<Value>)
    ensures Compare(actual, snapshotted) <==> EqualityEquals(actual, snapshotted)
  {
  }

  /** With no comparer configured, the default one decides. */
  lemma DefaultWhenUnset(actual: Value, snapshotted: Option<Value>)
    ensures CompareWith(None, actual, snapshotted) <==> snapshotted.Some? && DeepEquals(actual, snapshotted.value)
  {
  }
}
