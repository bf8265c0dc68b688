// Ordering of names: the ordinal string comparison, and a sort of named
// entries by it that stands for the contract resolver's
// OrderBy(p => p.PropertyName).

module OrdinalOrder {

  /** Ordinal comparison: character codes left to right, a proper prefix first. */
  predicate Less(a: string, b: string)
    decreases |a|
  {
    if a == [] then b != []
    else if b == [] then false
    else if a[0] == b[0] then Less(a[1..], b[1..])
    else a[0] < b[0]
  }

  lemma {:induction false} LessIrreflexive(a: string)
    ensures !Less(a, a)
    decreases |a|
  {
    if a != [] {
      LessIrreflexive(a[1..]);
    }
  }

  lemma {:induction false} LessTransitive(a: string, b: string, c: string)
    requires Less(a, b) && Less(b, c)
    ensures Less(a, c)
    decreases |a|
  {
    if a != [] && b != [] && c != [] && a[0] == b[0] == c[0] {
      LessTransitive(a[1..], b[1..], c[1..]);
    }
  }

  lemma {:induction false} LessTotal(a: string, b: string)
    ensures a == b || Less(a, b) || Less(b, a)
    decreases |a|
  {
    if a != [] && b != [] && a[0] == b[0] {
      LessTotal(a[1..], b[1..]);
      if a[1..] == b[1..] {
        assert a == [a[0]] + a[1..] && b == [b[0]] + b[1..];
      }
    }
  }

  lemma LessAsymmetric(a: string, b: string)
    requires Less(a, b)
    ensures !Less(b, a)
  {
    if Less(b, a) {
      LessTransitive(a, b, a);
      LessIrreflexive(a);
    }
  }

  /** A named entry: a property name with its value. */
  datatype Named<T> = Named(name: string, value: T)

  predicate SortedByName<T>(s: seq<Named<T>>)
  {
    forall i, j :: 0 <= i < j < |s| ==> !Less(s[j].name, s[i].name)
  }

  predicate DistinctNames<T>(s: seq<Named<T>>)
  {
    forall i, j :: 0 <= i < j < |s| ==> s[i].name != s[j].name
  }

  function Insert<T>(x: Named<T>, s: seq<Named<T>>): (r: seq<Named<T>>)
    ensures multiset(r) == multiset(s) + multiset{x}
  {
    if s == [] || !Less(s[0].name, x.name) then [x] + s
    else
      assert s == [s[0]] + s[1..];
      [s[0]] + Insert(x, s[1..])
  }

  /** An entry not above any entry of a sorted sequence can go in front of it. */
  lemma ConsSorted<T>(h: Named<T>, r: seq<Named<T>>)
    requires SortedByName(r) && forall k :: 0 <= k < |r| ==> !Less(r[k].name, h.name)
    ensures SortedByName([h] + r)
  {
    var c := [h] + r;
    forall i, j | 0 <= i < j < |c| ensures !Less(c[j].name, c[i].name) {
      assert c[j] == r[j - 1];
      if i > 0 {
        assert c[i] == r[i - 1];
      }
    }
  }

  /** A rearrangement of entries none of which sorts below `y` has none below `y` either. */
  lemma NoneBelow<T>(r: seq<Named<T>>, s: seq<Named<T>>, y: string)
    requires multiset(r) == multiset(s) && forall k :: 0 <= k < |s| ==> !Less(s[k].name, y)
    ensures forall k :: 0 <= k < |r| ==> !Less(r[k].name, y)
  {
    forall k | 0 <= k < |r| ensures !Less(r[k].name, y) {
      assert r[k] in multiset(s);
      var m :| 0 <= m < |s| && s[m] == r[k];
    }
  }

  lemma {:induction false} InsertSorted<T>(x: Named<T>, s: seq<Named<T>>)
    requires SortedByName(s)
    ensures SortedByName(Insert(x, s))
    decreases |s|
  {
    if s != [] && Less(s[0].name, x.name) {
      var t := s[1..];
      SortedTail(s);
      InsertSorted(x, t);
      var r := Insert(x, t);
      LessAsymmetric(s[0].name, x.name);
      var xt := [x] + t;
      assert multiset(xt) == multiset(t) + multiset{x};
      forall k | 0 <= k < |xt| ensures !Less(xt[k].name, s[0].name) {
        if k > 0 {
          assert xt[k] == s[k];
        }
      }
      NoneBelow(r, xt, s[0].name);
      ConsSorted(s[0], r);
    } else if s != [] {
      forall k | 0 <= k < |s| ensures !Less(s[k].name, x.name) {
        if Less(s[k].name, x.name) {
          LessTotal(s[0].name, x.name);
          if s[0].name != x.name {
            LessTransitive(s[k].name, x.name, s[0].name);
          }
        }
      }
      ConsSorted(x, s);
    }
  }

  /**
   * A stable sort of named entries by the ordinal order. The contract
   * resolver's OrderBy uses the culture-sensitive default string comparer
   * instead; see the README's list of what is left out.
   */
  function SortByName<T>(s: seq<Named<T>>): (r: seq<Named<T>>)
    ensures multiset(r) == multiset(s) && |r| == |s|
    ensures SortedByName(r)
  {
    if s == [] then []
    else
      assert s == [s[0]] + s[1..];
      InsertSorted(s[0], SortByName(s[1..]));
      Insert(s[0], SortByName(s[1..]))
  }

  lemma {:induction false} DistinctNamesNoDuplicates<T>(s: seq<Named<T>>, x: Named<T>)
    requires DistinctNames(s)
    ensures multiset(s)[x] <= 1
  {
    if s != [] {
      assert s == [s[0]] + s[1..];
      DistinctNamesNoDuplicates(s[1..], x);
      if s[0] == x {
        assert x !in s[1..];
      }
    }
  }

  lemma DistinctNamesOfPermutation<T>(s: seq<Named<T>>, t: seq<Named<T>>)
    requires DistinctNames(s) && multiset(s) == multiset(t)
    ensures DistinctNames(t)
  {
    forall i, j | 0 <= i < j < |t| ensures t[i].name != t[j].name {
      assert t[i] in multiset(s) && t[j] in multiset(s);
      var a :| 0 <= a < |s| && s[a] == t[i];
      var b :| 0 <= b < |s| && s[b] == t[j];
      if t[i].name == t[j].name {
        assert t[i] == t[j];
        assert multiset(t)[t[i]] >= 2 by {
          assert t == t[..i] + [t[i]] + t[i + 1..j] + [t[j]] + t[j + 1..];
        }
        DistinctNamesNoDuplicates(s, t[i]);
      }
    }
  }

  lemma SortedHeadsEqual<T>(s: seq<Named<T>>, t: seq<Named<T>>)
    requires SortedByName(s) && SortedByName(t) && DistinctNames(t)
    requires s != [] && multiset(s) == multiset(t)
    ensures t != [] && s[0] == t[0]
  {
    assert s[0] in multiset(t);
    var a :| 0 <= a < |t| && t[a] == s[0];
    assert t[0] in multiset(s);
    var b :| 0 <= b < |s| && s[b] == t[0];
    if a != 0 && b != 0 {
      assert !Less(s[0].name, t[0].name);
      assert !Less(t[0].name, s[0].name);
      LessTotal(s[0].name, t[0].name);
      assert false;
    }
  }

  lemma SortedTail<T>(s: seq<Named<T>>)
    requires s != [] && SortedByName(s)
    ensures SortedByName(s[1..])
  {
    var t := s[1..];
    forall i, j | 0 <= i < j < |t| ensures !Less(t[j].name, t[i].name) {
      assert t[j] == s[j + 1] && t[i] == s[i + 1];
    }
  }

  lemma DistinctTail<T>(s: seq<Named<T>>)
    requires s != [] && DistinctNames(s)
    ensures DistinctNames(s[1..])
  {
    var t := s[1..];
    forall i, j | 0 <= i < j < |t| ensures t[i].name != t[j].name {
      assert t[j] == s[j + 1] && t[i] == s[i + 1];
    }
  }

  lemma MultisetTail<T>(s: seq<Named<T>>)
    requires s != []
    ensures multiset(s[1..]) == multiset(s) - multiset{s[0]}
  {
    assert s == [s[0]] + s[1..];
  }

  /** Two sorted arrangements of the same entries start alike, and their tails are again such arrangements. */
  lemma SortedPermutationsStep<T>(s: seq<Named<T>>, t: seq<Named<T>>)
    requires SortedByName(s) && SortedByName(t) && DistinctNames(s)
    requires s != [] && multiset(s) == multiset(t)
    ensures t != [] && s[0] == t[0]
    ensures SortedByName(s[1..]) && SortedByName(t[1..]) && DistinctNames(s[1..])
    ensures multiset(s[1..]) == multiset(t[1..])
  {
    DistinctNamesOfPermutation(s, t);
    SortedHeadsEqual(s, t);
    SortedTail(s);
    SortedTail(t);
    DistinctTail(s);
    MultisetTail(s);
    MultisetTail(t);
  }

  /** Two sorted arrangements of the same entries, with distinct names, are the same sequence. */
  lemma {:induction false} SortedPermutationsEqual<T>(s: seq<Named<T>>, t: seq<Named<T>>)
    requires SortedByName(s) && SortedByName(t) && DistinctNames(s)
    requires multiset(s) == multiset(t)
    ensures s == t
    decreases |s|
  {
    assert |s| == |multiset(s)| == |t|;
    if s != [] {
      SortedPermutationsStep(s, t);
      SortedPermutationsEqual(s[1..], t[1..]);
      assert s == [s[0]] + s[1..] && t == [t[0]] + t[1..];
    }
  }

  /** Sorting by name forgets the order the entries were declared in. */
  lemma SortOrderIndependent<T>(s: seq<Named<T>>, t: seq<Named<T>>)
    requires DistinctNames(s) && multiset(s) == multiset(t)
    ensures SortByName(s) == SortByName(t)
  {
    DistinctNamesOfPermutation(s, SortByName(s));
    SortedPermutationsEqual(SortByName(s), SortByName(t));
  }
}
