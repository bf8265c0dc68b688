// Removal of excluded nodes. All three copies of the exclusion code in the
// library first resolve every exclude path against the untouched tree and
// only then detach the matched tokens, so a matched token is identified by
// its location in the ORIGINAL tree. The tree that remains is the original
// one pruned at those locations.

module JsonEdit {
  import opened Wrappers
  import opened JsonValue
  import opened JsonPath

  /** The present entries, in order. */
  function Compact<T>(s: seq<Option<T>>): (r: seq<T>)
    ensures |r| <= |s|
  {
    if s == [] then [] else (if s[0].Some? then [s[0].value] else []) + Compact(s[1..])
  }

  lemma {:induction false} CompactAllPresent<T>(s: seq<Option<T>>, xs: seq<T>)
    requires |s| == |xs| && forall i :: 0 <= i < |s| ==> s[i] == Some(xs[i])
    ensures Compact(s) == xs
    decreases |s|
  {
    if s != [] {
      CompactAllPresent(s[1..], xs[1..]);
      assert xs == [xs[0]] + xs[1..];
    }
  }

  lemma {:induction false} CompactMember<T>(s: seq<Option<T>>, y: T)
    requires y in Compact(s)
    ensures exists i :: 0 <= i < |s| && s[i] == Some(y)
    decreases |s|
  {
    if s[0] != Some(y) {
      assert y in Compact(s[1..]);
      CompactMember(s[1..], y);
      var i :| 0 <= i < |s[1..]| && s[1..][i] == Some(y);
      assert s[i + 1] == Some(y);
    }
  }

  lemma {:induction false} CompactHasPresent<T>(s: seq<Option<T>>, i: int)
    requires 0 <= i < |s| && s[i].Some?
    ensures s[i].value in Compact(s)
    decreases |s|
  {
    if i > 0 {
      CompactHasPresent(s[1..], i - 1);
    }
  }

  /** Present members have distinct keys. */
  predicate DistinctPresentKeys(s: seq<Option<Member>>)
  {
    forall i, j :: 0 <= i < j < |s| && s[i].Some? && s[j].Some? ==> s[i].value.key != s[j].value.key
  }

  lemma {:induction false} CompactUniqueKeys(s: seq<Option<Member>>)
    requires DistinctPresentKeys(s)
    ensures UniqueKeys(Compact(s))
    decreases |s|
  {
    if s != [] {
      CompactUniqueKeys(s[1..]);
      if s[0].Some? {
        var r := Compact(s[1..]);
        forall j | 0 <= j < |r| ensures r[j].key != s[0].value.key {
          assert r[j] in r;
          CompactMember(s[1..], r[j]);
          var i :| 0 <= i < |s[1..]| && s[1..][i] == Some(r[j]);
          assert s[i + 1] == Some(r[j]);
        }
        assert Compact(s) == [s[0].value] + r;
      }
    }
  }

  /** The tree below `at` with every node whose location is in `targets` removed, an object member together with its key. */
  function PruneAt(v: Value, at: Loc, targets: set<Loc>): Value
    decreases v, 1
  {
    match v
    case Arr(xs) => Arr(Compact(ItemEntries(xs, at, targets)))
    case Obj(ms) => Obj(Compact(MemberEntries(ms, at, targets)))
    case _ => v
  }

  /** Each element of an array, pruned below, or absent when it is a target itself. */
  function ItemEntries(xs: seq<Value>, at: Loc, targets: set<Loc>): (r: seq<Option<Value>>)
    ensures |r| == |xs|
    decreases xs, 0
  {
    seq(|xs|, i requires 0 <= i < |xs| =>
      if at + [At(i)] in targets then None else Some(PruneAt(xs[i], at + [At(i)], targets)))
  }

  /** Each member of an object, pruned below, or absent when it is a target itself. */
  function MemberEntries(ms: seq<Member>, at: Loc, targets: set<Loc>): (r: seq<Option<Member>>)
    ensures |r| == |ms|
    decreases ms, 0
  {
    seq(|ms|, i requires 0 <= i < |ms| =>
      var loc := at + [Key(ms[i].key)];
      if loc in targets then None else Some(Member(ms[i].key, PruneAt(ms[i].value, loc, targets))))
  }

  function Pruned(v: Value, targets: set<Loc>): Value
  {
    PruneAt(v, [], targets)
  }

  /** Removing nothing leaves the tree as it was. */
  lemma {:induction false} PruneNothing(v: Value, at: Loc)
    ensures PruneAt(v, at, {}) == v
    decreases v
  {
    match v
    case Arr(xs) =>
      var s := ItemEntries(xs, at, {});
      forall i | 0 <= i < |xs| ensures s[i] == Some(xs[i]) {
        PruneNothing(xs[i], at + [At(i)]);
      }
      CompactAllPresent(s, xs);
    case Obj(ms) =>
      var s := MemberEntries(ms, at, {});
      forall i | 0 <= i < |ms| ensures s[i] == Some(ms[i]) {
        PruneNothing(ms[i].value, at + [Key(ms[i].key)]);
      }
      CompactAllPresent(s, ms);
    case _ =>
  }

  /** Removal keeps every object's keys distinct. */
  lemma {:induction false} PruneWellFormed(v: Value, at: Loc, targets: set<Loc>)
    requires WellFormed(v)
    ensures WellFormed(PruneAt(v, at, targets))
    decreases v
  {
    match v
    case Arr(xs) =>
      var s := ItemEntries(xs, at, targets);
      var r := Compact(s);
      forall j | 0 <= j < |r| ensures WellFormed(r[j]) {
        assert r[j] in r;
        CompactMember(s, r[j]);
        var i :| 0 <= i < |s| && s[i] == Some(r[j]);
        PruneWellFormed(xs[i], at + [At(i)], targets);
      }
    case Obj(ms) =>
      var s := MemberEntries(ms, at, targets);
      var r := Compact(s);
      CompactUniqueKeys(s);
      forall j | 0 <= j < |r| ensures WellFormed(r[j].value) {
        assert r[j] in r;
        CompactMember(s, r[j]);
        var i :| 0 <= i < |s| && s[i] == Some(r[j]);
        PruneWellFormed(ms[i].value, at + [Key(ms[i].key)], targets);
      }
    case _ =>
  }

  /**
   * On an object, a member whose key is a target goes with its key; every
   * other member stays, pruned below.
   */
  lemma MembersAfterPrune(ms: seq<Member>, targets: set<Loc>, k: string)
    requires UniqueKeys(ms)
    ensures PropertyValue(Pruned(Obj(ms), targets), k) ==
      if [Key(k)] in targets || k !in Keys(ms) then None
      else Some(PruneAt(PropertyValue(Obj(ms), k).value, [Key(k)], targets))
  {
    var s := MemberEntries(ms, [], targets);
    var r := Compact(s);
    CompactUniqueKeys(s);
    var p := PropertyValue(Obj(r), k);
    if p.Some? {
      var j :| 0 <= j < |r| && r[j] == Member(k, p.value);
      assert r[j] in r;
      CompactMember(s, r[j]);
      var i :| 0 <= i < |s| && s[i] == Some(r[j]);
      assert [] + [Key(ms[i].key)] == [Key(k)];
      IndexOfUniqueKey(ms, i);
    } else if [Key(k)] !in targets && k in Keys(ms) {
      var i :| 0 <= i < |ms| && ms[i].key == k;
      assert [] + [Key(ms[i].key)] == [Key(k)];
      CompactHasPresent(s, i);
      assert false;
    }
  }

  // ---- detaching the resolved matches one after another --------------------

  /**
   * The detach loop as written: a token whose parent is gone is skipped, but
   * a removed member's value keeps its parent (the detached key/value pair),
   * so a member matched a second time is detached again, and removing a pair
   * that no longer has a parent fails. An array element loses its parent
   * when it is removed and is skipped the second time. The root has no
   * parent and is skipped.
   */
  function DetachAsWritten(matches: seq<Node>, detached: set<Loc>): (r: Result<set<Loc>>)
    decreases |matches|
  {
    if matches == [] then Ok(detached)
    else
      var loc := matches[0].loc;
      if loc == [] then DetachAsWritten(matches[1..], detached)
      else if loc in detached then
        if loc[|loc| - 1].Key? then Err(ParentMissing)
        else DetachAsWritten(matches[1..], detached)
      else DetachAsWritten(matches[1..], detached + {loc})
  }

  /** The locations of the matches below the root. */
  function MatchedLocs(matches: seq<Node>): (r: set<Loc>)
    ensures forall i :: 0 <= i < |matches| && matches[i].loc != [] ==> matches[i].loc in r
    ensures forall l :: l in r ==> l != [] && exists i :: 0 <= i < |matches| && matches[i].loc == l
  {
    set i | 0 <= i < |matches| && matches[i].loc != [] :: matches[i].loc
  }

  /** The detach loop skipping every token it has already removed, as the guard evidently intends. */
  function Detach(matches: seq<Node>, detached: set<Loc>): (r: set<Loc>)
    decreases |matches|
  {
    if matches == [] then detached
    else
      var loc := matches[0].loc;
      if loc == [] || loc in detached then Detach(matches[1..], detached) else Detach(matches[1..], detached + {loc})
  }

  /** Detaching in order removes exactly the matched locations: the order and repetitions of the matches do not matter. */
  lemma {:induction false} DetachRemovesMatched(matches: seq<Node>, detached: set<Loc>)
    ensures Detach(matches, detached) == detached + MatchedLocs(matches)
    decreases |matches|
  {
    if matches != [] {
      var loc := matches[0].loc;
      var d := if loc == [] || loc in detached then detached else detached + {loc};
      DetachRemovesMatched(matches[1..], d);
      assert MatchedLocs(matches) ==
        (if matches[0].loc == [] then {} else {matches[0].loc}) + MatchedLocs(matches[1..]) by {
        forall l | l in MatchedLocs(matches)
          ensures l in (if matches[0].loc == [] then {} else {matches[0].loc}) + MatchedLocs(matches[1..])
        {
          var i :| 0 <= i < |matches| && matches[i].loc == l;
          if i > 0 {
            assert matches[1..][i - 1] == matches[i];
          }
        }
      }
    }
  }

  /** When the as-written loop does finish, it removes what the corrected loop removes. */
  lemma {:induction false} DetachAsWrittenAgrees(matches: seq<Node>, detached: set<Loc>)
    requires DetachAsWritten(matches, detached).Ok?
    ensures DetachAsWritten(matches, detached).value == Detach(matches, detached)
    decreases |matches|
  {
    if matches != [] {
      var loc := matches[0].loc;
      DetachAsWrittenAgrees(matches[1..], if loc == [] || loc in detached then detached else detached + {loc});
    }
  }

  /** A node held by an object member, the kind whose second removal fails. */
  predicate IsMember(n: Node)
  {
    n.loc != [] && n.loc[|n.loc| - 1].Key?
  }

  /** The `j`-th match was detached before, or matched earlier in the sequence. */
  predicate SeenBefore(matches: seq<Node>, j: nat, detached: set<Loc>)
    requires j < |matches|
  {
    matches[j].loc in detached || exists i :: 0 <= i < j && matches[i].loc == matches[j].loc
  }

  /**
   * Some member location is matched again after it was first matched, or
   * was detached before the loop started.
   */
  predicate MemberRepeated(matches: seq<Node>, detached: set<Loc>)
  {
    exists j :: 0 <= j < |matches| && IsMember(matches[j]) && SeenBefore(matches, j, detached)
  }

  /** The locations detached once the loop has passed `loc`. */
  function DetachedAfter(loc: Loc, detached: set<Loc>): set<Loc>
  {
    if loc == [] || loc in detached then detached else detached + {loc}
  }

  lemma RepeatedFromRest(matches: seq<Node>, detached: set<Loc>)
    requires matches != [] && MemberRepeated(matches[1..], DetachedAfter(matches[0].loc, detached))
    ensures MemberRepeated(matches, detached)
  {
    var rest, d := matches[1..], DetachedAfter(matches[0].loc, detached);
    var j :| 0 <= j < |rest| && IsMember(rest[j]) && SeenBefore(rest, j, d);
    assert matches[j + 1] == rest[j];
    if rest[j].loc !in d {
      var i :| 0 <= i < j && rest[i].loc == rest[j].loc;
      assert matches[i + 1] == rest[i];
    } else if rest[j].loc !in detached {
      assert matches[0].loc == matches[j + 1].loc;
    }
    assert SeenBefore(matches, j + 1, detached);
  }

  lemma RepeatedInRest(matches: seq<Node>, detached: set<Loc>)
    requires matches != [] && MemberRepeated(matches, detached)
    requires !(IsMember(matches[0]) && matches[0].loc in detached)
    ensures MemberRepeated(matches[1..], DetachedAfter(matches[0].loc, detached))
  {
    var rest, d := matches[1..], DetachedAfter(matches[0].loc, detached);
    var j :| 0 <= j < |matches| && IsMember(matches[j]) && SeenBefore(matches, j, detached);
    assert j > 0;
    assert rest[j - 1] == matches[j];
    if matches[j].loc !in detached {
      var i :| 0 <= i < j && matches[i].loc == matches[j].loc;
      if i > 0 {
        assert rest[i - 1] == matches[i];
      }
    }
    assert SeenBefore(rest, j - 1, d);
  }

  /** The as-written loop fails exactly when a member is matched twice, and then with the missing-parent error. */
  lemma {:induction false} DetachAsWrittenFails(matches: seq<Node>, detached: set<Loc>)
    ensures DetachAsWritten(matches, detached).Err? <==> MemberRepeated(matches, detached)
    ensures DetachAsWritten(matches, detached).Err? ==> DetachAsWritten(matches, detached).error == ParentMissing
    decreases |matches|
  {
    if matches != [] {
      var d := DetachedAfter(matches[0].loc, detached);
      DetachAsWrittenFails(matches[1..], d);
      if IsMember(matches[0]) && matches[0].loc in detached {
        assert SeenBefore(matches, 0, detached);
      } else {
        if MemberRepeated(matches[1..], d) {
          RepeatedFromRest(matches, detached);
        }
        if MemberRepeated(matches, detached) {
          RepeatedInRest(matches, detached);
        }
      }
    }
  }

  /** A sequence of matches given twice repeats each of its members. */
  lemma DoubledMemberRepeated(ms: seq<Node>, k: nat)
    requires k < |ms| && IsMember(ms[k])
    ensures MemberRepeated(ms + ms, {})
  {
    assert (ms + ms)[|ms| + k] == ms[k] == (ms + ms)[k];
    assert SeenBefore(ms + ms, |ms| + k, {});
  }

  /** A sequence of matches given twice matches the same locations. */
  lemma DoubledMatchedLocs(ms: seq<Node>)
    ensures MatchedLocs(ms + ms) == MatchedLocs(ms)
  {
    forall l | l in MatchedLocs(ms + ms) ensures l in MatchedLocs(ms) {
      var i :| 0 <= i < |ms + ms| && (ms + ms)[i].loc == l;
      if i >= |ms| {
        assert (ms + ms)[i] == ms[i - |ms|];
      } else {
        assert (ms + ms)[i] == ms[i];
      }
    }
    forall l | l in MatchedLocs(ms) ensures l in MatchedLocs(ms + ms) {
      var i :| 0 <= i < |ms| && ms[i].loc == l;
      assert (ms + ms)[i] == ms[i];
    }
  }

  /** The Flagstaff garden of the library's tests, properties in name order. */
  function Flagstaff(): Value
  {
    Obj([
      Member("Address", Obj([Member("Postcode", Str("3000")), Member("Street", Str("William"))])),
      Member("Name", Str("Flagstaff")),
      Member("Rating", Number(4)),
      Member("Trees", Arr([Str("Elm"), Str("Eucalyptus"), Str("Morton Bay Fig")]))])
  }

  /** Excluding `Name` twice: the second removal of the detached member fails. */
  lemma RepeatedMemberExclusionFails()
    ensures var name := Node([Key("Name")], Str("Flagstaff"));
      DetachAsWritten([name, name], {}) == Err(ParentMissing)
  {
    var name := Node([Key("Name")], Str("Flagstaff"));
    assert [name, name][1..] == [name];
  }

  /** Excluding `Trees[0]` twice removes the element once, without an error. */
  lemma RepeatedElementExclusionSkipped()
    ensures var elm := Node([Key("Trees"), At(0)], Str("Elm"));
      DetachAsWritten([elm, elm], {}) == Ok({[Key("Trees"), At(0)]})
  {
    var elm := Node([Key("Trees"), At(0)], Str("Elm"));
    var loc := [Key("Trees"), At(0)];
    assert [elm, elm][1..] == [elm] && [elm][1..] == [];
    assert !loc[|loc| - 1].Key?;
    assert DetachAsWritten([elm], {loc}) == DetachAsWritten([], {loc});
    assert DetachAsWritten([elm, elm], {}) == DetachAsWritten([elm], {} + {loc});
    assert {} + {loc} == {loc};
  }
}
