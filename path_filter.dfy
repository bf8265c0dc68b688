// Exclusion and selection by JSONPath, shared by the three generations of
// the filtering code (the SnapshotValue wrapper, the older JToken helpers of
// Snapshot.Json.cs and the JSON serializer middleware). Exclusion resolves
// every path against the untouched tree, rejecting a path that matches the
// root, and only then detaches the matches one by one; selection
// concatenates the matches of the paths in the order the paths are listed.

module PathFilter {
  import opened Wrappers
  import opened JsonValue
  import opened JsonPathSyntax
  import opened JsonPath
  import opened JsonEdit

  /** Which copy of the exclusion code runs: they differ only in the error raised for a root match. */
  datatype Generation = WrapperGeneration | JTokenGeneration | MiddlewareGeneration

  /** The exception each copy raises when an exclude path matches the root. */
  function RootExclusionError(g: Generation, p: string): (e: Error)
    ensures g != MiddlewareGeneration <==> TypeOf(e) == SnapTestParseException
    ensures g == MiddlewareGeneration <==> TypeOf(e) == SnapTestException
  {
    match g
    case WrapperGeneration => RootExcluded(p)
    case JTokenGeneration => ExcludedPathsMatchedRoot(p)
    case MiddlewareGeneration => MiddlewareExcludedRoot(p)
  }

  predicate MatchesRoot(ns: seq<Node>)
  {
    exists j :: 0 <= j < |ns| && ns[j].loc == []
  }

  /** A path that can be excluded: the parser accepts it and it does not denote the root. */
  predicate Excludable(p: string)
  {
    ParsePath(p).Some? && ParsePath(p).value != []
  }

  /** The error resolving `p` raises when it is not excludable. */
  function ExclusionError(g: Generation, p: string): Error
  {
    if ParsePath(p).None? then PathSyntax(p) else RootExclusionError(g, p)
  }

  /** Path lookup on a fixed tree: `p => root.SelectTokens(p)`. */
  function Lookup(v: Value): string -> Result<seq<Node>>
  {
    p => SelectTokens(v, p)
  }

  /** A path whose lookup succeeds without matching the root. */
  predicate Resolvable(lookup: string -> Result<seq<Node>>, p: string)
  {
    lookup(p).Ok? && !MatchesRoot(lookup(p).value)
  }

  function ResolveError(lookup: string -> Result<seq<Node>>, p: string, g: Generation): Error
  {
    if lookup(p).Err? then lookup(p).error else RootExclusionError(g, p)
  }

  /**
   * The matches of the first `n` exclude paths, in path order, all looked up
   * in the untouched tree; the first path whose lookup fails or matches the
   * root stops the resolution with its error.
   */
  function ResolveFirst(lookup: string -> Result<seq<Node>>, paths: seq<string>, n: nat, g: Generation): Result<seq<Node>>
    requires n <= |paths|
  {
    if n == 0 then Ok([])
    else
      match ResolveFirst(lookup, paths, n - 1, g)
      case Err(e) => Err(e)
      case Ok(ns) =>
        match lookup(paths[n - 1])
        case Err(e) => Err(e)
        case Ok(ms) => if MatchesRoot(ms) then Err(RootExclusionError(g, paths[n - 1])) else Ok(ns + ms)
  }

  /** The matches of all the exclude paths in the tree `v`. */
  function ResolveExclusions(v: Value, paths: seq<string>, g: Generation): Result<seq<Node>>
  {
    ResolveFirst(Lookup(v), paths, |paths|, g)
  }

  /** The tree left after removing the nodes the exclude paths match. */
  function ExcludePaths(v: Value, paths: seq<string>, g: Generation): Result<Value>
  {
    match ResolveExclusions(v, paths, g)
    case Err(e) => Err(e)
    case Ok(ns) => Ok(Pruned(v, MatchedLocs(ns)))
  }

  /**
   * The exclusion as all three copies of the removal loop run it: the
   * matches are detached with the as-written loop, so excluding a member
   * twice fails with the missing-parent error instead of removing it once.
   */
  function ExcludePathsAsWritten(v: Value, paths: seq<string>, g: Generation): (r: Result<Value>)
    ensures ResolveExclusions(v, paths, g).Err? ==> r == ExcludePaths(v, paths, g)
    ensures ResolveExclusions(v, paths, g).Ok? ==> (r.Err? <==> MemberRepeated(ResolveExclusions(v, paths, g).value, {}))
    ensures r.Err? && ResolveExclusions(v, paths, g).Ok? ==> r.error == ParentMissing
    ensures r.Ok? ==> r == ExcludePaths(v, paths, g)
  {
    match ResolveExclusions(v, paths, g)
    case Err(e) => Err(e)
    case Ok(ns) =>
      DetachAsWrittenFails(ns, {});
      match DetachAsWritten(ns, {})
      case Err(e) => Err(e)
      case Ok(d) =>
        DetachAsWrittenAgrees(ns, {});
        DetachRemovesMatched(ns, {});
        assert d == MatchedLocs(ns);
        Ok(Pruned(v, d))
  }

  /**
   * Excluding the same path twice, where it matches a member: the code as
   * written fails, while the corrected exclusion removes the matches once.
   */
  lemma RepeatedPathFails(v: Value, p: string, g: Generation, k: nat)
    requires Resolvable(Lookup(v), p)
    requires k < |SelectTokens(v, p).value| && IsMember(SelectTokens(v, p).value[k])
    ensures ExcludePathsAsWritten(v, [p, p], g) == Err(ParentMissing)
    ensures ExcludePaths(v, [p, p], g) == ExcludePaths(v, [p], g) && ExcludePaths(v, [p], g).Ok?
  {
    var ms := SelectTokens(v, p).value;
    assert Lookup(v)(p) == Ok(ms) && !MatchesRoot(ms);
    assert ResolveFirst(Lookup(v), [p, p], 0, g) == Ok([]);
    assert ResolveFirst(Lookup(v), [p, p], 1, g) == Ok([] + ms);
    assert [] + ms == ms;
    assert ResolveFirst(Lookup(v), [p], 0, g) == Ok([]);
    assert ResolveExclusions(v, [p], g) == Ok(ms);
    assert ResolveExclusions(v, [p, p], g) == Ok(ms + ms);
    DoubledMemberRepeated(ms, k);
    DoubledMatchedLocs(ms);
  }

  lemma MatchesRootIffEmptyPath(v: Value, p: string)
    requires ParsePath(p).Some?
    ensures MatchesRoot(SelectTokens(v, p).value) <==> ParsePath(p).value == []
  {
    SelectTokensSound(v, p);
  }

  /** In a tree, a path resolves exactly when it is excludable, and otherwise raises its exclusion error. */
  lemma LookupResolvable(v: Value, p: string, g: Generation)
    ensures Resolvable(Lookup(v), p) <==> Excludable(p)
    ensures !Excludable(p) ==> ResolveError(Lookup(v), p, g) == ExclusionError(g, p)
  {
    if ParsePath(p).Some? {
      MatchesRootIffEmptyPath(v, p);
    }
  }

  /** A successful resolution of `n` paths extends the resolution of the first `n - 1` by the matches of the last. */
  lemma ResolveFirstStep(lookup: string -> Result<seq<Node>>, paths: seq<string>, n: nat, g: Generation)
    requires 0 < n <= |paths| && ResolveFirst(lookup, paths, n, g).Ok?
    ensures ResolveFirst(lookup, paths, n - 1, g).Ok? && Resolvable(lookup, paths[n - 1])
    ensures ResolveFirst(lookup, paths, n, g).value == ResolveFirst(lookup, paths, n - 1, g).value + lookup(paths[n - 1]).value
  {
  }

  /** A resolution that has failed stays failed with the same error. */
  lemma ResolveFirstErrKept(lookup: string -> Result<seq<Node>>, paths: seq<string>, n: nat, g: Generation)
    requires 0 < n <= |paths| && ResolveFirst(lookup, paths, n - 1, g).Err?
    ensures ResolveFirst(lookup, paths, n, g) == ResolveFirst(lookup, paths, n - 1, g)
  {
  }

  /** A resolution that fails only at the last path fails with that path's error. */
  lemma ResolveFirstErrLast(lookup: string -> Result<seq<Node>>, paths: seq<string>, n: nat, g: Generation)
    requires 0 < n <= |paths| && ResolveFirst(lookup, paths, n - 1, g).Ok? && ResolveFirst(lookup, paths, n, g).Err?
    ensures !Resolvable(lookup, paths[n - 1]) && ResolveFirst(lookup, paths, n, g).error == ResolveError(lookup, paths[n - 1], g)
  {
  }

  /** Resolution of the first `n` paths succeeds exactly when each of them resolves. */
  lemma {:induction false} ResolveFirstOk(lookup: string -> Result<seq<Node>>, paths: seq<string>, n: nat, g: Generation)
    requires n <= |paths|
    ensures ResolveFirst(lookup, paths, n, g).Ok? <==> forall i :: 0 <= i < n ==> Resolvable(lookup, paths[i])
  {
    if n > 0 {
      ResolveFirstOk(lookup, paths, n - 1, g);
    }
  }

  /** A failed resolution fails with the error of the first path that does not resolve. */
  lemma {:induction false} ResolveFirstError(lookup: string -> Result<seq<Node>>, paths: seq<string>, n: nat, g: Generation)
    requires n <= |paths| && ResolveFirst(lookup, paths, n, g).Err?
    ensures exists i :: (0 <= i < n && !Resolvable(lookup, paths[i]) && (forall j :: 0 <= j < i ==> Resolvable(lookup, paths[j])) &&
        ResolveFirst(lookup, paths, n, g).error == ResolveError(lookup, paths[i], g))
  {
    if ResolveFirst(lookup, paths, n - 1, g).Err? {
      ResolveFirstErrKept(lookup, paths, n, g);
      ResolveFirstError(lookup, paths, n - 1, g);
    } else {
      ResolveFirstErrLast(lookup, paths, n, g);
      ResolveFirstOk(lookup, paths, n - 1, g);
    }
  }

  /** Resolution succeeds exactly when every path is excludable. */
  lemma ResolveExclusionsOk(v: Value, paths: seq<string>, g: Generation)
    ensures ResolveExclusions(v, paths, g).Ok? <==> forall i :: 0 <= i < |paths| ==> Excludable(paths[i])
  {
    ResolveFirstOk(Lookup(v), paths, |paths|, g);
    forall i | 0 <= i < |paths| ensures Resolvable(Lookup(v), paths[i]) <==> Excludable(paths[i]) {
      LookupResolvable(v, paths[i], g);
    }
  }

  /** A failed resolution fails with the error of the first path that is not excludable. */
  lemma ResolveExclusionsFirstError(v: Value, paths: seq<string>, g: Generation)
    requires ResolveExclusions(v, paths, g).Err?
    ensures exists i :: (0 <= i < |paths| && !Excludable(paths[i]) && (forall j :: 0 <= j < i ==> Excludable(paths[j])) &&
        ResolveExclusions(v, paths, g).error == ExclusionError(g, paths[i]))
  {
    ResolveFirstError(Lookup(v), paths, |paths|, g);
    var i :| 0 <= i < |paths| && !Resolvable(Lookup(v), paths[i]) && (forall j :: 0 <= j < i ==> Resolvable(Lookup(v), paths[j])) &&
        ResolveExclusions(v, paths, g).error == ResolveError(Lookup(v), paths[i], g);
    forall j | 0 <= j < i ensures Excludable(paths[j]) {
      LookupResolvable(v, paths[j], g);
    }
    LookupResolvable(v, paths[i], g);
  }

  /** Nodes of the tree `v` that are not its root. */
  predicate BelowRoot(v: Value, ns: seq<Node>)
  {
    forall i :: 0 <= i < |ns| ==> ns[i].loc != [] && NodeAt(v, ns[i].loc) == Some(ns[i].value)
  }

  /** The matches of a resolvable path are nodes of the tree below the root. */
  lemma LookupBelowRoot(v: Value, p: string)
    requires Resolvable(Lookup(v), p)
    ensures BelowRoot(v, Lookup(v)(p).value)
  {
    SelectTokensSound(v, p);
  }

  lemma BelowRootConcat(v: Value, ns: seq<Node>, ms: seq<Node>)
    requires BelowRoot(v, ns) && BelowRoot(v, ms)
    ensures BelowRoot(v, ns + ms)
  {
    forall i | 0 <= i < |ns + ms| ensures (ns + ms)[i].loc != [] && NodeAt(v, (ns + ms)[i].loc) == Some((ns + ms)[i].value) {
      if i >= |ns| {
        assert (ns + ms)[i] == ms[i - |ns|];
      }
    }
  }

  /** When every resolvable path matches only nodes below the root, so does any successful resolution. */
  lemma {:induction false} ResolveFirstBelowRoot(v: Value, lookup: string -> Result<seq<Node>>, paths: seq<string>, n: nat, g: Generation)
    requires n <= |paths| && ResolveFirst(lookup, paths, n, g).Ok?
    requires forall i :: 0 <= i < n && Resolvable(lookup, paths[i]) ==> BelowRoot(v, lookup(paths[i]).value)
    ensures BelowRoot(v, ResolveFirst(lookup, paths, n, g).value)
  {
    if n > 0 {
      ResolveFirstStep(lookup, paths, n, g);
      ResolveFirstBelowRoot(v, lookup, paths, n - 1, g);
      BelowRootConcat(v, ResolveFirst(lookup, paths, n - 1, g).value, lookup(paths[n - 1]).value);
    }
  }

  /** Every resolved match is a node of the tree below the root. */
  lemma ResolveFirstSound(v: Value, paths: seq<string>, n: nat, g: Generation)
    requires n <= |paths| && ResolveFirst(Lookup(v), paths, n, g).Ok?
    ensures BelowRoot(v, ResolveFirst(Lookup(v), paths, n, g).value)
  {
    forall i | 0 <= i < n && Resolvable(Lookup(v), paths[i]) ensures BelowRoot(v, Lookup(v)(paths[i]).value) {
      LookupBelowRoot(v, paths[i]);
    }
    ResolveFirstBelowRoot(v, Lookup(v), paths, n, g);
  }

  /** Every node the exclude paths match is a node of the tree below its root. */
  lemma ResolveExclusionsSound(v: Value, paths: seq<string>, g: Generation)
    requires ResolveExclusions(v, paths, g).Ok?
    ensures var ns := ResolveExclusions(v, paths, g).value;
      forall i :: 0 <= i < |ns| ==> ns[i].loc != [] && NodeAt(v, ns[i].loc) == Some(ns[i].value)
  {
    ResolveFirstSound(v, paths, |paths|, g);
  }

  /** Up to the error raised for a root match, the three copies of the exclusion code behave alike. */
  lemma {:induction false} GenerationsAgree(lookup: string -> Result<seq<Node>>, paths: seq<string>, n: nat, g: Generation, h: Generation)
    requires n <= |paths|
    ensures ResolveFirst(lookup, paths, n, g).Ok? <==> ResolveFirst(lookup, paths, n, h).Ok?
    ensures ResolveFirst(lookup, paths, n, g).Ok? ==> ResolveFirst(lookup, paths, n, g) == ResolveFirst(lookup, paths, n, h)
  {
    if n > 0 {
      GenerationsAgree(lookup, paths, n - 1, g, h);
    }
  }

  /**
   * The exclusion code: resolve every path first (stopping at the first
   * error, with nothing removed), then detach the matches in order.
   */
  method RemoveMatches(root: Value, paths: seq<string>, g: Generation) returns (r: Result<Value>)
    ensures r == ExcludePaths(root, paths, g)
  {
    var resolved := ResolveMatches(Lookup(root), paths, g);
    if resolved.Err? {
      return Err(resolved.error);
    }
    var detached := DetachAll(resolved.value);
    return Ok(Pruned(root, detached));
  }

  /** The resolution loop: each path's matches in turn, all from the untouched tree, until a path fails. */
  method ResolveMatches(lookup: string -> Result<seq<Node>>, paths: seq<string>, g: Generation) returns (r: Result<seq<Node>>)
    ensures r == ResolveFirst(lookup, paths, |paths|, g)
  {
    r := Ok([]);
    var i := 0;
    while i < |paths| && r.Ok?
      invariant 0 <= i <= |paths|
      invariant r == ResolveFirst(lookup, paths, i, g)
    {
      var tokens := lookup(paths[i]);
      if tokens.Err? {
        r := Err(tokens.error);
      } else if MatchesRoot(tokens.value) {
        r := Err(RootExclusionError(g, paths[i]));
      } else {
        r := Ok(r.value + tokens.value);
      }
      i := i + 1;
    }
    if r.Err? {
      ResolveStopsAt(lookup, paths, i, g);
    }
  }

  /** The removal loop: each match in order, skipping the root and every location already detached. */
  method DetachAll(matches: seq<Node>) returns (detached: set<Loc>)
    ensures detached == MatchedLocs(matches)
  {
    detached := {};
    var j := 0;
    while j < |matches|
      invariant 0 <= j <= |matches|
      invariant Detach(matches[j..], detached) == Detach(matches, {})
    {
      assert matches[j..][1..] == matches[j + 1..];
      var loc := matches[j].loc;
      if loc != [] && loc !in detached {
        detached := detached + {loc};
      }
      j := j + 1;
    }
    DetachRemovesMatched(matches, {});
    assert {} + MatchedLocs(matches) == MatchedLocs(matches);
  }

  /** Once the first `k` paths fail to resolve, so does the whole list, with the same error. */
  lemma {:induction false} ResolveStopsAt(lookup: string -> Result<seq<Node>>, paths: seq<string>, k: nat, g: Generation)
    requires k <= |paths| && ResolveFirst(lookup, paths, k, g).Err?
    ensures ResolveFirst(lookup, paths, |paths|, g) == ResolveFirst(lookup, paths, k, g)
    decreases |paths| - k
  {
    if k < |paths| {
      ResolveStopsAt(lookup, paths, k + 1, g);
    }
  }

  /** The first path whose matches include the root stops the resolution with the root-exclusion error. */
  lemma ResolveStopsAtRoot(lookup: string -> Result<seq<Node>>, paths: seq<string>, i: nat, g: Generation)
    requires i < |paths| && forall j :: 0 <= j < i ==> Resolvable(lookup, paths[j])
    requires lookup(paths[i]).Ok? && MatchesRoot(lookup(paths[i]).value)
    ensures ResolveFirst(lookup, paths, |paths|, g) == Err(RootExclusionError(g, paths[i]))
  {
    ResolveFirstOk(lookup, paths, i, g);
    assert ResolveFirst(lookup, paths, i + 1, g) == Err(RootExclusionError(g, paths[i]));
    ResolveStopsAt(lookup, paths, i + 1, g);
  }

  // ---- selection ------------------------------------------------------------

  function Values(ns: seq<Node>): (r: seq<Value>)
    ensures |r| == |ns| && forall i :: 0 <= i < |ns| ==> r[i] == ns[i].value
  {
    seq(|ns|, i requires 0 <= i < |ns| => ns[i].value)
  }

  /** The matches of each path in turn, concatenated in path order; a path whose lookup fails raises its error. */
  function SelectAll(lookup: string -> Result<seq<Node>>, paths: seq<string>): Result<seq<Value>>
    decreases |paths|
  {
    if paths == [] then Ok([])
    else
      match lookup(paths[0])
      case Err(e) => Err(e)
      case Ok(ns) =>
        match SelectAll(lookup, paths[1..])
        case Err(e) => Err(e)
        case Ok(rest) => Ok(Values(ns) + rest)
  }

  /** The include paths selected in the tree `v`. */
  function SelectIncluded(v: Value, paths: seq<string>): Result<seq<Value>>
  {
    SelectAll(Lookup(v), paths)
  }

  /** A successful selection is the first path's matches followed by the selection of the rest. */
  lemma SelectAllUnfold(lookup: string -> Result<seq<Node>>, paths: seq<string>)
    requires paths != [] && (SelectAll(lookup, paths).Ok? || (lookup(paths[0]).Ok? && SelectAll(lookup, paths[1..]).Ok?))
    ensures lookup(paths[0]).Ok? && SelectAll(lookup, paths[1..]).Ok?
    ensures SelectAll(lookup, paths) == Ok(Values(lookup(paths[0]).value) + SelectAll(lookup, paths[1..]).value)
  {
  }

  /** Selecting by a list of paths is selecting by each path and concatenating: `Name`,`Address` then `Trees` is `Name`,`Address` followed by `Trees`. */
  lemma {:induction false} SelectAllConcat(lookup: string -> Result<seq<Node>>, ps: seq<string>, qs: seq<string>)
    requires SelectAll(lookup, ps).Ok? && SelectAll(lookup, qs).Ok?
    ensures SelectAll(lookup, ps + qs) == Ok(SelectAll(lookup, ps).value + SelectAll(lookup, qs).value)
    decreases |ps|
  {
    if ps == [] {
      assert ps + qs == qs;
      assert [] + SelectAll(lookup, qs).value == SelectAll(lookup, qs).value;
    } else {
      var r := ps + qs;
      assert r != [] && r[0] == ps[0] && r[1..] == ps[1..] + qs;
      SelectAllUnfold(lookup, ps);
      SelectAllConcat(lookup, ps[1..], qs);
      SelectAllUnfold(lookup, r);
      var x, y, z := Values(lookup(ps[0]).value), SelectAll(lookup, ps[1..]).value, SelectAll(lookup, qs).value;
      assert x + (y + z) == (x + y) + z;
    }
  }

  /** Selection fails exactly when the lookup of some path fails. */
  lemma {:induction false} SelectAllOk(lookup: string -> Result<seq<Node>>, paths: seq<string>)
    ensures SelectAll(lookup, paths).Ok? <==> forall i :: 0 <= i < |paths| ==> lookup(paths[i]).Ok?
    decreases |paths|
  {
    if paths != [] {
      SelectAllOk(lookup, paths[1..]);
      assert forall i :: 1 <= i < |paths| ==> paths[1..][i - 1] == paths[i];
    }
  }

  /** In a tree, selection fails exactly when the parser rejects some include path. */
  lemma SelectIncludedOk(v: Value, paths: seq<string>)
    ensures SelectIncluded(v, paths).Ok? <==> forall i :: 0 <= i < |paths| ==> ParsePath(paths[i]).Some?
  {
    SelectAllOk(Lookup(v), paths);
    forall i | 0 <= i < |paths| ensures Lookup(v)(paths[i]).Ok? <==> ParsePath(paths[i]).Some? {
    }
  }

  /** A list of one path selects that path's matches. */
  lemma SelectIncludedOne(v: Value, p: string)
    requires ParsePath(p).Some?
    ensures SelectIncluded(v, [p]) == Ok(Values(SelectTokens(v, p).value))
  {
    var lookup, ms := Lookup(v), SelectTokens(v, p).value;
    assert [p][1..] == [] && lookup([p][0]) == Ok(ms);
    SelectAllUnfold(lookup, [p]);
    assert Values(ms) + [] == Values(ms);
  }

  /** The switch on the number of matches: nothing is JSON null, one match is itself, more are an array in match order. */
  function Unwrap(selected: seq<Value>): (r: Value)
    ensures |selected| == 0 ==> r == Null
    ensures |selected| == 1 ==> r == selected[0]
    ensures |selected| >= 2 ==> r.Arr? && r.items == selected
  {
    if |selected| == 0 then Null else if |selected| == 1 then selected[0] else Arr(selected)
  }
}
