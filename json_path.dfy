// Evaluation of the JSONPath subset over a token tree (JToken.SelectTokens
// with its default settings): every segment is applied to every node the
// previous segments produced, its selectors in the order they are written;
// a missing member, an index past the end or a selector of the wrong kind
// contributes nothing. The result is a node list: each node is a value
// together with its location, which is how the removal step identifies the
// tokens it detaches.

module JsonPath {
  import opened Wrappers
  import opened JsonValue
  import opened JsonPathSyntax

  /** One step down from a node: a member by key, or an array element by position. */
  datatype Step = Key(key: string) | At(index: nat)

  /** The steps from the root to a node. */
  type Loc = seq<Step>

  datatype Node = Node(loc: Loc, value: Value)

  /** The child one step below `v`, if there is one. */
  function Child(v: Value, step: Step): (r: Option<Value>)
    ensures step.Key? ==> r == PropertyValue(v, step.key)
    ensures step.At? ==> (r.Some? <==> v.Arr? && step.index < |v.items|)
  {
    match step
    case Key(k) => PropertyValue(v, k)
    case At(i) => if v.Arr? && i < |v.items| then Some(v.items[i]) else None
  }

  /** The node at a location, following the steps from the root. */
  function NodeAt(root: Value, loc: Loc): Option<Value>
    decreases |loc|
  {
    if loc == [] then Some(root)
    else
      match NodeAt(root, loc[..|loc| - 1])
      case None => None
      case Some(parent) => Child(parent, loc[|loc| - 1])
  }

  function StepOf(sel: Selector): Step
  {
    match sel
    case Name(k) => Key(k)
    case Index(i) => At(i)
  }

  function SelectorNodes(n: Node, sel: Selector): (r: seq<Node>)
    ensures |r| <= 1
  {
    match Child(n.value, StepOf(sel))
    case None => []
    case Some(c) => [Node(n.loc + [StepOf(sel)], c)]
  }

  /** The nodes one segment produces from one node: its selectors' results, concatenated in order. */
  function SegmentNodes(n: Node, seg: Segment): (r: seq<Node>)
    ensures |r| <= |seg|
  {
    if seg == [] then [] else SelectorNodes(n, seg[0]) + SegmentNodes(n, seg[1..])
  }

  /** One segment applied to every node of a node list, results concatenated in node order. */
  function Descend(nodes: seq<Node>, seg: Segment): seq<Node>
  {
    if nodes == [] then [] else SegmentNodes(nodes[0], seg) + Descend(nodes[1..], seg)
  }

  function Evaluate(nodes: seq<Node>, p: Path): seq<Node>
    decreases |p|
  {
    if p == [] then nodes else Evaluate(Descend(nodes, p[0]), p[1..])
  }

  function RootNode(v: Value): Node
  {
    Node([], v)
  }

  /** JToken.SelectTokens(text): the matches, or the parser's error for a path outside the subset. */
  function SelectTokens(v: Value, text: string): (r: Result<seq<Node>>)
    ensures r.Err? <==> ParsePath(text).None?
    ensures r.Err? ==> r.error == PathSyntax(text)
    ensures r.Ok? ==> r.value == Evaluate([RootNode(v)], ParsePath(text).value)
  {
    match ParsePath(text)
    case None => Err(PathSyntax(text))
    case Some(p) => Ok(Evaluate([RootNode(v)], p))
  }

  // ---- every match is a node of the tree, as deep as the path is long ----

  /** Every node of the list is the node of `root` at its location, at depth `depth`. */
  predicate NodesOf(root: Value, nodes: seq<Node>, depth: nat)
  {
    forall i :: 0 <= i < |nodes| ==> NodeAt(root, nodes[i].loc) == Some(nodes[i].value) && |nodes[i].loc| == depth
  }

  lemma NodeAtExtend(root: Value, loc: Loc, step: Step)
    ensures NodeAt(root, loc + [step]) ==
      match NodeAt(root, loc) case None => None case Some(p) => Child(p, step)
  {
    assert (loc + [step])[..|loc|] == loc;
  }

  lemma {:induction false} SegmentNodesSound(root: Value, n: Node, seg: Segment, depth: nat)
    requires NodeAt(root, n.loc) == Some(n.value) && |n.loc| == depth
    ensures NodesOf(root, SegmentNodes(n, seg), depth + 1)
    decreases |seg|
  {
    if seg != [] {
      NodeAtExtend(root, n.loc, StepOf(seg[0]));
      SegmentNodesSound(root, n, seg[1..], depth);
    }
  }

  lemma NodesOfConcat(root: Value, a: seq<Node>, b: seq<Node>, depth: nat)
    requires NodesOf(root, a, depth) && NodesOf(root, b, depth)
    ensures NodesOf(root, a + b, depth)
  {
    forall i | 0 <= i < |a + b|
      ensures NodeAt(root, (a + b)[i].loc) == Some((a + b)[i].value) && |(a + b)[i].loc| == depth
    {
      if i >= |a| {
        assert (a + b)[i] == b[i - |a|];
      }
    }
  }

  lemma {:induction false} DescendSound(root: Value, nodes: seq<Node>, seg: Segment, depth: nat)
    requires NodesOf(root, nodes, depth)
    ensures NodesOf(root, Descend(nodes, seg), depth + 1)
    decreases |nodes|
  {
    if nodes != [] {
      SegmentNodesSound(root, nodes[0], seg, depth);
      DescendSound(root, nodes[1..], seg, depth);
      NodesOfConcat(root, SegmentNodes(nodes[0], seg), Descend(nodes[1..], seg), depth + 1);
    }
  }

  lemma {:induction false} EvaluateSound(root: Value, nodes: seq<Node>, p: Path, depth: nat)
    requires NodesOf(root, nodes, depth)
    ensures NodesOf(root, Evaluate(nodes, p), depth + |p|)
    decreases |p|
  {
    if p != [] {
      DescendSound(root, nodes, p[0], depth);
      EvaluateSound(root, Descend(nodes, p[0]), p[1..], depth + 1);
    }
  }

  /**
   * Every match of a path is the node of the tree at the match's location,
   * and that location has one step per segment: so the root is matched
   * exactly when the path has no segments.
   */
  lemma SelectTokensSound(v: Value, text: string)
    requires SelectTokens(v, text).Ok?
    ensures NodesOf(v, SelectTokens(v, text).value, |ParsePath(text).value|)
    ensures var ns := SelectTokens(v, text).value;
      (exists i :: 0 <= i < |ns| && ns[i].loc == []) <==> ParsePath(text).value == []
  {
    var p := ParsePath(text).value;
    EvaluateSound(v, [RootNode(v)], p, 0);
    var ns := SelectTokens(v, text).value;
    if p == [] {
      assert ns == [RootNode(v)] && ns[0].loc == [];
    }
  }

  // ---- order: results follow the selectors as written ----------------------

  lemma {:induction false} SegmentNodesConcat(n: Node, s: Segment, t: Segment)
    ensures SegmentNodes(n, s + t) == SegmentNodes(n, s) + SegmentNodes(n, t)
    decreases |s|
  {
    if s != [] {
      assert (s + t)[0] == s[0] && (s + t)[1..] == s[1..] + t;
      SegmentNodesConcat(n, s[1..], t);
      var x, y, z := SelectorNodes(n, s[0]), SegmentNodes(n, s[1..]), SegmentNodes(n, t);
      assert x + (y + z) == (x + y) + z;
    } else {
      assert s + t == t;
    }
  }

  lemma {:induction false} DescendSegmentConcat(nodes: seq<Node>, s: Segment, t: Segment)
    ensures Descend(nodes, s + t) == Interleave(nodes, s, t)
    decreases |nodes|
  {
    if nodes != [] {
      SegmentNodesConcat(nodes[0], s, t);
      DescendSegmentConcat(nodes[1..], s, t);
    }
  }

  /** For each node in turn: what `s` selects from it, then what `t` selects. */
  function Interleave(nodes: seq<Node>, s: Segment, t: Segment): seq<Node>
  {
    if nodes == [] then [] else SegmentNodes(nodes[0], s) + SegmentNodes(nodes[0], t) + Interleave(nodes[1..], s, t)
  }

  /**
   * A bracket list applied to the root selects what its selectors select
   * one by one, in the order written: `$['Name','Address']` gives the
   * matches of `Name` followed by those of `Address`.
   */
  lemma UnionOfSelectors(v: Value, s: Segment, t: Segment)
    ensures Evaluate([RootNode(v)], [s + t]) == Evaluate([RootNode(v)], [s]) + Evaluate([RootNode(v)], [t])
  {
    SingleSegment(RootNode(v), s + t);
    SingleSegment(RootNode(v), s);
    SingleSegment(RootNode(v), t);
    SegmentNodesConcat(RootNode(v), s, t);
  }

  /** A one-segment path from one node is that segment's nodes. */
  lemma SingleSegment(n: Node, seg: Segment)
    ensures Evaluate([n], [seg]) == SegmentNodes(n, seg)
  {
    assert [n][1..] == [] && [seg][1..] == [];
    assert Descend([n], seg) == SegmentNodes(n, seg) + [];
  }

  lemma {:induction false} DescendNodesConcat(a: seq<Node>, b: seq<Node>, seg: Segment)
    ensures Descend(a + b, seg) == Descend(a, seg) + Descend(b, seg)
    decreases |a|
  {
    if a != [] {
      assert (a + b)[0] == a[0] && (a + b)[1..] == a[1..] + b;
      DescendNodesConcat(a[1..], b, seg);
      var x, y, z := SegmentNodes(a[0], seg), Descend(a[1..], seg), Descend(b, seg);
      assert x + (y + z) == (x + y) + z;
    } else {
      assert a + b == b;
    }
  }

  /** Applying a path to a node list applies it to each node in turn. */
  lemma {:induction false} EvaluateNodesConcat(a: seq<Node>, b: seq<Node>, p: Path)
    ensures Evaluate(a + b, p) == Evaluate(a, p) + Evaluate(b, p)
    decreases |p|
  {
    if p != [] {
      DescendNodesConcat(a, b, p[0]);
      EvaluateNodesConcat(Descend(a, p[0]), Descend(b, p[0]), p[1..]);
    }
  }

  /** A longer path evaluates as its prefix followed by the rest. */
  lemma {:induction false} EvaluatePathConcat(nodes: seq<Node>, p: Path, q: Path)
    ensures Evaluate(nodes, p + q) == Evaluate(Evaluate(nodes, p), q)
    decreases |p|
  {
    if p != [] {
      assert (p + q)[0] == p[0] && (p + q)[1..] == p[1..] + q;
      EvaluatePathConcat(Descend(nodes, p[0]), p[1..], q);
    } else {
      assert p + q == q;
    }
  }

  /** A single name finds the member of that key, and nothing when there is none. */
  lemma NameSelects(v: Value, k: string)
    ensures Evaluate([RootNode(v)], [[Name(k)]]) ==
      if v.Obj? && k in Keys(v.members) then [Node([Key(k)], PropertyValue(v, k).value)] else []
  {
    SingleSegment(RootNode(v), [Name(k)]);
    assert [Name(k)][1..] == [];
    assert SegmentNodes(RootNode(v), [Name(k)]) == SelectorNodes(RootNode(v), Name(k)) + [];
    assert RootNode(v).loc + [Key(k)] == [Key(k)];
  }

  /** A single index finds that element of an array, and nothing past its end or on a non-array. */
  lemma IndexSelects(v: Value, i: nat)
    ensures Evaluate([RootNode(v)], [[Index(i)]]) ==
      if v.Arr? && i < |v.items| then [Node([At(i)], v.items[i])] else []
  {
    SingleSegment(RootNode(v), [Index(i)]);
    assert [Index(i)][1..] == [];
    assert SegmentNodes(RootNode(v), [Index(i)]) == SelectorNodes(RootNode(v), Index(i)) + [];
    assert RootNode(v).loc + [At(i)] == [At(i)];
  }
}
