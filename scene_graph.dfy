/**
 * The Unity scene graph as far as the ragdoll code uses it: every Transform has
 * an optional parent, an ordered list of children (its sibling order) and a name.
 * `depth` is the number of ancestors; it only serves to make the tree acyclic
 * and to measure recursion up the parent chain.
 */
module Scenes {
  import opened Wrappers

  type NodeId = nat

  datatype Node = Node(parent: Option<NodeId>, children: seq<NodeId>, name: string, depth: nat)

  type Scene = map<NodeId, Node>

  /** A nullable Transform reference that, when it is not null, names a node of the scene. */
  predicate HasNode(s: Scene, t: Option<NodeId>) {
    t.None? || t.value in s
  }

  /** A node is one of its parent's children, one level deeper. */
  predicate LinkedUp(s: Scene, n: NodeId)
    requires n in s
  {
    match s[n].parent
    case None => s[n].depth == 0
    case Some(p) => p in s && s[n].depth == s[p].depth + 1 && n in s[p].children
  }

  /** Every child of a node exists, points back to it, and appears once. */
  predicate LinkedDown(s: Scene, n: NodeId)
    requires n in s
  {
    && (forall i :: 0 <= i < |s[n].children| ==>
          s[n].children[i] in s && s[s[n].children[i]].parent == Some(n))
    && (forall i, j :: 0 <= i < j < |s[n].children| ==> s[n].children[i] != s[n].children[j])
  }

  /** A finite forest with consistent parent and child links. */
  predicate Valid(s: Scene) {
    forall n :: n in s ==> LinkedUp(s, n) && LinkedDown(s, n)
  }

  /** `Transform.childCount` */
  function ChildCount(s: Scene, n: NodeId): nat
    requires n in s
  {
    |s[n].children|
  }

  /** The nodes a list mentions. */
  function Elements(xs: seq<NodeId>): set<NodeId> {
    set x | x in xs
  }

  /** A list without repeats has as many distinct elements as entries. */
  lemma {:induction false} DistinctCardinality(xs: seq<NodeId>)
    requires forall i, j :: 0 <= i < j < |xs| ==> xs[i] != xs[j]
    ensures |Elements(xs)| == |xs|
    decreases |xs|
  {
    if xs == [] {
      assert Elements(xs) == {};
    } else {
      var rest := xs[1..];
      assert forall i, j :: 0 <= i < j < |rest| ==> rest[i] == xs[i + 1] && rest[j] == xs[j + 1];
      DistinctCardinality(rest);
      assert xs[0] !in Elements(rest);
      assert Elements(xs) == Elements(rest) + {xs[0]};
    }
  }

  /** The child count is the number of nodes whose parent is `n`. */
  lemma ChildCountIsChildren(s: Scene, n: NodeId)
    requires Valid(s) && n in s
    ensures ChildCount(s, n) == |set m | m in s && s[m].parent == Some(n)|
  {
    var cs := s[n].children;
    forall x | x in cs ensures x in s && s[x].parent == Some(n) {
      var i :| 0 <= i < |cs| && cs[i] == x;
    }
    assert (set m | m in s && s[m].parent == Some(n)) == Elements(cs);
    DistinctCardinality(cs);
  }

  /** `Transform.GetChild(i)` */
  function GetChild(s: Scene, n: NodeId, i: nat): (c: NodeId)
    requires Valid(s) && n in s && i < ChildCount(s, n)
    ensures c in s && s[c].parent == Some(n) && s[c].depth == s[n].depth + 1
  {
    s[n].children[i]
  }

  /** Position of the first occurrence of `x` in `xs`. */
  function IndexOf(xs: seq<NodeId>, x: NodeId): (i: nat)
    requires x in xs
    ensures i < |xs| && xs[i] == x
    ensures forall j :: 0 <= j < i ==> xs[j] != x
  {
    if xs[0] == x then 0 else 1 + IndexOf(xs[1..], x)
  }

  /** `Transform.GetSiblingIndex()` of a node that has a parent. */
  function SiblingIndex(s: Scene, n: NodeId): (i: nat)
    requires Valid(s) && n in s && s[n].parent.Some?
    ensures s[n].parent.value in s
    ensures i < ChildCount(s, s[n].parent.value) && GetChild(s, s[n].parent.value, i) == n
  {
    IndexOf(s[s[n].parent.value].children, n)
  }

  /** The proper ancestors of a node, nearest first. */
  function Ancestors(s: Scene, n: NodeId): (a: seq<NodeId>)
    requires Valid(s) && n in s
    ensures forall k :: 0 <= k < |a| ==> a[k] in s
    ensures |a| == s[n].depth
    decreases s[n].depth
  {
    match s[n].parent
    case None => []
    case Some(p) => [p] + Ancestors(s, p)
  }

  /** `n` is `root` or lies somewhere below it. */
  predicate Descends(s: Scene, n: NodeId, root: NodeId)
    requires Valid(s) && n in s
  {
    n == root || root in Ancestors(s, n)
  }

  /** A node strictly below `root` has a parent, which is still at or below `root`. */
  lemma ParentDescends(s: Scene, n: NodeId, root: NodeId)
    requires Valid(s) && n in s && Descends(s, n, root) && n != root
    ensures s[n].parent.Some? && s[n].parent.value in s
    ensures Descends(s, s[n].parent.value, root)
  {
    var p := s[n].parent.value;
    assert Ancestors(s, n) == [p] + Ancestors(s, p);
  }

  /** Whatever lies below a child of `t` lies below `t`. */
  lemma {:induction false} DescendsThroughChild(s: Scene, n: NodeId, c: NodeId, t: NodeId)
    requires Valid(s) && n in s && c in s && s[c].parent == Some(t)
    requires Descends(s, n, c)
    ensures Descends(s, n, t)
    decreases s[n].depth
  {
    if n != c {
      var p := s[n].parent.value;
      assert Ancestors(s, n) == [p] + Ancestors(s, p);
      if p != c {
        DescendsThroughChild(s, p, c, t);
      }
    }
  }
}
