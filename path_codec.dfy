/**
 * The sibling-index path codec of `RigTemplate`: `GetTransformPath` writes a node
 * as the dot-separated sibling indices that lead to it from a root ("X" for the
 * root itself), and `GetTransformFromPath` walks such a string back down a tree,
 * reading ONE character per index.
 */
module PathCodec {
  import opened Wrappers
  import opened Scenes

  predicate IsDigit(c: char) {
    '0' <= c <= '9'
  }

  function DigitValue(c: char): (d: nat)
    requires IsDigit(c)
    ensures d < 10
  {
    c as int - '0' as int
  }

  function DigitChar(d: nat): (c: char)
    requires d < 10
    ensures IsDigit(c) && DigitValue(c) == d
  {
    ('0' as int + d) as char
  }

  /** The number a string of decimal digits denotes, most significant digit first. */
  function DecimalValue(r: string): nat
    requires forall k :: 0 <= k < |r| ==> IsDigit(r[k])
  {
    if |r| == 0 then 0 else 10 * DecimalValue(r[..|r| - 1]) + DigitValue(r[|r| - 1])
  }

  /** C# `$"{i}"` for a non-negative int: its decimal digits, with no leading zero. */
  function NatToString(n: nat): (r: string)
    ensures |r| > 0 && forall k :: 0 <= k < |r| ==> IsDigit(r[k])
    ensures DecimalValue(r) == n
    ensures |r| > 1 ==> r[0] != '0'
    ensures n < 10 <==> |r| == 1
    ensures n < 10 ==> DigitValue(r[0]) == n
    decreases n
  {
    if n < 10 then [DigitChar(n)]
    else
      var high := NatToString(n / 10);
      var r := high + [DigitChar(n % 10)];
      assert r[..|r| - 1] == high;
      r
  }

  /** Sibling indices written outermost first, separated by '.'. */
  function JoinIndices(ixs: seq<nat>): (r: string)
    requires |ixs| > 0
    ensures |r| > 0 && IsDigit(r[0])
    ensures forall k :: 0 <= k < |r| ==> IsDigit(r[k]) || r[k] == '.'
  {
    if |ixs| == 1 then NatToString(ixs[0])
    else NatToString(ixs[0]) + "." + JoinIndices(ixs[1..])
  }

  predicate SingleDigit(ixs: seq<nat>) {
    forall k :: 0 <= k < |ixs| ==> ixs[k] < 10
  }

  // ---------------------------------------------------------------------------
  // Encoding

  /**
   * `RigTemplate.GetTransformPath(childTransform, relativeTo)`. Null encodes as
   * "", and "X" is written exactly for `relativeTo` itself; every other result
   * is made of digits and dots only.
   */
  function GetTransformPath(s: Scene, child: Option<NodeId>, relativeTo: Option<NodeId>): (r: string)
    requires Valid(s) && HasNode(s, child)
    ensures child.None? ==> r == ""
    ensures r == "X" <==> child.Some? && child == relativeTo
    ensures r != "X" ==> forall k :: 0 <= k < |r| ==> IsDigit(r[k]) || r[k] == '.'
    decreases if child.Some? then s[child.value].depth else 0
  {
    if child.None? then ""
    else if child == relativeTo then "X"
    else
      var n := child.value;
      match s[n].parent
      case None => ""
      case Some(p) =>
        var siblingIndex := SiblingIndex(s, n);
        if Some(p) == relativeTo then NatToString(siblingIndex)
        else GetTransformPath(s, Some(p), relativeTo) + "." + NatToString(siblingIndex)
  }

  /** The sibling indices that lead from `root` down to `n`, outermost first. */
  function IndexPath(s: Scene, n: NodeId, root: NodeId): (ixs: seq<nat>)
    requires Valid(s) && n in s && Descends(s, n, root) && n != root
    ensures |ixs| > 0
    decreases s[n].depth
  {
    var p := s[n].parent.value;
    if p == root then [SiblingIndex(s, n)]
    else IndexPath(s, p, root) + [SiblingIndex(s, n)]
  }

  /** Nodes the codec can address from `root`: itself, or a descendant reached through indices 0-9. */
  predicate Addressable(s: Scene, n: NodeId, root: NodeId)
    requires Valid(s)
  {
    n in s && Descends(s, n, root) && (n == root || SingleDigit(IndexPath(s, n, root)))
  }

  // ---------------------------------------------------------------------------
  // Decoding

  /** A character the source's UTF-16 strings hold in one code unit, so that
   *  skipping one position skips exactly that character. */
  predicate OneCodeUnit(c: char) {
    c as int < 0x1_0000
  }

  /** Exactly the paths on which `GetTransformFromPath` does not throw: it indexes the
   *  first character (IndexOutOfRange on ""), parses it as an int (FormatException on
   *  a non-digit) and reads the current node's child count (NullReference on null).
   *  The source skips two UTF-16 code units after each index, so the skipped
   *  character must take one code unit; a wider one leaves half of it to be parsed. */
  predicate Decodable(s: Scene, t: Option<NodeId>, path: Option<string>)
    requires Valid(s) && HasNode(s, t)
    decreases if path.Some? then |path.value| else 0
  {
    match path
    case None => true
    case Some(p) =>
      p == "X" ||
      (&& |p| > 0 && IsDigit(p[0]) && t.Some?
       && (|| ChildCount(s, t.value) <= DigitValue(p[0])
           || |p| == 1
           || (&& OneCodeUnit(p[1])
               && Decodable(s, Some(GetChild(s, t.value, DigitValue(p[0]))), Some(p[2..])))))
  }

  /** `RigTemplate.GetTransformFromPath(parentTransform, transformString)`; the result,
   *  when not null, is `parentTransform` itself or one of its descendants. */
  function GetTransformFromPath(s: Scene, t: Option<NodeId>, path: Option<string>): (r: Option<NodeId>)
    requires Valid(s) && HasNode(s, t) && Decodable(s, t, path)
    ensures HasNode(s, r)
    ensures r.Some? ==> t.Some? && Descends(s, r.value, t.value)
    decreases if path.Some? then |path.value| else 0
  {
    if path.None? || path.value == "X" then t
    else
      var p := path.value;
      var childIndex := DigitValue(p[0]);
      if ChildCount(s, t.value) <= childIndex then None
      else
        var c := GetChild(s, t.value, childIndex);
        var r := GetTransformFromPath(s, Some(c), if |p| > 1 then Some(p[2..]) else None);
        if r.Some? then DescendsThroughChild(s, r.value, c, t.value); r
        else r
  }

  /** Following sibling indices from `t`; None once an index is out of range. */
  function Walk(s: Scene, t: NodeId, ixs: seq<nat>): (r: Option<NodeId>)
    requires Valid(s) && t in s
    ensures HasNode(s, r)
    decreases |ixs|
  {
    if ixs == [] then Some(t)
    else if ixs[0] < ChildCount(s, t) then Walk(s, GetChild(s, t, ixs[0]), ixs[1..])
    else None
  }

  // ---------------------------------------------------------------------------
  // Lemmas

  /** The sentinels: the root encodes as "X", null encodes as "", and decoding null or
   *  "X" returns the given node (also when it is null). */
  lemma Sentinels(s: Scene, n: Option<NodeId>, t: Option<NodeId>)
    requires Valid(s) && HasNode(s, n) && HasNode(s, t)
    ensures n.Some? ==> GetTransformPath(s, n, n) == "X"
    ensures GetTransformPath(s, None, t) == ""
    ensures Decodable(s, t, None) && GetTransformFromPath(s, t, None) == t
    ensures Decodable(s, t, Some("X")) && GetTransformFromPath(s, t, Some("X")) == t
  {
  }

  /** A leading index at or past the node's child count yields null, whatever follows it. */
  lemma DecodeOutOfRange(s: Scene, t: NodeId, p: string)
    requires Valid(s) && t in s && |p| > 0 && IsDigit(p[0]) && ChildCount(s, t) <= DigitValue(p[0])
    ensures Decodable(s, Some(t), Some(p)) && GetTransformFromPath(s, Some(t), Some(p)) == None
  {
  }

  lemma {:induction false} JoinAppend(ixs: seq<nat>, i: nat)
    requires |ixs| > 0
    ensures JoinIndices(ixs + [i]) == JoinIndices(ixs) + "." + NatToString(i)
    decreases |ixs|
  {
    if |ixs| > 1 {
      assert (ixs + [i])[1..] == ixs[1..] + [i];
      JoinAppend(ixs[1..], i);
    } else {
      assert (ixs + [i])[1..] == [i];
    }
  }

  /** Below `root`, the encoding is the index path written out with '.'
   *  (any index width): a digit first, then only digits and dots. */
  lemma {:induction false} EncodeUnder(s: Scene, n: NodeId, root: NodeId)
    requires Valid(s) && n in s && Descends(s, n, root) && n != root
    ensures GetTransformPath(s, Some(n), Some(root)) == JoinIndices(IndexPath(s, n, root))
    ensures var path := GetTransformPath(s, Some(n), Some(root));
            |path| > 0 && IsDigit(path[0]) &&
            forall k :: 0 <= k < |path| ==> IsDigit(path[k]) || path[k] == '.'
    decreases s[n].depth
  {
    var p := s[n].parent.value;
    if p != root {
      EncodeUnder(s, p, root);
      JoinAppend(IndexPath(s, p, root), SiblingIndex(s, n));
    }
  }

  /** Outside `relativeTo` (or with a null `relativeTo`) the encoding is "" for a
   *  top-level node and otherwise starts with '.', because the recursion climbs to a
   *  parentless node and returns "" there. */
  lemma {:induction false} EncodeOutside(s: Scene, n: NodeId, relativeTo: Option<NodeId>)
    requires Valid(s) && n in s
    requires relativeTo.None? || !Descends(s, n, relativeTo.value)
    ensures s[n].parent.None? ==> GetTransformPath(s, Some(n), relativeTo) == ""
    ensures s[n].parent.Some? ==>
              var path := GetTransformPath(s, Some(n), relativeTo);
              |path| > 0 && path[0] == '.'
    decreases s[n].depth
  {
    if s[n].parent.Some? {
      var p := s[n].parent.value;
      assert Ancestors(s, n) == [p] + Ancestors(s, p);
      EncodeOutside(s, p, relativeTo);
    }
  }

  lemma {:induction false} WalkAppend(s: Scene, t: NodeId, ixs: seq<nat>, i: nat)
    requires Valid(s) && t in s
    ensures Walk(s, t, ixs + [i]) ==
              match Walk(s, t, ixs)
              case None => None
              case Some(m) => if i < ChildCount(s, m) then Some(GetChild(s, m, i)) else None
    decreases |ixs|
  {
    if ixs != [] {
      assert (ixs + [i])[1..] == ixs[1..] + [i];
      if ixs[0] < ChildCount(s, t) {
        WalkAppend(s, GetChild(s, t, ixs[0]), ixs[1..], i);
      }
    }
  }

  /** The index path of a node leads back to it. */
  lemma {:induction false} WalkIndexPath(s: Scene, n: NodeId, root: NodeId)
    requires Valid(s) && n in s && Descends(s, n, root) && n != root
    ensures root in s && Walk(s, root, IndexPath(s, n, root)) == Some(n)
    decreases s[n].depth
  {
    var p := s[n].parent.value;
    var i := SiblingIndex(s, n);
    if p == root {
      assert Walk(s, root, [i]) == Walk(s, n, []);
    } else {
      WalkIndexPath(s, p, root);
      WalkAppend(s, root, IndexPath(s, p, root), i);
    }
  }

  /** With single-digit indices, decoding a written index path is walking it. */
  lemma {:induction false} DecodeJoin(s: Scene, t: NodeId, ixs: seq<nat>)
    requires Valid(s) && t in s && |ixs| > 0 && SingleDigit(ixs)
    ensures Decodable(s, Some(t), Some(JoinIndices(ixs)))
    ensures GetTransformFromPath(s, Some(t), Some(JoinIndices(ixs))) == Walk(s, t, ixs)
    decreases |ixs|
  {
    var p := JoinIndices(ixs);
    var head := NatToString(ixs[0]);
    assert |head| == 1 && DigitValue(head[0]) == ixs[0];
    assert p[0] == head[0];
    assert p != "X";
    if ixs[0] < ChildCount(s, t) {
      var c := GetChild(s, t, ixs[0]);
      if |ixs| == 1 {
        assert |p| == 1;
      } else {
        var rest := JoinIndices(ixs[1..]);
        assert p == head + "." + rest;
        assert p[2..] == rest;
        DecodeJoin(s, c, ixs[1..]);
      }
    }
  }

  /** decode(root, encode(n, root)) == n for every node the codec can address. */
  lemma RoundTrip(s: Scene, n: NodeId, root: NodeId)
    requires Valid(s) && Addressable(s, n, root)
    ensures root in s
    ensures Decodable(s, Some(root), Some(GetTransformPath(s, Some(n), Some(root))))
    ensures GetTransformFromPath(s, Some(root), Some(GetTransformPath(s, Some(n), Some(root)))) == Some(n)
  {
    if n != root {
      EncodeUnder(s, n, root);
      WalkIndexPath(s, n, root);
      DecodeJoin(s, root, IndexPath(s, n, root));
    }
  }

  // ---------------------------------------------------------------------------
  // The single-digit limit

  /** A root (node 0) with eleven children 1..11. */
  function Fan(): Scene {
    var bone := Node(Some(0), [], "bone", 1);
    map[0 := Node(None, seq(11, i => i + 1), "root", 0),
        1 := bone, 2 := bone, 3 := bone, 4 := bone, 5 := bone, 6 := bone,
        7 := bone, 8 := bone, 9 := bone, 10 := bone, 11 := bone]
  }

  /** The fan is a well-formed scene. */
  lemma FanValid()
    ensures Valid(Fan())
  {
    var s := Fan();
    var cs := seq(11, i => i + 1);
    assert s[0].children == cs;
    forall n | n in s ensures LinkedUp(s, n) && LinkedDown(s, n) {
      if n != 0 {
        assert cs[n - 1] == n;
      }
    }
  }

  /** Node 11 is child number 10 of the root: it encodes as "10", and decoding "10"
   *  takes child 1 and then indexes the empty rest, so it throws instead of
   *  returning node 11. */
  lemma TwoDigitIndexNotDecodable()
    ensures Valid(Fan())
    ensures GetTransformPath(Fan(), Some(11), Some(0)) == "10"
    ensures !Decodable(Fan(), Some(0), Some("10"))
  {
    FanValid();
    var s := Fan();
    var cs := seq(11, i => i + 1);
    assert s[0].children == cs;
    assert cs[10] == 11;
    assert SiblingIndex(s, 11) == 10;
    assert NatToString(10) == "10";
    assert "10"[2..] == "";
    assert GetChild(s, 0, 1) == 2;
  }

  /** A three-character path is read as two indices, its first and last
   *  characters; the character between them, where a '.' belongs, is never read
   *  as long as it takes one UTF-16 code unit. */
  lemma ThreeCharacterPath(s: Scene, t: NodeId, a: char, sep: char, b: char)
    requires Valid(s) && t in s && IsDigit(a) && IsDigit(b) && OneCodeUnit(sep)
    ensures Decodable(s, Some(t), Some([a, sep, b]))
    ensures GetTransformFromPath(s, Some(t), Some([a, sep, b])) == Walk(s, t, [DigitValue(a), DigitValue(b)])
  {
    var p := [a, sep, b];
    assert p[2..] == [b];
    if DigitValue(a) < ChildCount(s, t) {
      var c := GetChild(s, t, DigitValue(a));
      assert Walk(s, t, [DigitValue(a), DigitValue(b)]) == Walk(s, c, [DigitValue(b)]);
      assert GetTransformFromPath(s, Some(t), Some(p)) == GetTransformFromPath(s, Some(c), Some([b]));
      if DigitValue(b) < ChildCount(s, c) {
        var g := GetChild(s, c, DigitValue(b));
        assert GetTransformFromPath(s, Some(c), Some([b])) == GetTransformFromPath(s, Some(g), None);
        assert Walk(s, c, [DigitValue(b)]) == Walk(s, g, []);
      }
    }
  }

  /** A root (node 0) with children 1 and 2, where node 2 has the one child 3. */
  function Branch(): Scene {
    map[0 := Node(None, [1, 2], "root", 0),
        1 := Node(Some(0), [], "left", 1),
        2 := Node(Some(0), [3], "right", 1),
        3 := Node(Some(2), [], "leaf", 2)]
  }

  lemma BranchValid()
    ensures Valid(Branch())
  {
    var s := Branch();
    forall n | n in s ensures LinkedUp(s, n) && LinkedDown(s, n) {
    }
  }

  /** Index 100, as a root's 101st child would be written, does not throw:
   *  it is read as child 1 and then child 0, and lands on another node. */
  lemma ThreeDigitIndexMisread()
    ensures NatToString(100) == "100"
    ensures Valid(Branch())
    ensures Decodable(Branch(), Some(0), Some("100"))
    ensures GetTransformFromPath(Branch(), Some(0), Some("100")) == Some(3)
  {
    assert NatToString(10) == "10";
    var s := Branch();
    BranchValid();
    ThreeCharacterPath(s, 0, '1', '0', '0');
    assert Walk(s, 0, [1, 0]) == Walk(s, 2, [0]);
    assert Walk(s, 2, [0]) == Walk(s, 3, []);
  }

  /** A character outside the Basic Multilingual Plane between two indices is two
   *  UTF-16 code units: skipping two positions leaves its low surrogate to be
   *  parsed as an index, so the decoder throws where "1.0" would succeed. */
  lemma WideSeparatorNotDecodable()
    ensures Valid(Branch())
    ensures Decodable(Branch(), Some(0), Some("1.0"))
    ensures !OneCodeUnit('\U{1F600}')
    ensures !Decodable(Branch(), Some(0), Some(['1', '\U{1F600}', '0']))
  {
    BranchValid();
    ThreeCharacterPath(Branch(), 0, '1', '.', '0');
  }
}
