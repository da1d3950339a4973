/** The Merkle tree object: lookup of paths, verification, and the cutting and restoring of parent links
    around serialisation.
 */
module Accumulator {
  import opened Names
  import opened LeafChain
  import opened MerkleValue
  import opened MerklePath
  import opened MerkleTrees

  // ---- structure without parent links ----

  ghost predicate ChildOf(c: Node, m: Node) {
    !m.IsLeaf && (m.Left == c || m.Right == c)
  }

  /** No node has two parents, and `n` has none. */
  ghost predicate Rooted(n: Node) {
    && (forall c, m, m' :: c in n.repr && m in n.repr && m' in n.repr && ChildOf(c, m) && ChildOf(c, m') ==> m == m')
    && forall m :: m in n.repr ==> !ChildOf(n, m)
  }

  lemma LinkedIsRooted(n: Node)
    requires Wf(n) && n in n.repr && LinkedIn(n.repr) && n.Parent == null
    ensures Rooted(n)
  {
  }

  function Size(t: Tree): nat {
    match t
    case Leaf(_, _, _) => 1
    case Node(_, l, r) => 1 + Size(l) + Size(r)
  }

  lemma {:induction false} BelowIsSmaller(n: Node, m: Node)
    requires Wf(n) && m in n.repr && m != n
    ensures Size(m.val) < Size(n.val)
    decreases n.val
  {
    if m in n.Left.repr && m != n.Left {
      BelowIsSmaller(n.Left, m);
    } else if m in n.Right.repr && m != n.Right {
      BelowIsSmaller(n.Right, m);
    }
  }

  lemma NotBelowItself(n: Node)
    requires Wf(n) && n.val.Node?
    ensures n !in n.Left.repr && n !in n.Right.repr
  {
    if n in n.Left.repr && n != n.Left { BelowIsSmaller(n.Left, n); }
    if n in n.Right.repr && n != n.Right { BelowIsSmaller(n.Right, n); }
  }

  // ---- cutting the links ----

  method DeleteLinks(n: Node)
    requires Wf(n)
    modifies n.repr`Parent
    ensures forall m :: m in n.repr ==> m.Parent == null
    decreases n.val
  {
    ReprClosed(n, n);
    n.Parent := null;
    if n.Left != null {
      DeleteLinks(n.Left);
    }
    if n.Right != null {
      DeleteLinks(n.Right);
    }
  }

  /** Serialisation follows the child pointers; it ends because no parent link leads back. What is
      written is the tree value, in which a shared node appears once for each way to reach it. */
  method Marshal(n: Node) returns (t: Tree)
    requires Wf(n) && forall m :: m in n.repr ==> m.Parent == null
    ensures t == n.val
    decreases n.val
  {
    if n.IsLeaf {
      return Tree.Leaf(n.Hash, n.C, n.Dup);
    }
    var l := Marshal(n.Left);
    var r := Marshal(n.Right);
    return Tree.Node(n.Hash, l, r);
  }

  /** Deserialisation makes new nodes, none of them shared. */
  method Unmarshal(t: Tree) returns (n: Node)
    ensures Wf(n) && n.val == t && fresh(n.repr) && n in n.repr && Rooted(n)
  {
    if t.Leaf? {
      n := new Node.Leaf(t.hash, t.c, t.dup);
    } else {
      var left := Unmarshal(t.left);
      var right := Unmarshal(t.right);
      n := new Node.Inner(left, right, t.hash);
      UnsharedIsRooted(n);
    }
  }

  lemma UnsharedIsRooted(n: Node)
    requires Wf(n) && n.val.Node? && n in n.repr
    requires n.Left in n.Left.repr && n.Right in n.Right.repr && n.Left.repr !! n.Right.repr
    requires Rooted(n.Left) && Rooted(n.Right)
    ensures Rooted(n)
  {
    NotBelowItself(n);
    forall c, m | c in n.repr && m in n.repr && ChildOf(c, m)
      ensures (c in n.Left.repr && (if c == n.Left then m == n else m in n.Left.repr))
           || (c in n.Right.repr && (if c == n.Right then m == n else m in n.Right.repr))
    {
      if m in n.Left.repr {
        ReprClosed(n.Left, m);
      } else if m in n.Right.repr {
        ReprClosed(n.Right, m);
      }
    }
  }

  // ---- restoring the links ----

  ghost predicate Placed(c: Node, s: set<Node>)
    reads c`Parent
  {
    c.Parent != null && c.Parent in s && ChildOf(c, c.Parent)
  }

  /** The links below `n` are set and the leaves below it appended in order, although a shared node is
      visited once for each way to reach it. */
  method RestoreLinks(n: Node, par: Node?, leafList: seq<Node>, ghost s: set<Node>) returns (leafs: seq<Node>)
    requires Wf(n) && n in n.repr && n.repr <= s
    requires par != null ==> par in s && ChildOf(n, par)
    modifies n.repr`Parent
    ensures leafs == leafList + InOrder(n)
    ensures n.Parent == par
    ensures forall c {:trigger Placed(c, s)} :: c in n.repr && c != n ==> Placed(c, s)
    decreases n.val
  {
    Cases(n);
    if !n.IsLeaf { Associate(leafList, InOrder(n.Left), InOrder(n.Right)); }
    hide Wf, InOrder;
    n.Parent := par;
    leafs := leafList;
    if n.Left != null {
      leafs := RestoreLinks(n.Left, n, leafs, s);
    }
    if n.IsLeaf {
      leafs := leafs + [n];
    }
    if n.Right != null {
      leafs := RestoreLinks(n.Right, n, leafs, s);
    }
  }

  /** A node is a leaf without children or has two children, below neither of which it stands. */
  lemma Cases(n: Node)
    requires Wf(n)
    ensures n.IsLeaf ==> n.Left == null && n.Right == null && n.repr == {n} && InOrder(n) == [n]
    ensures !n.IsLeaf ==>
      && n.Left != null && n.Right != null && n.repr == {n} + n.Left.repr + n.Right.repr
      && Wf(n.Left) && Wf(n.Right) && n.Left in n.Left.repr && n.Right in n.Right.repr
      && n !in n.Left.repr && n !in n.Right.repr
      && InOrder(n) == InOrder(n.Left) + InOrder(n.Right)
      && n.val.Node? && n.Left.val == n.val.left && n.Right.val == n.val.right
  {
    if !n.IsLeaf {
      NotBelowItself(n);
      ReprClosed(n.Left, n.Left);
      ReprClosed(n.Right, n.Right);
    }
  }

  /** Where no node has two parents, a restored link is the link there was. */
  lemma PlacedIsLinked(n: Node)
    requires Wf(n) && Rooted(n)
    requires forall c {:trigger Placed(c, n.repr)} :: c in n.repr && c != n ==> Placed(c, n.repr)
    ensures LinkedIn(n.repr)
  {
    forall m | m in n.repr && !m.IsLeaf
      ensures m.Left in n.repr && m.Left.Parent == m && m.Right in n.repr && m.Right.Parent == m
    {
      ReprClosed(n, m);
      assert ChildOf(m.Left, m) && ChildOf(m.Right, m);
      assert Placed(m.Left, n.repr) && Placed(m.Right, n.repr);
    }
  }

  // ---- the tree object ----

  function Depth(t: Tree): nat {
    match t
    case Leaf(_, _, _) => 0
    case Node(_, l, _) => 1 + Depth(l)
  }

  lemma {:induction false} PerfectDepth(t: Tree, d: nat)
    requires Perfect(t, d)
    ensures Depth(t) == d
  {
    if t.Node? {
      PerfectDepth(t.left, d - 1);
    }
  }

  /** A tree value as the source builds it: digests correct, all leaves at one depth below the root. */
  ghost predicate Sound(H: Hash, t: Tree) {
    Hashed(H, t) && Depth(t) >= 1 && Perfect(t, Depth(t))
  }

  lemma TreeOfIsSound(H: Hash, cs: seq<LeafContent>)
    requires cs != []
    ensures Sound(H, TreeOf(H, cs))
  {
    TreeOfShape(H, cs);
    PerfectDepth(TreeOf(H, cs), Height(|cs| + |cs| % 2));
  }

  class MerkleTree {
    var Root: Node?
    var MerkleRootInternal: string
    var Leafs: seq<Node>

    ghost function Nodes(): set<Node>
      reads this
    {
      if Root == null then {} else Root.repr
    }

    /** What the tree denotes. */
    ghost function Value(): Tree
      requires Root != null
      reads this
    {
      Root.val
    }

    /** All that serialisation keeps. */
    ghost predicate Whole(H: Hash)
      reads this
    {
      Root != null && Wf(Root) && Root in Root.repr && Rooted(Root) && Sound(H, Root.val)
      && MerkleRootInternal == Root.val.hash
    }

    /** In addition the links are set, and `Leafs` lists the leaves in order, up to repetitions at the end. */
    ghost predicate Valid(H: Hash)
      reads this, Nodes()
    {
      && Whole(H) && Root.Parent == null && LinkedIn(Root.repr)
      && Leafs != [] && Leafs <= InOrder(Root)
      && forall c :: c in Leaves(Root.val) ==> c in Leaves(Root.val)[..|Leafs|]
    }

    constructor ()
      ensures Root == null
    {
      Root, MerkleRootInternal, Leafs := null, "", [];
    }

    method RebuildTreeWith(H: Hash, cs: seq<LeafContent>) returns (ok: bool)
      modifies this
      ensures ok <==> cs != []
      ensures !ok ==> unchanged(this)
      ensures ok ==> Valid(H) && Value() == TreeOf(H, cs) && |Leafs| == |Evened(cs)| && fresh(Nodes())
    {
      var built := BuildWithContent(H, cs);
      if built.None? {
        return false;
      }
      Root, Leafs := built.value.0, built.value.1;
      MerkleRootInternal := Root.Hash;
      ReprClosed(Root, Root);
      LinkedIsRooted(Root);
      TreeOfIsSound(H, cs);
      TreeOfShape(H, cs);
      ok := true;
    }

    /** The path of the first leaf with the content, read off by climbing the parent links. */
    method GetMerklePath(H: Hash, content: LeafContent) returns (path: seq<Step>)
      requires Valid(H)
      ensures path == PathOf(Value(), content)
    {
      ghost var t := Value();
      for k := 0 to |Leafs|
        invariant forall j :: 0 <= j < k ==> Leaves(t)[j] != content
      {
        InOrderContent(Root, k);
        if Leafs[k].C == content {
          InOrderIsAt(Root, k);
          path := Climb(Root, Leafs[k], Position(t, k));
          assert FirstWith(Leaves(t), content) == k;
          return;
        }
      }
      assert content !in Leaves(t)[..|Leafs|];
      path := [];
    }

    /** Rebuilding from the contents of the leaf list. Where that list is the full one, as it is after the
        links have been restored, the root digest stays what it was. */
    method RebuildTree(H: Hash) returns (ok: bool)
      requires Valid(H)
      modifies this
      ensures ok && Valid(H) && fresh(Nodes())
      ensures Value() == TreeOf(H, Leaves(old(Value()))[..|old(Leafs)|])
      ensures |old(Leafs)| == |Leaves(old(Value()))| ==> MerkleRootInternal == old(MerkleRootInternal)
    {
      ghost var t := Value();
      var cs := LeafContents(H);
      if |Leafs| == |Leaves(t)| {
        assert cs == Leaves(t);
        RebuildFromLeaves(H, t, Depth(t));
      }
      ok := RebuildTreeWith(H, cs);
    }

    method LeafContents(H: Hash) returns (cs: seq<LeafContent>)
      requires Valid(H)
      ensures cs == Leaves(Value())[..|Leafs|] && cs != []
    {
      ghost var t := Value();
      cs := [];
      for k := 0 to |Leafs|
        invariant cs == Leaves(t)[..k]
      {
        InOrderContent(Root, k);
        cs := cs + [Leafs[k].C];
      }
      assert Leaves(t)[0] in Leaves(t);
    }

    /** Recomputing the root digest from the leaves confirms it. */
    method VerifyTree(H: Hash) returns (ok: bool)
      requires Root != null && Wf(Root)
      ensures ok <==> MerkleRootInternal == Rehash(H, Value())
      ensures Whole(H) ==> ok
    {
      var calculated := VerifyNode(H, Root);
      ok := MerkleRootInternal == calculated;
      if Whole(H) {
        RehashIsStored(H, Value());
      }
    }

    method PrepareForMarshalling(H: Hash)
      requires Valid(H)
      modifies this`Leafs, Nodes()`Parent
      ensures Whole(H) && Leafs == [] && forall m :: m in Root.repr ==> m.Parent == null
    {
      DeleteLinks(Root);
      Leafs := [];
    }

    method RestoreAfterMarshalling(H: Hash)
      requires Whole(H)
      modifies this`Leafs, Nodes()`Parent
      ensures Valid(H) && Leafs == InOrder(Root)
    {
      Leafs := RestoreLinks(Root, null, [], Root.repr);
      PlacedIsLinked(Root);
    }

    /** What is done around every write to the database: the links are cut, the tree is written, the links
        are restored. The tree is what it was, and so is the path of every content; the leaf list is now
        the full one, which starts with the old one and lists no new content. */
    method Write(H: Hash) returns (t: Tree)
      requires Valid(H)
      modifies this`Leafs, Nodes()`Parent
      ensures Valid(H) && t == Value() && Leafs == InOrder(Root)
      ensures |Leafs| == Pow2(Depth(t)) && old(Leafs) <= Leafs
      ensures forall n :: n in Leafs ==> exists m :: m in old(Leafs) && m.C == n.C
    {
      ghost var leafs := Leafs;
      PrepareForMarshalling(H);
      t := Marshal(Root);
      RestoreAfterMarshalling(H);
      PerfectLeafCount(t, Depth(t));
      forall n | n in Leafs ensures exists m :: m in leafs && m.C == n.C {
        var i :| 0 <= i < |Leafs| && Leafs[i] == n;
        InOrderContent(Root, i);
        assert Leaves(t)[i] in Leaves(t)[..|leafs|];
        var j :| 0 <= j < |leafs| && Leaves(t)[j] == Leaves(t)[i];
        InOrderContent(Root, j);
        assert leafs[j] in leafs;
      }
    }

  }

  method VerifyNode(H: Hash, n: Node) returns (d: string)
    requires Wf(n)
    ensures d == Rehash(H, n.val)
    decreases n.val
  {
    if n.IsLeaf {
      return LeafHash(H, n.C);
    }
    var right := VerifyNode(H, n.Right);
    var left := VerifyNode(H, n.Left);
    return H(left + right);
  }

  /** Reading a tree back from the database. */
  method Read(H: Hash, t: Tree) returns (m: MerkleTree)
    requires Sound(H, t)
    ensures fresh(m) && fresh(m.Nodes()) && m.Valid(H) && m.Value() == t && |m.Leafs| == |Leaves(t)|
  {
    m := new MerkleTree();
    m.Root := Unmarshal(t);
    m.MerkleRootInternal := t.hash;
    m.RestoreAfterMarshalling(H);
  }

  /** Climbing from a leaf: at each parent the sibling is chosen by comparing digests. */
  method Climb(root: Node, leaf: Node, ghost p: seq<bool>) returns (path: seq<Step>)
    requires Wf(root) && LinkedIn(root.repr) && root.Parent == null
    requires MerklePath.Valid(root.val, p) && leaf == NodeAt(root, p)
    ensures path == PathAt(root.val, p)
  {
    var current := leaf;
    var currentParent := current.Parent;
    path := [];
    ghost var at, todo := p, PathAt(root.val, p);
    hide *;
    while currentParent != null
      invariant MerklePath.Valid(root.val, at) && current == NodeAt(root, at)
      invariant currentParent == current.Parent
      invariant todo == PathAt(root.val, at) && path + todo == PathAt(root.val, p)
      decreases |at|
    {
      ClimbStep(root, at);
      at := at[..|at|-1];
      ghost var before := path;
      if currentParent.Left.Hash == current.Hash {
        path := path + [Step(currentParent.Right.Hash, 1)];
      } else {
        path := path + [Step(currentParent.Left.Hash, 0)];
      }
      todo := PathAt(root.val, at);
      Shift(before, path[|path|-1], todo);
      current := currentParent;
      currentParent := currentParent.Parent;
    }
    ClimbEnd(root, at);
  }

  lemma Shift<T>(a: seq<T>, x: T, b: seq<T>)
    ensures a + ([x] + b) == (a + [x]) + b
  {
  }

  lemma {:induction false} ClimbEnd(n: Node, p: seq<bool>)
    requires Wf(n) && LinkedIn(n.repr) && MerklePath.Valid(n.val, p) && NodeAt(n, p).Parent == null
    ensures PathAt(n.val, p) == []
  {
    if p != [] {
      ParentAt(n, p);
    }
  }

  /** One step of the climb, on the structure and on the path. */
  lemma {:induction false} ClimbStep(n: Node, p: seq<bool>)
    requires Wf(n) && LinkedIn(n.repr) && MerklePath.Valid(n.val, p) && NodeAt(n, p).Parent != null
    requires n.Parent == null
    ensures p != [] && MerklePath.Valid(n.val, p[..|p|-1])
    ensures var m, up := NodeAt(n, p), NodeAt(n, p[..|p|-1]);
      && m.Parent == up && !up.IsLeaf && up.Left != null && up.Right != null
      && PathAt(n.val, p)
         == [if up.Left.Hash == m.Hash then Step(up.Right.Hash, 1) else Step(up.Left.Hash, 0)]
            + PathAt(n.val, p[..|p|-1])
  {
    assert p != [];
    ParentAt(n, p);
    PathAtSuffix(n.val, p);
    StepOfNodes(NodeAt(n, p[..|p|-1]), NodeAt(n, p));
  }

  lemma {:induction false} StepOfNodes(up: Node, m: Node)
    requires Wf(up) && Wf(m) && up.val.Node?
    ensures !up.IsLeaf && up.Left != null && up.Right != null
    ensures StepAt(up.val, m.val) == if up.Left.Hash == m.Hash then Step(up.Right.Hash, 1) else Step(up.Left.Hash, 0)
  {
  }
}
