/** The pointer structure of the Merkle tree. Nodes point to their children and, through `Parent`, back up;
    the last node of an odd level is the left and the right child of one parent, so the structure is not
    a tree but a graph with sharing. Only `Parent` is ever assigned after a node is created.
 */
module MerkleTrees {
  import opened Names
  import opened LeafChain
  import opened MerkleValue
  import opened MerklePath

  const ZeroZone := LeafZone("", 0, Smallest)
  const ZeroContent := LeafContent(ZeroZone, ZeroZone)

  class Node {
    var Parent: Node?
    const Left: Node?
    const Right: Node?
    const IsLeaf: bool
    const Dup: bool
    const Hash: string
    const C: LeafContent
    ghost const val: Tree        // what following the child pointers reads
    ghost const repr: set<Node>  // the nodes met on the way

    constructor Leaf(hash: string, c: LeafContent, dup: bool)
      ensures Wf(this) && Parent == null && val == Tree.Leaf(hash, c, dup) && repr == {this}
    {
      Parent, Left, Right, IsLeaf, Dup, Hash, C := null, null, null, true, dup, hash, c;
      val, repr := Tree.Leaf(hash, c, dup), {this};
    }

    constructor Inner(left: Node, right: Node, hash: string)
      ensures Left == left && Right == right && Hash == hash && !IsLeaf && Parent == null
      ensures val == Tree.Node(hash, left.val, right.val) && repr == {this} + left.repr + right.repr
    {
      Parent, Left, Right, IsLeaf, Dup, Hash, C := null, left, right, false, false, hash, ZeroContent;
      val, repr := Tree.Node(hash, left.val, right.val), {this} + left.repr + right.repr;
    }
  }

  /** Following the child pointers from `n` reads `n.val` and meets `n.repr`. */
  ghost predicate Wf(n: Node)
    decreases n.val
  {
    && n.Hash == n.val.hash
    && match n.val
       case Leaf(_, c, dup) =>
         && n.IsLeaf && n.C == c && n.Dup == dup && n.Left == null && n.Right == null
         && n.repr == {n}
       case Node(_, l, r) =>
         && !n.IsLeaf && n.Left != null && n.Right != null
         && n.Left.val == l && n.Right.val == r
         && n.repr == {n} + n.Left.repr + n.Right.repr
         && Wf(n.Left) && Wf(n.Right)
  }

  /** Every child of a node in `s` is in `s` and points back to it. */
  ghost predicate LinkedIn(s: set<Node>)
    reads s`Parent
  {
    forall m :: m in s && !m.IsLeaf ==>
      && m.Left != null && m.Left in s && m.Left.Parent == m
      && m.Right != null && m.Right in s && m.Right.Parent == m
  }

  lemma {:induction false} ReprClosed(n: Node, m: Node)
    requires Wf(n) && m in n.repr
    ensures Wf(m) && m.repr <= n.repr && m in m.repr
    ensures !m.IsLeaf ==> m.Left in n.repr && m.Right in n.repr
    decreases n.val
  {
    if n.val.Node? && m != n {
      if m in n.Left.repr {
        ReprClosed(n.Left, m);
      } else {
        ReprClosed(n.Right, m);
      }
    } else if n.val.Node? {
      ReprClosed(n.Left, n.Left);
      ReprClosed(n.Right, n.Right);
    }
  }

  lemma {:induction false} LinkedBelow(n: Node, s: set<Node>)
    requires Wf(n) && n.repr <= s && LinkedIn(s)
    ensures LinkedIn(n.repr)
  {
    forall m | m in n.repr && !m.IsLeaf ensures m.Left in n.repr && m.Right in n.repr {
      ReprClosed(n, m);
    }
  }

  /** The leaf nodes from left to right; a shared one is met twice. */
  ghost function InOrder(n: Node): (s: seq<Node>)
    requires Wf(n)
    ensures |s| == |Leaves(n.val)|
    decreases n.val
  {
    if n.val.Leaf? then [n] else InOrder(n.Left) + InOrder(n.Right)
  }

  lemma {:induction false} InOrderContent(n: Node, i: nat)
    requires Wf(n) && i < |Leaves(n.val)|
    ensures InOrder(n)[i].C == Leaves(n.val)[i]
    decreases n.val
  {
    if n.val.Node? {
      if i < |Leaves(n.val.left)| {
        InOrderContent(n.Left, i);
      } else {
        InOrderContent(n.Right, i - |Leaves(n.val.left)|);
      }
    }
  }

  // ---- climbing ----

  /** The node at a position. */
  ghost function NodeAt(n: Node, p: seq<bool>): (m: Node)
    requires Wf(n) && Valid(n.val, p)
    ensures Wf(m) && m.val == At(n.val, p)
    decreases n.val
  {
    if p == [] then n else NodeAt(if p[0] then n.Right else n.Left, p[1..])
  }

  lemma {:induction false} NodeAtInRepr(n: Node, p: seq<bool>)
    requires Wf(n) && Valid(n.val, p)
    ensures NodeAt(n, p) in n.repr
    decreases n.val
  {
    if p == [] {
      ReprClosed(n, n);
    } else {
      NodeAtInRepr(if p[0] then n.Right else n.Left, p[1..]);
    }
  }

  lemma {:induction false} InOrderIsAt(n: Node, i: nat)
    requires Wf(n) && i < |Leaves(n.val)|
    ensures InOrder(n)[i] == NodeAt(n, Position(n.val, i))
    decreases n.val
  {
    if n.val.Node? {
      if i < |Leaves(n.val.left)| {
        InOrderIsAt(n.Left, i);
      } else {
        InOrderIsAt(n.Right, i - |Leaves(n.val.left)|);
      }
    }
  }

  lemma {:induction false} NodeAtStep(n: Node, p: seq<bool>)
    requires Wf(n) && Valid(n.val, p) && p != []
    ensures Valid(n.val, p[..|p|-1]) && At(n.val, p[..|p|-1]).Node?
    ensures var up := NodeAt(n, p[..|p|-1]); NodeAt(n, p) == if p[|p|-1] then up.Right else up.Left
    decreases n.val
  {
    if |p| > 1 {
      NodeAtStep(if p[0] then n.Right else n.Left, p[1..]);
      assert p[..|p|-1][1..] == p[1..][..|p|-2];
    }
  }

  /** Climbing one step: the parent of the node at a position is the node one turn earlier. */
  lemma {:induction false} ParentAt(n: Node, p: seq<bool>)
    requires Wf(n) && LinkedIn(n.repr) && Valid(n.val, p) && p != []
    ensures Valid(n.val, p[..|p|-1]) && At(n.val, p[..|p|-1]).Node?
    ensures NodeAt(n, p).Parent == NodeAt(n, p[..|p|-1])
  {
    NodeAtStep(n, p);
    NodeAtInRepr(n, p[..|p|-1]);
  }

  /** The path from a position is the step of its last turn followed by the path from one turn earlier. */
  lemma {:induction false} PathAtSuffix(t: Tree, p: seq<bool>)
    requires Valid(t, p) && p != []
    ensures Valid(t, p[..|p|-1]) && At(t, p[..|p|-1]).Node?
    ensures PathAt(t, p) == [StepAt(At(t, p[..|p|-1]), At(t, p))] + PathAt(t, p[..|p|-1])
    decreases t
  {
    var child := if p[0] then t.right else t.left;
    if |p| == 1 {
      assert p[1..] == [];
    } else {
      PathAtSuffix(child, p[1..]);
      assert p[..|p|-1][1..] == p[1..][..|p|-2];
    }
  }

  // ---- building ----

  /** Structures over nodes of `s`. */
  ghost predicate Level(ns: seq<Node>, s: set<Node>) {
    forall i :: 0 <= i < |ns| ==> ns[i] in s && ns[i].repr <= s
  }

  ghost predicate Distinct(ns: seq<Node>) {
    forall i, j :: 0 <= i < j < |ns| ==> ns[i] != ns[j]
  }

  ghost predicate Denote(ns: seq<Node>, ts: seq<Tree>) {
    |ns| == |ts| && forall i :: 0 <= i < |ns| ==> ns[i].val == ts[i]
  }

  ghost predicate Free(ns: seq<Node>, from: nat)
    reads set i | from <= i < |ns| :: ns[i]
  {
    forall i :: from <= i < |ns| ==> ns[i].Parent == null
  }

  ghost predicate AllWf(ns: seq<Node>) {
    forall i :: 0 <= i < |ns| ==> Wf(ns[i])
  }

  ghost function OrderAll(ns: seq<Node>): seq<Node>
    requires AllWf(ns)
  {
    if ns == [] then [] else OrderAll(ns[..|ns|-1]) + InOrder(ns[|ns|-1])
  }

  /** The new parent of two neighbours, or of one node twice. Since a child already points to its parent, a
      node without one is nobody's child, and no existing link is lost. */
  method Join(H: Hash, left: Node, right: Node, ghost s: set<Node>) returns (n: Node)
    requires Wf(left) && Wf(right) && left in s && right in s && left.repr + right.repr <= s
    requires LinkedIn(s) && left.Parent == null && right.Parent == null
    modifies {left, right}`Parent
    ensures fresh(n) && n.Parent == null && n.Left == left && n.Right == right
    ensures Wf(n) && n.val == Pair(H, left.val, right.val) && n.repr <= s + {n}
    ensures LinkedIn(s + {n})
  {
    n := new Node.Inner(left, right, H(left.Hash + right.Hash));
    left.Parent := n;
    right.Parent := n;
  }

  /** In the middle of a level: `nodes` are the parents of the first `done` nodes. */
  ghost predicate Stage(H: Hash, nl: seq<Node>, ts: seq<Tree>, nodes: seq<Node>, done: nat, s: set<Node>) {
    && AllWf(nl) && AllWf(nodes) && Level(nl, s) && Level(nodes, s) && Distinct(nl) && Distinct(nodes)
    && done <= |nl| == |ts| && Denote(nl, ts) && Denote(nodes, LevelUp(H, ts[..done]))
    && OrderAll(nl[..done]) <= OrderAll(nodes)
    && (done == 2 * |nodes| ==> OrderAll(nl[..done]) == OrderAll(nodes))
  }

  lemma {:induction false} StageNext(H: Hash, nl: seq<Node>, ts: seq<Tree>, nodes: seq<Node>, i: nat, s: set<Node>,
                                     n: Node, r: nat)
    requires i == 2 * |nodes| && i < |nl| && r == (if i + 1 == |nl| then i else i + 1)
    requires Stage(H, nl, ts, nodes, i, s)
    requires n !in s && Wf(n) && n.repr <= s + {n}
    requires n.Left == nl[i] && n.Right == nl[r] && n.val == Pair(H, nl[i].val, nl[r].val)
    ensures Stage(H, nl, ts, nodes + [n], r + 1, s + {n})
  {
    DenoteNext(H, nl, ts, nodes, i, r, n);
    OrderNext(nl, nodes, i, r, n);
    assert r == i ==> nl[..r+1] == nl;
    hide Wf, Denote, OrderAll, InOrder;
  }

  /** The values of the parents made so far are the level above the part of the level done so far. */
  lemma {:induction false} DenoteNext(H: Hash, nl: seq<Node>, ts: seq<Tree>, nodes: seq<Node>, i: nat, r: nat, n: Node)
    requires Denote(nl, ts) && i == 2 * |nodes| && i < |nl| && r == if i + 1 == |nl| then i else i + 1
    requires Denote(nodes, LevelUp(H, ts[..i]))
    requires n.val == Pair(H, nl[i].val, nl[r].val)
    ensures Denote(nodes + [n], LevelUp(H, ts[..r+1]))
  {
    assert LevelUp(H, ts[..r+1]) == LevelUp(H, ts[..i]) + [n.val] by {
      LevelUpConcat(H, ts[..i], ts[i..r+1], |nodes|);
      assert ts[..r+1] == ts[..i] + ts[i..r+1];
      assert LevelUp(H, ts[i..r+1]) == [Pair(H, ts[i], ts[r])];
    }
  }

  lemma {:induction false} OrderAllSnoc(ns: seq<Node>, n: Node)
    requires AllWf(ns) && Wf(n)
    ensures AllWf(ns + [n]) && OrderAll(ns + [n]) == OrderAll(ns) + InOrder(n)
  {
    hide Wf, InOrder;
    assert (ns + [n])[..|ns|] == ns;
  }

  /** A join keeps the leaves in order; joining the last node with itself repeats its leaves. */
  lemma {:induction false} OrderNext(nl: seq<Node>, nodes: seq<Node>, i: nat, r: nat, n: Node)
    requires AllWf(nl) && AllWf(nodes) && Wf(n) && n.val.Node?
    requires i < |nl| && r == if i + 1 == |nl| then i else i + 1
    requires n.Left == nl[i] && n.Right == nl[r]
    requires OrderAll(nl[..i]) == OrderAll(nodes)
    ensures r > i ==> OrderAll(nl[..r+1]) == OrderAll(nodes + [n])
    ensures r == i ==> OrderAll(nl) <= OrderAll(nodes + [n])
  {
    assert InOrder(n) == InOrder(nl[i]) + InOrder(nl[r]);
    hide *;
    OrderAllSnoc(nodes, n);
    OrderUpTo(nl, i);
    Associate(OrderAll(nodes), InOrder(nl[i]), InOrder(nl[r]));
    if r == i {
      assert nl[..i+1] == nl;
    } else {
      OrderUpTo(nl, i + 1);
    }
  }

  lemma {:induction false} OrderUpTo(nl: seq<Node>, i: nat)
    requires AllWf(nl) && i < |nl|
    ensures OrderAll(nl[..i+1]) == OrderAll(nl[..i]) + InOrder(nl[i])
  {
    hide Wf, OrderAll, InOrder;
    assert nl[..i+1] == nl[..i] + [nl[i]];
    OrderAllSnoc(nl[..i], nl[i]);
  }

  lemma {:induction false} StageStart(H: Hash, nl: seq<Node>, ts: seq<Tree>, s: set<Node>)
    requires AllWf(nl) && Level(nl, s) && Distinct(nl) && Denote(nl, ts)
    ensures Stage(H, nl, ts, [], 0, s)
  {
    assert nl[..0] == [] && ts[..0] == [];
  }

  lemma {:induction false} StageEnd(H: Hash, nl: seq<Node>, ts: seq<Tree>, nodes: seq<Node>, s: set<Node>)
    requires Stage(H, nl, ts, nodes, |nl|, s)
    ensures AllWf(nodes) && Level(nodes, s) && Distinct(nodes) && Denote(nodes, LevelUp(H, ts))
    ensures OrderAll(nl) <= OrderAll(nodes)
  {
    hide Wf, OrderAll;
    assert nl[..|nl|] == nl && ts[..|nl|] == ts;
  }

  /** The loop over one level: a new parent for every two neighbours, and one for the last node of an odd
      level alone. */
  method BuildLevel(H: Hash, nl: seq<Node>, ghost ts: seq<Tree>, ghost s: set<Node>)
    returns (nodes: seq<Node>, ghost s': set<Node>)
    requires AllWf(nl) && Level(nl, s) && Distinct(nl) && Denote(nl, ts) && Free(nl, 0) && LinkedIn(s)
    modifies (set n | n in nl)`Parent
    ensures AllWf(nodes) && Level(nodes, s') && Distinct(nodes) && Denote(nodes, LevelUp(H, ts))
    ensures Free(nodes, 0) && LinkedIn(s') && s <= s' && fresh(s' - s)
    ensures forall j :: 0 <= j < |nodes| ==> fresh(nodes[j])
    ensures OrderAll(nl) <= OrderAll(nodes)
  {
    nodes, s' := [], s;
    var i := 0;
    StageStart(H, nl, ts, s);
    ghost var done := 0;
    hide *;
    while i < |nl|
      invariant i == 2 * |nodes| && 0 <= done <= |nl| && (if i <= |nl| then done == i else done == |nl| == i - 1)
      invariant Stage(H, nl, ts, nodes, done, s') && Free(nl, done) && Free(nodes, 0) && LinkedIn(s')
      invariant s <= s' && fresh(s' - s)
      invariant forall j :: 0 <= j < |nodes| ==> fresh(nodes[j])
      decreases |nl| + 1 - i
    {
      var n;
      n, s' := JoinNext(H, nl, nodes, i, ts, s');
      nodes := nodes + [n];
      done := if i + 1 == |nl| then i + 1 else i + 2;
      i := i + 2;
    }
    StageEnd(H, nl, ts, nodes, s');
  }

  /** One pass of the loop over a level. */
  method JoinNext(H: Hash, nl: seq<Node>, nodes: seq<Node>, i: nat, ghost ts: seq<Tree>, ghost s: set<Node>)
    returns (n: Node, ghost s': set<Node>)
    requires i == 2 * |nodes| && i < |nl|
    requires Stage(H, nl, ts, nodes, i, s) && Free(nl, i) && Free(nodes, 0) && LinkedIn(s)
    requires forall j :: 0 <= j < |nodes| ==> nodes[j] !in nl
    modifies (set n | n in nl)`Parent
    ensures fresh(n) && s' == s + {n} && LinkedIn(s')
    ensures Stage(H, nl, ts, nodes + [n], if i + 1 == |nl| then i + 1 else i + 2, s')
    ensures Free(nl, if i + 1 == |nl| then i + 1 else i + 2) && Free(nodes + [n], 0)
  {
    var left, right := i, i + 1;
    if i + 1 == |nl| {
      right := i;
    }
    hide Denote, OrderAll, InOrder, LevelUp;
    n := Join(H, nl[left], nl[right], s);
    s' := s + {n};
    hide Wf, LinkedIn;
    StageNext(H, nl, ts, nodes, i, s, n, right);
  }

  /** Levels are built until one of two nodes has got its parent. A level of one node would make the
      source recurse for ever. */
  method BuildIntermediate(H: Hash, nl: seq<Node>, ghost ts: seq<Tree>, ghost s: set<Node>)
    returns (root: Node, ghost s': set<Node>)
    requires |nl| >= 2
    requires AllWf(nl) && Level(nl, s) && Distinct(nl) && Denote(nl, ts) && Free(nl, 0) && LinkedIn(s)
    modifies (set n | n in nl)`Parent
    ensures Wf(root) && root.val == BuildUp(H, ts) && root.Parent == null
    ensures LinkedIn(root.repr) && root.repr <= s' && s <= s' && fresh(s' - s)
    ensures OrderAll(nl) <= InOrder(root)
    decreases |nl|
  {
    var nodes;
    nodes, s' := BuildLevel(H, nl, ts, s);
    if |nl| == 2 {
      root := nodes[0];
      assert nodes == [root];
      OrderAllSnoc([], root);
      LinkedBelow(root, s');
      return;
    }
    ghost var s1 := s';
    root, s' := BuildIntermediate(H, nodes, LevelUp(H, ts), s1);
  }

  /** A list of leaf nodes. */
  ghost predicate LeafNodes(leafs: seq<Node>, ts: seq<Tree>) {
    && AllWf(leafs) && Distinct(leafs) && Denote(leafs, ts) && OrderAll(leafs) == leafs
    && forall j :: 0 <= j < |leafs| ==> leafs[j].IsLeaf && leafs[j].repr == {leafs[j]}
  }

  lemma {:induction false} LeafNodesNext(leafs: seq<Node>, ts: seq<Tree>, n: Node)
    requires LeafNodes(leafs, ts) && n !in leafs && Wf(n) && n.val.Leaf?
    ensures LeafNodes(leafs + [n], ts + [n.val])
  {
    assert InOrder(n) == [n] && n.IsLeaf && n.repr == {n};
    OrderAllSnoc(leafs, n);
    hide Wf, InOrder, OrderAll, AllWf, Distinct, Denote;
    assert Distinct(leafs + [n]) && Denote(leafs + [n], ts + [n.val]) by { SnocDenotes(leafs, ts, n); }
  }

  lemma SnocDenotes(ns: seq<Node>, ts: seq<Tree>, n: Node)
    requires Distinct(ns) && Denote(ns, ts) && n !in ns
    ensures Distinct(ns + [n]) && Denote(ns + [n], ts + [n.val])
  {
  }

  lemma {:induction false} LeafValuesNext(H: Hash, cs: seq<LeafContent>, i: nat)
    requires i < |cs|
    ensures LeafValues(H, cs[..i+1]) == LeafValues(H, cs[..i]) + [LeafValue(H, cs[i], false)]
  {
    assert cs[..i+1] == cs[..i] + [cs[i]];
    LeafValuesConcat(H, cs[..i], [cs[i]]);
    assert LeafValues(H, [cs[i]]) == [LeafValue(H, cs[i], false)];
  }

  /** One leaf for each content, and a marked copy of the last one if their number is odd. */
  method MakeLeafs(H: Hash, cs: seq<LeafContent>) returns (leafs: seq<Node>)
    requires cs != []
    ensures LeafNodes(leafs, LeafLevel(H, cs)) && Free(leafs, 0)
    ensures forall j :: 0 <= j < |leafs| ==> fresh(leafs[j])
  {
    leafs := [];
    hide Wf, LeafValues, LeafHash;
    for i := 0 to |cs|
      invariant |leafs| == i && LeafNodes(leafs, LeafValues(H, cs[..i])) && Free(leafs, 0)
      invariant forall j :: 0 <= j < i ==> fresh(leafs[j])
    {
      hide LeafNodes, OrderAll;
      var n := new Node.Leaf(LeafHash(H, cs[i]), cs[i], false);
      LeafNodesNext(leafs, LeafValues(H, cs[..i]), n);
      LeafValuesNext(H, cs, i);
      leafs := leafs + [n];
    }
    assert cs[..|cs|] == cs;
    leafs := MakeEven(H, cs, leafs);
  }

  method MakeEven(H: Hash, cs: seq<LeafContent>, leafs: seq<Node>) returns (even: seq<Node>)
    requires cs != [] && |leafs| == |cs| && LeafNodes(leafs, LeafValues(H, cs)) && Free(leafs, 0)
    ensures leafs <= even && LeafNodes(even, LeafLevel(H, cs)) && Free(even, 0)
    ensures forall j :: |leafs| <= j < |even| ==> fresh(even[j])
  {
    hide Wf, LeafValues, LeafHash;
    even := leafs;
    if |leafs| % 2 == 1 {
      var last := leafs[|leafs|-1];
      LastLeaf(H, cs, leafs);
      hide LeafNodes, OrderAll;
      var n := new Node.Leaf(last.Hash, last.C, true);
      LeafNodesNext(leafs, LeafValues(H, cs), n);
      even := leafs + [n];
    }
  }

  lemma {:induction false} LastLeaf(H: Hash, cs: seq<LeafContent>, leafs: seq<Node>)
    requires cs != [] && LeafNodes(leafs, LeafValues(H, cs))
    ensures leafs[|cs|-1].Hash == LeafHash(H, cs[|cs|-1]) && leafs[|cs|-1].C == cs[|cs|-1]
  {
    LeafValuesNext(H, cs, |cs| - 1);
    assert cs[..|cs|] == cs;
  }

  method BuildWithContent(H: Hash, cs: seq<LeafContent>) returns (r: Option<(Node, seq<Node>)>)
    ensures r.None? <==> cs == []
    ensures r.Some? ==> Built(H, cs, r.value.0, r.value.1) && fresh(r.value.0.repr)
  {
    if cs == [] {
      return None;
    }
    var leafs := MakeLeafs(H, cs);
    ghost var s := set n | n in leafs;
    LeafsAreLevel(leafs, LeafLevel(H, cs), s);
    assert fresh(s);
    hide Wf, LeafNodes, LinkedIn, LeafLevel, BuildUp, OrderAll, InOrder, Distinct;
    var root, s' := BuildIntermediate(H, leafs, LeafLevel(H, cs), s);
    return Some((root, leafs));
  }

  lemma {:induction false} LeafsAreLevel(leafs: seq<Node>, ts: seq<Tree>, s: set<Node>)
    requires LeafNodes(leafs, ts) && s == set n | n in leafs
    ensures AllWf(leafs) && Level(leafs, s) && Distinct(leafs) && Denote(leafs, ts) && LinkedIn(s)
    ensures OrderAll(leafs) == leafs && |leafs| == |ts|
  {
    hide Wf, OrderAll;
  }

  ghost predicate Built(H: Hash, cs: seq<LeafContent>, root: Node, leafs: seq<Node>)
    reads root, root.repr
  {
    && cs != [] && Wf(root) && root.val == TreeOf(H, cs) && root.Parent == null && LinkedIn(root.repr)
    && leafs <= InOrder(root) && |leafs| == |Evened(cs)|
  }
}
