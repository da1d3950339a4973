/** Merkle trees as values: what the pointer structure of a `MerkleTree` denotes. Leaves carry no prefix,
    and a node without a right neighbour is paired with itself. The hash is any function; `Sized` says
    that its digests have the length of a SHA-256 digest.
 */
module MerkleValue {
  import opened Names
  import opened LeafChain

  type Hash = string -> string

  const DIGEST_SIZE := 32

  ghost predicate Sized(H: Hash) {
    forall m :: |H(m)| == DIGEST_SIZE
  }

  predicate Collides(H: Hash, a: string, b: string) {
    a != b && H(a) == H(b)
  }

  // ---- leaf digests ----

  /** Go's `%b`. */
  function Binary(n: nat): string {
    var d := if n % 2 == 0 then "0" else "1";
    if n < 2 then d else Binary(n / 2) + d
  }

  function TypeBytes(t: LeafType): string {
    match t
    case Smallest => ['\U{0}']
    case Existing => ['\U{1}']
    case Greatest => ['\U{2}']
  }

  /** What is hashed for one end of an interval. */
  function Part(z: LeafZone): string {
    z.zone + Binary(z.alv) + TypeBytes(z.zoneType)
  }

  function Message(c: LeafContent): string {
    Part(c.start) + Part(c.end)
  }

  function LeafHash(H: Hash, c: LeafContent): string {
    H(Message(c))
  }

  // ---- trees ----

  datatype Tree =
    | Leaf(hash: string, c: LeafContent, dup: bool)
    | Node(hash: string, left: Tree, right: Tree)

  /** Every stored digest is the digest of what it stands for. */
  ghost predicate Hashed(H: Hash, t: Tree) {
    match t
    case Leaf(h, c, _) => h == LeafHash(H, c)
    case Node(h, l, r) => h == H(l.hash + r.hash) && Hashed(H, l) && Hashed(H, r)
  }

  /** The digest recomputed from the leaves, as `verifyNode` does. */
  function Rehash(H: Hash, t: Tree): string {
    match t
    case Leaf(_, c, _) => LeafHash(H, c)
    case Node(_, l, r) => H(Rehash(H, l) + Rehash(H, r))
  }

  lemma {:induction false} RehashIsStored(H: Hash, t: Tree)
    requires Hashed(H, t)
    ensures Rehash(H, t) == t.hash
  {
    if t.Node? {
      RehashIsStored(H, t.left);
      RehashIsStored(H, t.right);
    }
  }

  /** The leaf contents from left to right. */
  function Leaves(t: Tree): (r: seq<LeafContent>)
    ensures |r| >= 1
  {
    match t
    case Leaf(_, c, _) => [c]
    case Node(_, l, r) => Leaves(l) + Leaves(r)
  }

  function LeavesAll(ts: seq<Tree>): seq<LeafContent> {
    if ts == [] then [] else Leaves(ts[0]) + LeavesAll(ts[1..])
  }

  predicate SameShape(t: Tree, u: Tree) {
    match (t, u)
    case (Leaf(_, _, _), Leaf(_, _, _)) => true
    case (Node(_, l, r), Node(_, l', r')) => SameShape(l, l') && SameShape(r, r')
    case _ => false
  }

  /** The messages hashed for the leaves, from left to right. */
  function Messages(t: Tree): seq<string> {
    match t
    case Leaf(_, c, _) => [Message(c)]
    case Node(_, l, r) => Messages(l) + Messages(r)
  }

  lemma {:induction false} ShapeCounts(t: Tree, u: Tree)
    requires SameShape(t, u)
    ensures |Messages(t)| == |Messages(u)|
  {
    if t.Node? {
      ShapeCounts(t.left, u.left);
      ShapeCounts(t.right, u.right);
    }
  }

  lemma MessagesOfNode(t: Tree, u: Tree)
    requires t.Node? && u.Node? && SameShape(t, u)
    ensures Messages(t) == Messages(u) <==>
      Messages(t.left) == Messages(u.left) && Messages(t.right) == Messages(u.right)
  {
    ShapeCounts(t.left, u.left);
    var n := |Messages(t.left)|;
    assert Messages(t)[..n] == Messages(t.left) && Messages(t)[n..] == Messages(t.right);
    assert Messages(u)[..n] == Messages(u.left) && Messages(u)[n..] == Messages(u.right);
  }

  lemma RehashSized(H: Hash, t: Tree)
    requires Sized(H)
    ensures |Rehash(H, t)| == DIGEST_SIZE
  {
  }

  /** Recomputing binds the leaves: two trees of one shape get one digest exactly if their leaves hash the same
      messages, or else there are two messages with one digest. */
  lemma {:induction false} RehashBinds(H: Hash, t: Tree, u: Tree) returns (a: string, b: string)
    requires Sized(H) && SameShape(t, u)
    ensures Messages(t) == Messages(u) ==> Rehash(H, t) == Rehash(H, u)
    ensures Rehash(H, t) == Rehash(H, u) ==> Messages(t) == Messages(u) || Collides(H, a, b)
  {
    if t.Leaf? {
      a, b := Message(t.c), Message(u.c);
      assert Messages(t)[0] == a && Messages(u)[0] == b;
    } else {
      a, b := Rehash(H, t.left) + Rehash(H, t.right), Rehash(H, u.left) + Rehash(H, u.right);
      var a1, b1 := RehashBinds(H, t.left, u.left);
      var a2, b2 := RehashBinds(H, t.right, u.right);
      RehashSized(H, t.left);
      RehashSized(H, u.left);
      MessagesOfNode(t, u);
      hide Messages, Sized, SameShape, Message;
      if a == b {
        assert Rehash(H, t.left) == a[..DIGEST_SIZE] && Rehash(H, t.right) == a[DIGEST_SIZE..];
        assert Rehash(H, u.left) == b[..DIGEST_SIZE] && Rehash(H, u.right) == b[DIGEST_SIZE..];
        if Collides(H, a1, b1) { a, b := a1, b1; } else { a, b := a2, b2; }
      }
    }
  }

  ghost predicate Perfect(t: Tree, d: nat) {
    match t
    case Leaf(_, _, _) => d == 0
    case Node(_, l, r) => d > 0 && Perfect(l, d - 1) && Perfect(r, d - 1)
  }

  function Pow2(n: nat): nat {
    if n == 0 then 1 else 2 * Pow2(n - 1)
  }

  lemma {:induction false} PerfectLeafCount(t: Tree, d: nat)
    requires Perfect(t, d)
    ensures |Leaves(t)| == Pow2(d)
  {
    if t.Node? {
      PerfectLeafCount(t.left, d - 1);
      PerfectLeafCount(t.right, d - 1);
    }
  }

  // ---- building ----

  function LeafValue(H: Hash, c: LeafContent, dup: bool): Tree {
    Leaf(LeafHash(H, c), c, dup)
  }

  function LeafValues(H: Hash, cs: seq<LeafContent>): (r: seq<Tree>)
    ensures |r| == |cs|
  {
    if cs == [] then [] else [LeafValue(H, cs[0], false)] + LeafValues(H, cs[1..])
  }

  /** The leaf level: a marked copy of the last leaf makes its length even. */
  function LeafLevel(H: Hash, cs: seq<LeafContent>): (r: seq<Tree>)
    requires cs != []
    ensures |r| == |cs| + |cs| % 2 >= 2
  {
    LeafValues(H, cs) + (if |cs| % 2 == 1 then [LeafValue(H, cs[|cs|-1], true)] else [])
  }

  function Evened(cs: seq<LeafContent>): seq<LeafContent> {
    cs + (if |cs| % 2 == 1 then [cs[|cs|-1]] else [])
  }

  function Pair(H: Hash, l: Tree, r: Tree): Tree {
    Node(H(l.hash + r.hash), l, r)
  }

  /** One level up; the last node of an odd level is its own right neighbour. */
  function LevelUp(H: Hash, ts: seq<Tree>): (r: seq<Tree>)
    ensures |ts| <= 2 * |r| <= |ts| + 1
  {
    if ts == [] then []
    else if |ts| == 1 then [Pair(H, ts[0], ts[0])]
    else [Pair(H, ts[0], ts[1])] + LevelUp(H, ts[2..])
  }

  /** The level length never reaches one before the two-node level that becomes the root. */
  function BuildUp(H: Hash, ts: seq<Tree>): Tree
    requires |ts| >= 2
    decreases |ts|
  {
    if |ts| == 2 then Pair(H, ts[0], ts[1]) else BuildUp(H, LevelUp(H, ts))
  }

  function TreeOf(H: Hash, cs: seq<LeafContent>): Tree
    requires cs != []
  {
    BuildUp(H, LeafLevel(H, cs))
  }

  /** The number of levels above a level of `n` nodes. */
  function Height(n: nat): nat
    requires n >= 2
  {
    if n == 2 then 1 else 1 + Height((n + 1) / 2)
  }

  ghost predicate AllPerfect(H: Hash, ts: seq<Tree>, d: nat) {
    forall i :: 0 <= i < |ts| ==> Perfect(ts[i], d) && Hashed(H, ts[i])
  }

  lemma {:induction false} LevelUpIsPerfect(H: Hash, ts: seq<Tree>, d: nat)
    requires AllPerfect(H, ts, d)
    ensures AllPerfect(H, LevelUp(H, ts), d + 1)
    decreases |ts|
  {
    if |ts| >= 2 {
      LevelUpIsPerfect(H, ts[2..], d);
    }
  }

  lemma {:induction false} BuildUpIsPerfect(H: Hash, ts: seq<Tree>, d: nat)
    requires |ts| >= 2 && AllPerfect(H, ts, d)
    ensures Perfect(BuildUp(H, ts), d + Height(|ts|))
    ensures Hashed(H, BuildUp(H, ts))
    decreases |ts|
  {
    if |ts| > 2 {
      LevelUpIsPerfect(H, ts, d);
      BuildUpIsPerfect(H, LevelUp(H, ts), d + 1);
    }
  }

  /** What an odd level repeats: the leaves below its last node. */
  function Repeated(ts: seq<Tree>): seq<LeafContent> {
    if ts == [] then [] else if |ts| == 1 then Leaves(ts[0]) else Repeated(ts[2..])
  }

  lemma {:induction false} LevelUpLeaves(H: Hash, ts: seq<Tree>)
    ensures LeavesAll(LevelUp(H, ts)) == LeavesAll(ts) + Repeated(ts)
    decreases |ts|
  {
    if |ts| == 1 {
      LeavesAllSingle(ts[0]);
      PairLeaves(H, ts[0], ts[0]);
      assert ts == [ts[0]];
    } else if |ts| >= 2 {
      var rest := ts[2..];
      LevelUpLeaves(H, rest);
      LeavesAllFront(ts);
      LeavesAllConcat([Pair(H, ts[0], ts[1])], LevelUp(H, rest));
      PairLeaves(H, ts[0], ts[1]);
    }
  }

  lemma LeavesAllFront(ts: seq<Tree>)
    requires |ts| >= 2
    ensures LeavesAll(ts) == Leaves(ts[0]) + Leaves(ts[1]) + LeavesAll(ts[2..])
  {
    LeavesAllConcat([ts[0], ts[1]], ts[2..]);
    LeavesAllTwo(ts[0], ts[1]);
    assert ts == [ts[0], ts[1]] + ts[2..];
  }

  lemma {:induction false} RepeatedIsOld(ts: seq<Tree>)
    ensures forall x :: x in Repeated(ts) ==> x in LeavesAll(ts)
    decreases |ts|
  {
    if |ts| == 1 {
      LeavesAllSingle(ts[0]);
      assert ts == [ts[0]];
    } else if |ts| >= 2 {
      RepeatedIsOld(ts[2..]);
      LeavesAllFront(ts);
    }
  }

  lemma LeavesAllSingle(t: Tree)
    ensures LeavesAll([t]) == Leaves(t)
  {
    assert [t][1..] == [];
    assert LeavesAll([t]) == Leaves(t) + [];
  }

  lemma PairLeaves(H: Hash, t: Tree, u: Tree)
    ensures LeavesAll([Pair(H, t, u)]) == Leaves(t) + Leaves(u)
  {
    LeavesAllSingle(Pair(H, t, u));
  }

  lemma LeavesAllTwo(t: Tree, u: Tree)
    ensures LeavesAll([t, u]) == Leaves(t) + Leaves(u)
  {
    LeavesAllSingle(u);
    assert [t, u][1..] == [u];
  }

  lemma {:induction false} LeavesAllConcat(a: seq<Tree>, b: seq<Tree>)
    ensures LeavesAll(a + b) == LeavesAll(a) + LeavesAll(b)
  {
    if a == [] {
      assert a + b == b;
    } else {
      LeavesAllConcat(a[1..], b);
      assert (a + b)[1..] == a[1..] + b;
    }
  }

  /** The leaves of the built tree begin with the leaves of the level it was built from; the rest
      repeats some of them. */
  lemma {:induction false} BuildUpLeaves(H: Hash, ts: seq<Tree>)
    requires |ts| >= 2
    ensures LeavesAll(ts) <= Leaves(BuildUp(H, ts))
    ensures forall x :: x in Leaves(BuildUp(H, ts)) ==> x in LeavesAll(ts)
    decreases |ts|
  {
    if |ts| == 2 {
      LeavesAllTwo(ts[0], ts[1]);
      assert ts == [ts[0], ts[1]];
    } else {
      LevelUpLeaves(H, ts);
      BuildUpLeaves(H, LevelUp(H, ts));
      RepeatedIsOld(ts);
    }
  }

  lemma {:induction false} LeafValuesShape(H: Hash, cs: seq<LeafContent>)
    ensures LeavesAll(LeafValues(H, cs)) == cs
    ensures AllPerfect(H, LeafValues(H, cs), 0)
  {
    if cs != [] {
      LeafValuesShape(H, cs[1..]);
      assert LeafValues(H, cs)[1..] == LeafValues(H, cs[1..]);
    }
  }

  lemma LeafLevelShape(H: Hash, cs: seq<LeafContent>)
    requires cs != []
    ensures LeavesAll(LeafLevel(H, cs)) == Evened(cs)
    ensures AllPerfect(H, LeafLevel(H, cs), 0)
  {
    LeafValuesShape(H, cs);
    if |cs| % 2 == 1 {
      LeavesAllConcat(LeafValues(H, cs), [LeafValue(H, cs[|cs|-1], true)]);
      LeavesAllSingle(LeafValue(H, cs[|cs|-1], true));
    } else {
      assert LeafLevel(H, cs) == LeafValues(H, cs);
    }
  }

  /** The tree of a content list: all leaves at one depth, digests correct, leaf contents starting
      with the list and adding nothing to it. */
  lemma TreeOfShape(H: Hash, cs: seq<LeafContent>)
    requires cs != []
    ensures Hashed(H, TreeOf(H, cs)) && Perfect(TreeOf(H, cs), Height(|cs| + |cs| % 2))
    ensures |Leaves(TreeOf(H, cs))| == Pow2(Height(|cs| + |cs| % 2))
    ensures cs <= Evened(cs) <= Leaves(TreeOf(H, cs))
    ensures forall x :: x in Leaves(TreeOf(H, cs)) <==> x in cs
  {
    hide Leaves, LeavesAll, BuildUp, LeafLevel, LeafValues, Perfect, Hashed, Height, Pow2;
    LeafLevelShape(H, cs);
    BuildUpIsPerfect(H, LeafLevel(H, cs), 0);
    BuildUpLeaves(H, LeafLevel(H, cs));
    PerfectLeafCount(TreeOf(H, cs), Height(|cs| + |cs| % 2));
  }

  /** Only leaves behind the first node of a level are ever repeated. */
  lemma {:induction false} RepeatedIsLater(H: Hash, ts: seq<Tree>)
    requires |ts| >= 3
    ensures forall x :: x in Repeated(ts) ==> x in LeavesAll(ts[1..])
    ensures forall x :: x in LeavesAll(LevelUp(H, ts)[1..]) ==> x in LeavesAll(ts[1..])
  {
    var rest := ts[2..];
    RepeatedIsOld(rest);
    LevelUpLeaves(H, rest);
    assert LevelUp(H, ts)[1..] == LevelUp(H, rest);
    LeavesAllConcat([ts[1]], rest);
    assert ts[1..] == [ts[1]] + rest;
  }

  lemma {:induction false} BuildUpTail(H: Hash, ts: seq<Tree>, i: nat)
    requires |ts| >= 2 && |LeavesAll(ts)| <= i < |Leaves(BuildUp(H, ts))|
    ensures Leaves(BuildUp(H, ts))[i] in LeavesAll(ts[1..])
    decreases |ts|
  {
    if |ts| > 2 {
      var up := LevelUp(H, ts);
      LevelUpLeaves(H, ts);
      BuildUpLeaves(H, up);
      RepeatedIsLater(H, ts);
      if i < |LeavesAll(up)| {
        assert Leaves(BuildUp(H, ts))[i] == LeavesAll(up)[i] == Repeated(ts)[i - |LeavesAll(ts)|];
      } else {
        BuildUpTail(H, up, i);
      }
    }
  }

  /** Behind the content list itself the leaves of its tree repeat only contents after the first. */
  lemma TreeOfTail(H: Hash, cs: seq<LeafContent>, i: nat)
    requires |cs| >= 2 && |cs| <= i < |Leaves(TreeOf(H, cs))|
    ensures Leaves(TreeOf(H, cs))[i] in cs[1..]
  {
    var ts := LeafLevel(H, cs);
    LeafLevelShape(H, cs);
    BuildUpLeaves(H, ts);
    if i < |Evened(cs)| {
      assert Leaves(TreeOf(H, cs))[i] == Evened(cs)[i] == cs[|cs|-1] == cs[1..][|cs|-2];
    } else {
      BuildUpTail(H, ts, i);
      LeavesAllConcat([ts[0]], ts[1..]);
      LeavesAllSingle(ts[0]);
      assert ts == [ts[0]] + ts[1..];
      assert LeavesAll(ts[1..]) == Evened(cs)[1..];
    }
  }

  // ---- rebuilding from the leaves ----

  /** The nodes `k` levels below the root. */
  function Cut(t: Tree, k: nat): seq<Tree> {
    if k == 0 || t.Leaf? then [t] else Cut(t.left, k - 1) + Cut(t.right, k - 1)
  }

  lemma {:induction false} CutSize(t: Tree, d: nat, k: nat)
    requires Perfect(t, d) && k <= d
    ensures |Cut(t, k)| == Pow2(k)
  {
    if k > 0 {
      CutSize(t.left, d - 1, k - 1);
      CutSize(t.right, d - 1, k - 1);
    }
  }

  lemma {:induction false} CutAtLeaves(H: Hash, t: Tree, d: nat)
    requires Perfect(t, d) && Hashed(H, t) && !HasMarked(t)
    ensures Cut(t, d) == LeafValues(H, Leaves(t))
  {
    if t.Node? {
      CutAtLeaves(H, t.left, d - 1);
      CutAtLeaves(H, t.right, d - 1);
      LeafValuesConcat(H, Leaves(t.left), Leaves(t.right));
    }
  }

  lemma {:induction false} LeafValuesConcat(H: Hash, a: seq<LeafContent>, b: seq<LeafContent>)
    ensures LeafValues(H, a + b) == LeafValues(H, a) + LeafValues(H, b)
  {
    hide LeafValue;
    if a == [] {
      assert a + b == b;
    } else {
      LeafValuesConcat(H, a[1..], b);
      LeafValuesFirst(H, a, b);
      Associate([LeafValue(H, a[0], false)], LeafValues(H, a[1..]), LeafValues(H, b));
    }
  }

  lemma LeafValuesFirst(H: Hash, a: seq<LeafContent>, b: seq<LeafContent>)
    requires a != []
    ensures LeafValues(H, a + b) == [LeafValue(H, a[0], false)] + LeafValues(H, a[1..] + b)
  {
    hide LeafValue;
    assert (a + b)[1..] == a[1..] + b;
  }

  /** Some leaf is a marked copy. */
  predicate HasMarked(t: Tree) {
    match t
    case Leaf(_, _, dup) => dup
    case Node(_, l, r) => HasMarked(l) || HasMarked(r)
  }

  function Unmark(t: Tree): (u: Tree)
    ensures u.hash == t.hash && Leaves(u) == Leaves(t) && !HasMarked(u)
  {
    match t
    case Leaf(h, c, _) => Leaf(h, c, false)
    case Node(h, l, r) => Node(h, Unmark(l), Unmark(r))
  }

  lemma {:induction false} UnmarkKeeps(H: Hash, t: Tree, d: nat)
    requires Perfect(t, d) && Hashed(H, t)
    ensures Perfect(Unmark(t), d) && Hashed(H, Unmark(t))
  {
    if t.Node? {
      UnmarkKeeps(H, t.left, d - 1);
      UnmarkKeeps(H, t.right, d - 1);
    }
  }

  lemma {:induction false} LevelUpConcat(H: Hash, a: seq<Tree>, b: seq<Tree>, n: nat)
    requires |a| == 2 * n
    ensures LevelUp(H, a + b) == LevelUp(H, a) + LevelUp(H, b)
  {
    hide Pair;
    if a == [] {
      assert a + b == b;
    } else {
      LevelUpConcat(H, a[2..], b, n - 1);
      LevelUpFirst(H, a, b);
      Associate([Pair(H, a[0], a[1])], LevelUp(H, a[2..]), LevelUp(H, b));
    }
  }

  lemma LevelUpFirst(H: Hash, a: seq<Tree>, b: seq<Tree>)
    requires |a| >= 2
    ensures LevelUp(H, a + b) == [Pair(H, a[0], a[1])] + LevelUp(H, a[2..] + b)
  {
    hide Pair;
    assert (a + b)[2..] == a[2..] + b;
  }

  lemma {:induction false} LevelUpCut(H: Hash, t: Tree, d: nat, k: nat)
    requires Perfect(t, d) && Hashed(H, t) && 0 < k <= d
    ensures LevelUp(H, Cut(t, k)) == Cut(t, k - 1)
  {
    if k == 1 {
      assert Cut(t, 1) == [t.left, t.right];
    } else {
      var l, r := Cut(t.left, k - 1), Cut(t.right, k - 1);
      assert LevelUp(H, l) == Cut(t.left, k - 2) by {
        LevelUpCut(H, t.left, d - 1, k - 1);
      }
      assert LevelUp(H, r) == Cut(t.right, k - 2) by {
        LevelUpCut(H, t.right, d - 1, k - 1);
      }
      assert |l| == 2 * Pow2(k - 2) by {
        CutSize(t.left, d - 1, k - 1);
      }
      LevelUpConcat(H, l, r, Pow2(k - 2));
    }
  }

  lemma BuildUpStep(H: Hash, ts: seq<Tree>, up: seq<Tree>)
    requires |ts| > 2 && LevelUp(H, ts) == up
    ensures BuildUp(H, ts) == BuildUp(H, up)
  {
  }

  lemma CutIsLevel(t: Tree, d: nat, k: nat)
    requires Perfect(t, d) && 0 < k <= d
    ensures |Cut(t, k)| >= 2 && (k > 1 ==> |Cut(t, k)| > 2)
    ensures k == 1 ==> Cut(t, k) == [t.left, t.right]
  {
    CutSize(t, d, k);
    assert k > 1 ==> Pow2(k) == 4 * Pow2(k - 2);
  }

  lemma {:induction false} BuildUpCut(H: Hash, t: Tree, d: nat, k: nat)
    requires Perfect(t, d) && Hashed(H, t) && 0 < k <= d
    requires |Cut(t, k)| >= 2
    ensures BuildUp(H, Cut(t, k)) == t
    decreases k
  {
    CutIsLevel(t, d, k);
    if k > 1 {
      CutIsLevel(t, d, k - 1);
      BuildUpCut(H, t, d, k - 1);
      LevelUpCut(H, t, d, k);
      BuildUpStep(H, Cut(t, k), Cut(t, k - 1));
    }
  }

  /** Building again from the leaf contents of a complete tree gives that tree back, up to the marks
      on copied leaves: writing out the shared nodes of odd levels changes no digest. */
  lemma RebuildFromLeaves(H: Hash, t: Tree, d: nat)
    requires Perfect(t, d) && d > 0 && Hashed(H, t)
    ensures TreeOf(H, Leaves(t)) == Unmark(t)
  {
    var u, ls := Unmark(t), Leaves(t);
    UnmarkKeeps(H, t, d);
    CutAtLeaves(H, u, d);
    CutIsLevel(u, d, d);
    BuildUpCut(H, u, d, d);
    LeafCountEven(t, d);
    TreeOfEven(H, ls);
  }

  lemma LeafCountEven(t: Tree, d: nat)
    requires Perfect(t, d) && d > 0
    ensures |Leaves(t)| % 2 == 0
  {
    PerfectLeafCount(t.left, d - 1);
    PerfectLeafCount(t.right, d - 1);
    assert |Leaves(t)| == |Leaves(t.left)| + |Leaves(t.right)|;
    hide *;
    TwiceIsEven(|Leaves(t.left)|);
  }

  lemma TwiceIsEven(n: nat)
    ensures (n + n) % 2 == 0
  {
  }

  lemma TreeOfEven(H: Hash, cs: seq<LeafContent>)
    requires cs != [] && |cs| % 2 == 0
    ensures TreeOf(H, cs) == BuildUp(H, LeafValues(H, cs))
  {
    assert LeafLevel(H, cs) == LeafValues(H, cs);
  }
}
