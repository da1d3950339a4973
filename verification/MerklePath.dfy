/** Merkle paths: what `GetMerklePath` returns, what folding a path computes, and what a path that folds
    to the root says about the leaf it starts from.
 */
module MerklePath {
  import opened Names
  import opened LeafChain
  import opened MerkleValue

  /** One path element and its entry in the index slice: 1 when the sibling stands on the right. */
  datatype Step = Step(sibling: string, index: int)

  // ---- positions ----

  /** The place of the `i`-th leaf, as turns from the root; `true` is right. */
  function Position(t: Tree, i: nat): (p: seq<bool>)
    requires i < |Leaves(t)|
    ensures Valid(t, p) && At(t, p).Leaf? && At(t, p).c == Leaves(t)[i]
  {
    match t
    case Leaf(_, _, _) => []
    case Node(_, l, r) =>
      if i < |Leaves(l)| then [false] + Position(l, i) else [true] + Position(r, i - |Leaves(l)|)
  }

  predicate Valid(t: Tree, p: seq<bool>) {
    p == [] || (t.Node? && Valid(if p[0] then t.right else t.left, p[1..]))
  }

  function At(t: Tree, p: seq<bool>): Tree
    requires Valid(t, p)
  {
    if p == [] then t else At(if p[0] then t.right else t.left, p[1..])
  }

  /** The loop of `GetMerklePath` at one parent: it decides by digest, not by pointer. */
  function StepAt(parent: Tree, child: Tree): Step
    requires parent.Node?
  {
    if parent.left.hash == child.hash then Step(parent.right.hash, 1) else Step(parent.left.hash, 0)
  }

  /** The steps from the node at `p` up to the root. */
  function PathAt(t: Tree, p: seq<bool>): (r: seq<Step>)
    requires Valid(t, p)
    ensures |r| == |p|
  {
    if p == [] then []
    else var child := if p[0] then t.right else t.left; PathAt(child, p[1..]) + [StepAt(t, child)]
  }

  function FirstWith(ls: seq<LeafContent>, c: LeafContent): (i: nat)
    ensures i <= |ls|
    ensures i < |ls| ==> ls[i] == c
    ensures c in ls <==> i < |ls|
    ensures forall j :: 0 <= j < i ==> ls[j] != c
  {
    if ls == [] || ls[0] == c then 0 else 1 + FirstWith(ls[1..], c)
  }

  /** The answer of `GetMerklePath`; the empty path when no leaf has the content. */
  function PathOf(t: Tree, c: LeafContent): seq<Step> {
    var i := FirstWith(Leaves(t), c);
    if i < |Leaves(t)| then PathAt(t, Position(t, i)) else []
  }

  // ---- folding ----

  function Joined(d: string, s: Step): string {
    if s.index == 1 then d + s.sibling else s.sibling + d
  }

  /** One hash for each level. */
  function Fold(H: Hash, d: string, path: seq<Step>): string
    decreases path
  {
    if path == [] then d else Fold(H, H(Joined(d, path[0])), path[1..])
  }

  lemma {:induction false} FoldLast(H: Hash, d: string, path: seq<Step>, s: Step)
    ensures Fold(H, d, path + [s]) == H(Joined(Fold(H, d, path), s))
    decreases path
  {
    if path != [] {
      FoldLast(H, H(Joined(d, path[0])), path[1..], s);
      assert (path + [s])[1..] == path[1..] + [s];
    } else {
      assert ([s])[1..] == [];
    }
  }

  /** Joining by digest comparison is right even when both children have the same digest or are the
      same node. */
  lemma StepJoins(t: Tree, right: bool)
    requires t.Node?
    ensures var child := if right then t.right else t.left;
            Joined(child.hash, StepAt(t, child)) == t.left.hash + t.right.hash
  {
  }

  lemma {:induction false} PathAtFolds(H: Hash, t: Tree, p: seq<bool>)
    requires Hashed(H, t) && Valid(t, p)
    ensures Fold(H, At(t, p).hash, PathAt(t, p)) == t.hash
    decreases t
  {
    if p != [] {
      var child := if p[0] then t.right else t.left;
      PathAtFolds(H, child, p[1..]);
      FoldLast(H, At(t, p).hash, PathAt(child, p[1..]), StepAt(t, child));
      StepJoins(t, p[0]);
    }
  }

  lemma {:induction false} LeafDigest(H: Hash, t: Tree, p: seq<bool>)
    requires Hashed(H, t) && Valid(t, p) && At(t, p).Leaf?
    ensures At(t, p).hash == LeafHash(H, At(t, p).c)
    decreases t
  {
    if p != [] {
      LeafDigest(H, if p[0] then t.right else t.left, p[1..]);
    }
  }

  /** Completeness: the path returned for any content of the tree folds, from the digest of that
      content, to the root digest. */
  lemma PathFoldsToRoot(H: Hash, t: Tree, c: LeafContent)
    requires Hashed(H, t) && c in Leaves(t)
    ensures Fold(H, LeafHash(H, c), PathOf(t, c)) == t.hash
  {
    var p := Position(t, FirstWith(Leaves(t), c));
    LeafDigest(H, t, p);
    PathAtFolds(H, t, p);
  }

  lemma {:induction false} PositionDepth(t: Tree, d: nat, p: seq<bool>)
    requires Perfect(t, d) && Valid(t, p) && At(t, p).Leaf?
    ensures |p| == d
  {
    if p != [] {
      PositionDepth(if p[0] then t.right else t.left, d - 1, p[1..]);
    }
  }

  lemma PathLength(t: Tree, d: nat, c: LeafContent)
    requires Perfect(t, d) && c in Leaves(t)
    ensures |PathOf(t, c)| == d
  {
    PositionDepth(t, d, Position(t, FirstWith(Leaves(t), c)));
  }

  // ---- binding ----

  /** Some node `n` steps below the root has this digest. */
  ghost predicate HasDigest(t: Tree, n: nat, d: string) {
    exists q :: Valid(t, q) && |q| == n && At(t, q).hash == d
  }

  /** The message of some leaf is what is hashed in the middle of folding the path. */
  ghost predicate LeafIsJoin(H: Hash, t: Tree, d: string, path: seq<Step>) {
    exists c, k :: c in Leaves(t) && 0 <= k < |path| && Message(c) == Joined(Fold(H, d, path[..k]), path[k])
  }

  lemma DigestBelow(t: Tree, right: bool, n: nat, d: string)
    requires t.Node? && HasDigest(if right then t.right else t.left, n, d)
    ensures HasDigest(t, n + 1, d)
  {
    var child := if right then t.right else t.left;
    var q :| Valid(child, q) && |q| == n && At(child, q).hash == d;
    assert ([right] + q)[1..] == q;
    assert Valid(t, [right] + q) && At(t, [right] + q).hash == d;
  }

  lemma JoinBelow(H: Hash, t: Tree, right: bool, d: string, path: seq<Step>, s: Step)
    requires t.Node? && LeafIsJoin(H, if right then t.right else t.left, d, path)
    ensures LeafIsJoin(H, t, d, path + [s])
  {
    var child := if right then t.right else t.left;
    var c, k :| c in Leaves(child) && 0 <= k < |path| && Message(c) == Joined(Fold(H, d, path[..k]), path[k]);
    hide Fold, Message;
    assert (path + [s])[..k] == path[..k] && (path + [s])[k] == path[k];
    assert c in Leaves(t);
  }

  /** Soundness, for paths of any length: a path that folds to the root digest starts from the digest of a node that
      stands as many levels below the root; or it is longer than the tree is deep and runs through the message of a
      leaf; or else two different messages with the same digest are at hand. */
  lemma {:induction false} FoldReaches(H: Hash, t: Tree, depth: nat, d: string, path: seq<Step>)
    returns (clash: Option<(string, string)>)
    requires Sized(H) && Hashed(H, t) && Perfect(t, depth) && |d| == DIGEST_SIZE && Fold(H, d, path) == t.hash
    ensures clash.Some? ==> Collides(H, clash.value.0, clash.value.1)
    ensures clash.None? ==> HasDigest(t, |path|, d) || (|path| > depth && LeafIsJoin(H, t, d, path))
    decreases t
  {
    clash := None;
    if path == [] {
      assert Valid(t, []) && At(t, []).hash == d;
    } else {
      var init, last := path[..|path| - 1], path[|path| - 1];
      assert path == init + [last];
      FoldLast(H, d, init, last);
      var below := Fold(H, d, init);
      FoldSize(H, d, init);
      hide LeafIsJoin, HasDigest, Fold, Message;
      if t.Leaf? {
        if Joined(below, last) != Message(t.c) {
          clash := Some((Joined(below, last), Message(t.c)));
        } else {
          LeafJoins(H, t, d, init, last);
        }
      } else {
        clash := NodeSplits(H, t, below, last);
        if clash.None? {
          var right := last.index != 1;
          var child := if right then t.right else t.left;
          clash := FoldReaches(H, child, depth - 1, d, init);
          if clash.None? && HasDigest(child, |init|, d) {
            DigestBelow(t, right, |init|, d);
          } else if clash.None? {
            JoinBelow(H, t, right, d, init, last);
          }
        }
      }
    }
  }

  lemma LeafJoins(H: Hash, t: Tree, d: string, init: seq<Step>, last: Step)
    requires t.Leaf? && Message(t.c) == Joined(Fold(H, d, init), last)
    ensures LeafIsJoin(H, t, d, init + [last])
  {
    hide Fold, Message;
    var path, k := init + [last], |init|;
    assert path[..k] == init && path[k] == last && t.c in Leaves(t);
  }

  /** What is hashed last is the two digests below the root, or a different message with the same digest. */
  lemma NodeSplits(H: Hash, t: Tree, below: string, last: Step) returns (clash: Option<(string, string)>)
    requires Sized(H) && Hashed(H, t) && t.Node? && |below| == DIGEST_SIZE && H(Joined(below, last)) == t.hash
    ensures clash.Some? ==> Collides(H, clash.value.0, clash.value.1)
    ensures clash.None? ==> below == if last.index == 1 then t.left.hash else t.right.hash
  {
    DigestSizes(H, t.left);
    DigestSizes(H, t.right);
    clash := None;
    if Joined(below, last) != t.left.hash + t.right.hash {
      clash := Some((Joined(below, last), t.left.hash + t.right.hash));
    } else {
      SameSplit(t, below, last);
    }
  }

  /** So a path of the depth of the tree starts from the digest of some leaf. */
  lemma FoldBinds(H: Hash, t: Tree, depth: nat, d: string, path: seq<Step>)
    returns (clash: Option<(string, string)>)
    requires Sized(H) && Hashed(H, t) && Perfect(t, depth)
    requires |path| == depth && |d| == DIGEST_SIZE && Fold(H, d, path) == t.hash
    ensures clash.Some? ==> Collides(H, clash.value.0, clash.value.1)
    ensures clash.None? ==> exists c :: c in Leaves(t) && LeafHash(H, c) == d
  {
    clash := FoldReaches(H, t, depth, d, path);
    if clash.None? {
      var q :| Valid(t, q) && |q| == depth && At(t, q).hash == d;
      AtDepth(H, t, depth, q);
    }
  }

  /** What stands at the end of a position of full length is a leaf. */
  lemma {:induction false} AtDepth(H: Hash, t: Tree, depth: nat, q: seq<bool>)
    requires Hashed(H, t) && Perfect(t, depth) && Valid(t, q) && |q| == depth
    ensures At(t, q).Leaf? && At(t, q).c in Leaves(t) && LeafHash(H, At(t, q).c) == At(t, q).hash
    decreases t
  {
    if q != [] {
      AtDepth(H, if q[0] then t.right else t.left, depth - 1, q[1..]);
    }
  }

  lemma DigestSizes(H: Hash, t: Tree)
    requires Sized(H) && Hashed(H, t)
    ensures |t.hash| == DIGEST_SIZE
  {
  }

  lemma {:induction false} FoldSize(H: Hash, d: string, path: seq<Step>)
    requires Sized(H) && |d| == DIGEST_SIZE
    ensures |Fold(H, d, path)| == DIGEST_SIZE
    decreases path
  {
    if path != [] {
      FoldSize(H, H(Joined(d, path[0])), path[1..]);
    }
  }

  /** Equal concatenations whose digest halves have one size are equal half by half. */
  lemma SameSplit(t: Tree, d: string, s: Step)
    requires t.Node? && |t.left.hash| == |t.right.hash| == |d|
    requires Joined(d, s) == t.left.hash + t.right.hash
    ensures d == if s.index == 1 then t.left.hash else t.right.hash
  {
    var l, r := t.left.hash, t.right.hash;
    var m := l + r;
    assert m[..|l|] == l && m[|l|..] == r;
    if s.index == 1 {
      assert (d + s.sibling)[..|d|] == d;
    } else {
      assert (s.sibling + d)[|s.sibling|..] == d;
    }
  }
}
