/** What an accepted proof, honest or not, says about a name.
 */
module ProofMeaning {
  import opened Names
  import opened LeafChain
  import opened MerkleValue
  import opened MerklePath
  import opened Provers
  import opened LeafMessages

  /** What the proof claims is so. A leading interval from end to end covers delegated names too. */
  ghost predicate Right(lead: bool, zs: seq<LeafZone>, p: Proof, name: string) {
    match p.ptype
    case Presence => name == "" || name in ZoneNames(zs)
    case Absence => name !in ZoneNames(zs) || (lead && zs != [] && p.content == Total)
  }

  lemma LeafIsRight(lead: bool, zs: seq<LeafZone>, p: Proof, name: string)
    requires Delegated(zs) && p.content in LeafList(lead, zs) && InRange(p, name)
    ensures Right(lead, zs, p, name)
  {
    var c := p.content;
    if c in Chain(NegInf, zs) {
      if p.ptype == Presence {
        ChainMember(NegInf, zs, c);
      } else if name in ZoneNames(zs) {
        var z :| z in zs && z.zone == name;
        ChainCoversNoZone(NegInf, zs, z, c);
      }
    }
  }

  /** A leaf with the same message, unlike the one in the proof. */
  ghost predicate Mistaken(lead: bool, zs: seq<LeafZone>, p: Proof) {
    exists c :: c in LeafList(lead, zs) && c != p.content && Message(c) == Message(p.content)
  }

  /** The leaf in the proof has the message of an inner node, its two digests. */
  ghost predicate IsInner(t: Tree, c: LeafContent) {
    exists q :: MerklePath.Valid(t, q) && At(t, q).Node? && Message(c) == At(t, q).left.hash + At(t, q).right.hash
  }

  lemma {:induction false} HashedAt(H: Hash, t: Tree, q: seq<bool>)
    requires Hashed(H, t) && MerklePath.Valid(t, q)
    ensures Hashed(H, At(t, q)) && (At(t, q).Leaf? ==> At(t, q).c in Leaves(t))
    decreases t
  {
    if q != [] { HashedAt(H, if q[0] then t.right else t.left, q[1..]); }
  }

  /** A leaf with the digest of some node is that leaf, another one with its message, or has the message of the node. */
  lemma DigestMeans(H: Hash, lead: bool, zs: seq<LeafZone>, t: Tree, p: Proof, name: string, n: nat)
    returns (clash: Option<(string, string)>)
    requires Delegated(zs) && InRange(p, name) && Hashed(H, t) && HasDigest(t, n, LeafHash(H, p.content))
    requires forall c :: c in Leaves(t) ==> c in LeafList(lead, zs)
    ensures clash.Some? ==> Collides(H, clash.value.0, clash.value.1)
    ensures clash.None? ==> Right(lead, zs, p, name) || Mistaken(lead, zs, p) || IsInner(t, p.content)
    ensures clash.None? && Perfect(t, n) ==> Right(lead, zs, p, name) || Mistaken(lead, zs, p)
  {
    var q :| MerklePath.Valid(t, q) && |q| == n && At(t, q).hash == LeafHash(H, p.content);
    var node := At(t, q);
    HashedAt(H, t, q);
    if Perfect(t, n) { AtDepth(H, t, n, q); }
    hide LeafList, Leaves, Perfect, Right, Message;
    clash := None;
    var message := if node.Leaf? then Message(node.c) else node.left.hash + node.right.hash;
    if message != Message(p.content) {
      clash := Some((message, Message(p.content)));
    } else if node.Leaf? && node.c == p.content {
      LeafIsRight(lead, zs, p, name);
    }
  }

  lemma AccumulatorShape(H: Hash, cs: seq<LeafContent>) returns (depth: nat)
    requires cs != []
    ensures depth == Height(|cs| + |cs| % 2) && depth >= 1
    ensures var t := TreeOf(H, cs);
      Hashed(H, t) && Perfect(t, depth) && t.Node? && forall c :: c in Leaves(t) ==> c in cs
  {
    TreeOfShape(H, cs);
    LeavesRepeat(H, cs);
    depth := Height(|cs| + |cs| % 2);
  }

  /** A proof that folds to the root digest of an accumulator with one hash a level is right about the name; or two
      messages with the same digest are at hand; or the accumulator has another leaf with the same message; or, with a
      path that is shorter or longer than the tree is deep, a leaf's message is what an inner node hashes. */
  lemma AcceptedIsRight(H: Hash, lead: bool, zs: seq<LeafZone>, p: Proof, name: string)
    returns (clash: Option<(string, string)>)
    requires Sized(H) && Delegated(zs) && LeafList(lead, zs) != [] && InRange(p, name)
    requires Fold(H, LeafHash(H, p.content), p.path) == TreeOf(H, LeafList(lead, zs)).hash
    ensures clash.Some? ==> Collides(H, clash.value.0, clash.value.1)
    ensures var t := TreeOf(H, LeafList(lead, zs));
      clash.None? ==>
        || Right(lead, zs, p, name) || Mistaken(lead, zs, p)
        || (!Perfect(t, |p.path|) && (IsInner(t, p.content) || LeafIsJoin(H, t, LeafHash(H, p.content), p.path)))
  {
    var cs := LeafList(lead, zs);
    var t, leaf := TreeOf(H, cs), LeafHash(H, p.content);
    var depth := AccumulatorShape(H, cs);
    hide TreeOf, LeafList, Leaves, Fold, Right, Mistaken, IsInner, LeafIsJoin, HasDigest, Height;
    clash := FoldReaches(H, t, depth, leaf, p.path);
    if clash.None? && HasDigest(t, |p.path|, leaf) {
      clash := DigestMeans(H, lead, zs, t, p, name, |p.path|);
    } else if clash.None? && Perfect(t, |p.path|) {
      OneDepth(t, depth, |p.path|);
      assert false;
    }
  }

  lemma {:induction false} OneDepth(t: Tree, d: nat, e: nat)
    requires Perfect(t, d) && Perfect(t, e)
    ensures d == e
  {
    if t.Node? { OneDepth(t.left, d - 1, e - 1); }
  }

  /** The same for the verifier as it is written, which never resets its hasher. Over three or more intervals it accepts
      no proof at all, unless two messages with the same digest are at hand or the leaf in the proof has the message of
      an inner node. */
  lemma VerifiedIsRight(H: Hash, lead: bool, zs: seq<LeafZone>, p: Proof, name: string)
    returns (clash: Option<(string, string)>)
    requires Sized(H) && Delegated(zs) && LeafList(lead, zs) != [] && InRange(p, name)
    requires RunningFold(H, "", LeafHash(H, p.content), p.path) == TreeOf(H, LeafList(lead, zs)).hash
    ensures clash.Some? ==> Collides(H, clash.value.0, clash.value.1)
    ensures var t := TreeOf(H, LeafList(lead, zs));
      clash.None? ==>
        || IsInner(t, p.content)
        || (|LeafList(lead, zs)| <= 2 && (Right(lead, zs, p, name) || Mistaken(lead, zs, p)))
  {
    var cs := LeafList(lead, zs);
    var t, leaf := TreeOf(H, cs), LeafHash(H, p.content);
    var depth := AccumulatorShape(H, cs);
    FlatIsShort(|cs|);
    hide TreeOf, LeafList, RunningFold, Leaves, Right, Mistaken, Height;
    clash := RunningFoldBinds(H, t, leaf, p.path);
    if clash.None? {
      var right := |p.path| == 1 && p.path[0].index != 1;
      var q := if p.path == [] then [] else [right];
      OneStep(t, right);
      assert MerklePath.Valid(t, q) && At(t, q).hash == leaf;
      if At(t, q).Leaf? {
        assert |q| == 1 && depth == 1;
        clash := DigestMeans(H, lead, zs, t, p, name, 1);
      } else {
        clash := InnerMeans(H, t, p.content, q);
      }
    }
  }

  lemma OneStep(t: Tree, right: bool)
    requires t.Node?
    ensures MerklePath.Valid(t, [right]) && At(t, [right]) == if right then t.right else t.left
    ensures MerklePath.Valid(t, []) && At(t, []) == t
  {
    assert [right][1..] == [];
  }

  /** All leaves right below the root: at most two intervals. */
  lemma FlatIsShort(n: nat)
    requires n > 0
    ensures Height(n + n % 2) == 1 ==> n <= 2
  {
    var m := n + n % 2;
    if m > 2 { assert Height((m + 1) / 2) >= 1; }
  }

  lemma InnerMeans(H: Hash, t: Tree, c: LeafContent, q: seq<bool>) returns (clash: Option<(string, string)>)
    requires Hashed(H, t) && MerklePath.Valid(t, q) && At(t, q).Node? && At(t, q).hash == LeafHash(H, c)
    ensures clash.Some? ==> Collides(H, clash.value.0, clash.value.1)
    ensures clash.None? ==> IsInner(t, c)
  {
    HashedAt(H, t, q);
    var message := At(t, q).left.hash + At(t, q).right.hash;
    clash := if message != Message(c) then Some((message, Message(c))) else None;
  }

  // ---- which names rule the other cases out ----

  /** The names in an accumulator and in a proof. */
  ghost function NamesIn(zs: seq<LeafZone>, p: Proof): iset<string> {
    iset n | n == "" || n in ZoneNames(zs) || n == p.content.start.zone || n == p.content.end.zone
  }

  ghost predicate LevelsWithin(zs: seq<LeafZone>, p: Proof, bits: nat) {
    && p.content.start.alv < Pow2(bits) && p.content.end.alv < Pow2(bits)
    && forall i :: 0 <= i < |zs| ==> zs[i].alv < Pow2(bits)
  }

  lemma LeafNamed(lead: bool, zs: seq<LeafZone>, p: Proof, bits: nat, c: LeafContent)
    requires bits > 0 && LevelsWithin(zs, p, bits) && (c in LeafList(lead, zs) || c == p.content)
    ensures EndsNamed(c, NamesIn(zs, p), bits)
  {
    TwoFit(bits);
    hide Pow2;
    if c in Chain(NegInf, zs) {
      ChainMember(NegInf, zs, c);
      assert c.start in zs ==> c.start.zone in ZoneNames(zs);
      assert c.end in zs ==> c.end.zone in ZoneNames(zs);
    }
  }

  /** No leaf is mistaken for another where no delegated name, and none in the proof, is another one of them followed by
      a numeral shorter than the levels can be: seven digits in the code. */
  lemma SeparateIsNotMistaken(lead: bool, zs: seq<LeafZone>, p: Proof, bits: nat)
    requires AllPrintable(NamesIn(zs, p)) && Separate(NamesIn(zs, p), bits) && bits > 0 && LevelsWithin(zs, p, bits)
    ensures !Mistaken(lead, zs, p)
  {
    hide Message, Separate, AllPrintable, LevelsWithin, LeafList, NamesIn, EndsNamed;
    forall c | c in LeafList(lead, zs) && Message(c) == Message(p.content) ensures c == p.content {
      LeafNamed(lead, zs, p, bits, c);
      LeafNamed(lead, zs, p, bits, p.content);
      MessageIsUnique(NamesIn(zs, p), bits, c, p.content);
    }
  }

  /** So none is where no name ends in a binary digit, whatever the levels. */
  lemma PlainIsNotMistaken(lead: bool, zs: seq<LeafZone>, p: Proof)
    requires Plain(p.content.start.zone) && Plain(p.content.end.zone) && forall i :: 0 <= i < |zs| ==> Plain(zs[i].zone)
    ensures !Mistaken(lead, zs, p)
  {
    assert Plain("") by { EmptyIsPlain(); }
    hide Plain;
    var all := zs + [p.content.start, p.content.end];
    var bits := EnoughBits(all);
    assert all[|zs|] == p.content.start && all[|zs| + 1] == p.content.end;
    assert forall i :: 0 <= i < |zs| ==> all[i] == zs[i];
    PlainIsSeparate(NamesIn(zs, p), bits);
    hide Separate, AllPrintable;
    SeparateIsNotMistaken(lead, zs, p, bits);
  }

  lemma EmptyIsPlain()
    ensures Plain("")
  {
  }

  lemma {:induction false} EnoughBits(zs: seq<LeafZone>) returns (bits: nat)
    ensures bits > 0 && forall i :: 0 <= i < |zs| ==> zs[i].alv < Pow2(bits)
  {
    if zs == [] {
      bits := 1;
    } else {
      var n := |zs| - 1;
      bits := EnoughBits(zs[..n]);
      var more := zs[n].alv;
      Pow2Grows(bits, more);
      bits := bits + more;
    }
  }

  lemma {:induction false} Pow2Grows(bits: nat, more: nat)
    ensures 0 < Pow2(bits) && Pow2(bits) + more <= Pow2(bits + more)
  {
    if bits > 0 { Pow2Grows(bits - 1, 0); }
    if more > 0 { Pow2Grows(bits, more - 1); }
  }

  /** Nor is a leaf taken for an inner node where messages are short: an inner node hashes two digests, and folding
      hashes one at least. */
  lemma ShortIsNotInner(H: Hash, t: Tree, p: Proof)
    requires Sized(H) && Hashed(H, t) && |Message(p.content)| < 2 * DIGEST_SIZE
    requires forall c :: c in Leaves(t) ==> |Message(c)| < DIGEST_SIZE
    ensures !IsInner(t, p.content) && !LeafIsJoin(H, t, LeafHash(H, p.content), p.path)
  {
    forall q | MerklePath.Valid(t, q) && At(t, q).Node?
      ensures Message(p.content) != At(t, q).left.hash + At(t, q).right.hash
    {
      HashedAt(H, t, q);
      DigestSizes(H, At(t, q).left);
      DigestSizes(H, At(t, q).right);
    }
    hide Message;
    forall c, k | c in Leaves(t) && 0 <= k < |p.path|
      ensures Message(c) != Joined(Fold(H, LeafHash(H, p.content), p.path[..k]), p.path[k])
    {
      FoldSize(H, LeafHash(H, p.content), p.path[..k]);
    }
  }
}
