/** Presence and absence proofs over an accumulator, and their verification. */
module Provers {
  import opened Names
  import opened LeafChain
  import opened MerkleValue
  import opened MerklePath
  import opened MerkleTrees
  import opened Accumulator

  datatype ProofType = Presence | Absence

  datatype Proof = Proof(path: seq<Step>, content: LeafContent, ptype: ProofType)

  predicate AfterStart(c: LeafContent, name: string) {
    c.start.zoneType == Smallest || (c.start.zoneType == Existing && Less(c.start.zone, name))
  }

  predicate BeforeEnd(c: LeafContent, name: string) {
    c.end.zoneType == Greatest || (c.end.zoneType == Existing && Less(name, c.end.zone))
  }

  /** `name` lies strictly inside the interval. */
  predicate Covers(c: LeafContent, name: string) {
    AfterStart(c, name) && BeforeEnd(c, name)
  }

  // ---- the answers, as functions of the leaf list ----

  /** The first interval that starts at `name`. */
  function StartingAt(ls: seq<LeafContent>, name: string): (r: Option<LeafContent>)
    ensures r.Some? ==> r.value in ls && r.value.start.zone == name
    ensures r.None? ==> forall c :: c in ls ==> c.start.zone != name
  {
    if ls == [] then None else if ls[0].start.zone == name then Some(ls[0]) else StartingAt(ls[1..], name)
  }

  /** The last interval that covers `name`; the zero content if there is none. */
  function LastCovering(ls: seq<LeafContent>, name: string): (r: LeafContent)
    ensures (exists c :: c in ls && Covers(c, name)) ==> r in ls && Covers(r, name)
  {
    if ls == [] then ZeroContent
    else if Covers(ls[|ls|-1], name) then ls[|ls|-1]
    else LastCovering(ls[..|ls|-1], name)
  }

  function PresenceAnswer(t: Tree, ls: seq<LeafContent>, name: string): Option<Proof> {
    match StartingAt(ls, name)
    case None => None
    case Some(c) => Some(Proof(PathOf(t, c), c, Presence))
  }

  function AbsenceAnswer(t: Tree, ls: seq<LeafContent>, name: string): Option<Proof> {
    if StartingAt(ls, name).Some? then None
    else var c := LastCovering(ls, name); Some(Proof(PathOf(t, c), c, Absence))
  }

  /** The contents of the leaf list. */
  ghost function Listed(m: MerkleTree): seq<LeafContent>
    requires m.Root != null && |m.Leafs| <= |Leaves(m.Value())|
    reads m
  {
    Leaves(m.Value())[..|m.Leafs|]
  }

  method GetMPathProofPresence(m: MerkleTree, H: Hash, name: string) returns (proof: Option<Proof>)
    requires m.Valid(H)
    ensures proof == PresenceAnswer(m.Value(), Listed(m), name)
  {
    ghost var ls := Listed(m);
    var i := 0;
    while i < |m.Leafs|
      invariant 0 <= i <= |m.Leafs|
      invariant StartingAt(ls, name) == StartingAt(ls[i..], name)
    {
      InOrderContent(m.Root, i);
      if m.Leafs[i].C.start.zone == name {
        var path := m.GetMerklePath(H, m.Leafs[i].C);
        return Some(Proof(path, m.Leafs[i].C, Presence));
      }
      i := i + 1;
    }
    return None;
  }

  method GetMPathProofAbsence(m: MerkleTree, H: Hash, name: string) returns (proof: Option<Proof>)
    requires m.Valid(H)
    ensures proof == AbsenceAnswer(m.Value(), Listed(m), name)
  {
    ghost var ls := Listed(m);
    var c := ZeroContent;
    var i := 0;
    while i < |m.Leafs|
      invariant 0 <= i <= |m.Leafs|
      invariant StartingAt(ls, name) == StartingAt(ls[i..], name)
      invariant c == LastCovering(ls[..i], name)
    {
      InOrderContent(m.Root, i);
      var sz := m.Leafs[i].C;
      if sz.start.zone == name {
        return None;
      }
      assert ls[..i+1][..i] == ls[..i];
      if AfterStart(sz, name) && BeforeEnd(sz, name) {
        c := sz;
      }
      i := i + 1;
    }
    assert ls[..i] == ls;
    var path := m.GetMerklePath(H, c);
    return Some(Proof(path, c, Absence));
  }

  // ---- which intervals of a content list start at, or cover, a name ----

  lemma {:induction false} ChainStarts(from: LeafZone, zs: seq<LeafZone>, name: string)
    ensures (exists c :: c in Chain(from, zs) && c.start.zone == name) <==> name == from.zone || name in ZoneNames(zs)
    decreases zs
  {
    var ch := Chain(from, zs);
    if zs == [] {
      assert ch[0] in ch;
    } else {
      ChainStarts(zs[0], zs[1..], name);
      assert forall c :: c in ch <==> c == ch[0] || c in Chain(zs[0], zs[1..]);
      assert zs == [zs[0]] + zs[1..];
      assert ZoneNames(zs) == {zs[0].zone} + ZoneNames(zs[1..]);
    }
  }

  /** `from` is a lower end for the zones `zs`. */
  ghost predicate Starts(from: LeafZone, zs: seq<LeafZone>) {
    && Sorted(zs) && AllExisting(zs)
    && (from.zoneType == Smallest
        || (from.zoneType == Existing && forall i :: 0 <= i < |zs| ==> !Less(zs[i].zone, from.zone)))
  }

  lemma StartsNext(from: LeafZone, zs: seq<LeafZone>)
    requires Starts(from, zs) && zs != []
    ensures Starts(zs[0], zs[1..])
  {
  }

  lemma {:induction false} ChainMember(from: LeafZone, zs: seq<LeafZone>, c: LeafContent)
    requires c in Chain(from, zs)
    ensures c.start == from || c.start in zs
    ensures c.end == PosInf || c.end in zs
    decreases zs
  {
    if zs != [] && c != Chain(from, zs)[0] {
      ChainMember(zs[0], zs[1..], c);
    }
  }

  /** The interval between the neighbours of `name`. */
  function Gap(from: LeafZone, zs: seq<LeafZone>, name: string): (c: LeafContent)
    ensures c in Chain(from, zs)
    decreases zs
  {
    if zs == [] then LeafContent(from, PosInf)
    else if Less(name, zs[0].zone) then LeafContent(from, zs[0])
    else Gap(zs[0], zs[1..], name)
  }

  /** In a chain the gap, and nothing else, covers a name that is no boundary. */
  lemma {:induction false} OnlyGapCovers(from: LeafZone, zs: seq<LeafZone>, name: string, c: LeafContent)
    requires Starts(from, zs) && name !in ZoneNames(zs) && c in Chain(from, zs)
    requires from.zoneType == Smallest || Less(from.zone, name)
    ensures Covers(c, name) <==> c == Gap(from, zs, name)
    decreases zs
  {
    if zs != [] {
      var z := zs[0];
      assert z.zone in ZoneNames(zs) by { assert z in zs; }
      if Less(name, z.zone) {
        if c != LeafContent(from, z) {
          ChainMember(z, zs[1..], c);
          assert c.start in zs;
          if Less(c.start.zone, name) {
            LessTransitive(c.start.zone, name, z.zone);
            LessIrreflexive(z.zone);
          }
        }
      } else {
        LessTotal(name, z.zone);
        assert forall x :: x in zs[1..] ==> x in zs;
        StartsNext(from, zs);
        OnlyGapCovers(z, zs[1..], name, Gap(z, zs[1..], name));
        if c in Chain(z, zs[1..]) {
          OnlyGapCovers(z, zs[1..], name, c);
        }
      }
    }
  }

  /** No interval of a chain covers one of its boundaries. */
  lemma {:induction false} ChainCoversNoZone(from: LeafZone, zs: seq<LeafZone>, z: LeafZone, c: LeafContent)
    requires Starts(from, zs) && z in zs && c in Chain(from, zs)
    ensures !Covers(c, z.zone)
    decreases zs
  {
    var first := zs[0];
    if c == LeafContent(from, first) {
      LessIrreflexive(first.zone);
    } else {
      StartsNext(from, zs);
      if z in zs[1..] {
        ChainCoversNoZone(first, zs[1..], z, c);
      } else {
        ChainMember(first, zs[1..], c);
        assert c.start in zs;
        LessIrreflexive(first.zone);
      }
    }
  }

  // ---- what the provers answer for the tree of a content list ----

  /** The leaf list holds the content list and behind it only repetitions of later contents. */
  ghost predicate Repeats(ls: seq<LeafContent>, cs: seq<LeafContent>) {
    && cs != [] && cs <= ls
    && (forall c :: c in ls <==> c in cs)
    && (|cs| >= 2 ==> forall i :: |cs| <= i < |ls| ==> ls[i] in cs[1..])
  }

  lemma LeavesRepeat(H: Hash, cs: seq<LeafContent>)
    requires cs != []
    ensures Repeats(Leaves(TreeOf(H, cs)), cs)
  {
    TreeOfShape(H, cs);
    if |cs| >= 2 {
      forall i | |cs| <= i < |Leaves(TreeOf(H, cs))| ensures Leaves(TreeOf(H, cs))[i] in cs[1..] {
        TreeOfTail(H, cs, i);
      }
    }
  }

  /** True of the leaf list of a tree just built, which has at most one copied leaf more than contents, and of a
      restored one, which has all leaves. */
  lemma ListRepeats(H: Hash, cs: seq<LeafContent>, n: nat)
    requires cs != [] && |cs| <= n <= |Leaves(TreeOf(H, cs))|
    ensures Repeats(Leaves(TreeOf(H, cs))[..n], cs)
  {
    LeavesRepeat(H, cs);
    var ls := Leaves(TreeOf(H, cs));
    hide Leaves, TreeOf;
    forall c | c in cs ensures c in ls[..n] {
      var i :| 0 <= i < |cs| && cs[i] == c;
      assert ls[..n][i] == c;
    }
  }

  ghost predicate Delegated(zs: seq<LeafZone>) {
    Sorted(zs) && AllExisting(zs)
  }

  /** The interval that belongs into an absence proof: the total one while nothing is delegated, and
      otherwise the gap between the neighbours. */
  function GapIn(zs: seq<LeafZone>, name: string): LeafContent {
    Gap(NegInf, zs, name)
  }

  lemma LeafListMember(lead: bool, zs: seq<LeafZone>, c: LeafContent)
    requires LeafList(lead, zs) != []
    ensures c in LeafList(lead, zs) <==> c in Chain(NegInf, zs) || (lead && c == Total)
  {
    assert zs == [] ==> Chain(NegInf, zs) == [Total];
  }

  /** Presence is proved exactly for the delegated names and for the empty name, which is the name stored
      with minus infinity. */
  lemma PresenceIffDelegated(lead: bool, zs: seq<LeafZone>, ls: seq<LeafContent>, name: string)
    requires LeafList(lead, zs) != [] && Repeats(ls, LeafList(lead, zs))
    ensures StartingAt(ls, name).Some? <==> name == "" || name in ZoneNames(zs)
  {
    ChainStarts(NegInf, zs, name);
    if StartingAt(ls, name).Some? {
      LeafListMember(lead, zs, StartingAt(ls, name).value);
    } else if c :| c in Chain(NegInf, zs) && c.start.zone == name {
      LeafListMember(lead, zs, c);
    }
  }

  /** The absence prover settles on the gap, also when the total interval, which covers every name, or
      repeated leaves are in the list. */
  lemma LastCoveringIsGap(lead: bool, zs: seq<LeafZone>, ls: seq<LeafContent>, name: string)
    requires Delegated(zs) && LeafList(lead, zs) != [] && Repeats(ls, LeafList(lead, zs))
    requires name !in ZoneNames(zs)
    ensures LastCovering(ls, name) == GapIn(zs, name)
  {
    var cs, g := LeafList(lead, zs), GapIn(zs, name);
    LeafListMember(lead, zs, g);
    OnlyGapCovers(NegInf, zs, name, g);
    assert g in ls;
    var c := LastCovering(ls, name);
    LeafListMember(lead, zs, c);
    if c in Chain(NegInf, zs) {
      OnlyGapCovers(NegInf, zs, name, c);
    } else {
      TotalOnlyFirst(zs, ls);
      LaterCovering(ls, name, g);
    }
  }

  /** Where zones are delegated, the total interval stands at the front and nowhere else. */
  lemma TotalOnlyFirst(zs: seq<LeafZone>, ls: seq<LeafContent>)
    requires AllExisting(zs) && zs != [] && Repeats(ls, LeafList(true, zs))
    ensures ls[0] == Total && Total !in ls[1..]
  {
    var cs := LeafList(true, zs);
    assert cs[1..] == Chain(NegInf, zs);
    if Total in Chain(NegInf, zs) {
      NoTotalInChain(NegInf, zs);
    }
    forall i | 1 <= i < |ls| ensures ls[i] != Total {
      if i < |cs| {
        assert ls[i] == cs[i] == cs[1..][i-1];
      }
    }
  }

  lemma {:induction false} NoTotalInChain(from: LeafZone, zs: seq<LeafZone>)
    requires AllExisting(zs) && (zs == [] ==> from.zoneType == Existing)
    ensures Total !in Chain(from, zs)
    decreases zs
  {
    if zs != [] {
      NoTotalInChain(zs[0], zs[1..]);
    }
  }

  lemma {:induction false} LaterCovering(ls: seq<LeafContent>, name: string, g: LeafContent)
    requires ls != [] && g in ls[1..] && Covers(g, name)
    ensures LastCovering(ls, name) in ls[1..]
  {
    var last := |ls| - 1;
    if !Covers(ls[last], name) {
      assert ls[..last][1..] == ls[1..last];
      LaterCovering(ls[..last], name, g);
      assert forall x :: x in ls[1..last] ==> x in ls[1..];
    }
  }

  /** Exactly one of the two provers succeeds. Presence succeeds iff the name is delegated (or empty) and proves an
      interval starting there; absence carries the one interval of the chain that covers the name, and that
      interval covers no delegated name. Either proof folds to the root digest. */
  ghost predicate ExactAnswers(H: Hash, zs: seq<LeafZone>, t: Tree, ls: seq<LeafContent>, name: string) {
    var presence, absence := PresenceAnswer(t, ls, name), AbsenceAnswer(t, ls, name);
    && (presence.Some? <==> name == "" || name in ZoneNames(zs))
    && (presence.Some? <==> absence.None?)
    && (presence.Some? ==>
          var p := presence.value;
          p.content.start.zone == name && Fold(H, LeafHash(H, p.content), p.path) == t.hash)
    && (absence.Some? ==>
          var p := absence.value;
          && Covers(p.content, name) && p.content in Chain(NegInf, zs)
          && (forall c :: c in Chain(NegInf, zs) && Covers(c, name) ==> c == p.content)
          && (forall z :: z in zs ==> !Covers(p.content, z.zone))
          && Fold(H, LeafHash(H, p.content), p.path) == t.hash)
  }

  /** For the tree of any content list, a leaf list that repeats it, and every name. */
  lemma ProversAreExact(H: Hash, lead: bool, zs: seq<LeafZone>, t: Tree, ls: seq<LeafContent>, name: string)
    requires Delegated(zs) && LeafList(lead, zs) != [] && Repeats(ls, LeafList(lead, zs))
    requires Hashed(H, t) && forall c :: c in Leaves(t) <==> c in LeafList(lead, zs)
    ensures ExactAnswers(H, zs, t, ls, name)
  {
    PresenceIffDelegated(lead, zs, ls, name);
    if PresenceAnswer(t, ls, name).Some? {
      PathFoldsToRoot(H, t, StartingAt(ls, name).value);
    } else {
      LastCoveringIsGap(lead, zs, ls, name);
      var g := GapIn(zs, name);
      LeafListMember(lead, zs, g);
      PathFoldsToRoot(H, t, g);
      forall c | c in Chain(NegInf, zs) ensures Covers(c, name) <==> c == g {
        OnlyGapCovers(NegInf, zs, name, c);
      }
      OnlyGapCovers(NegInf, zs, name, g);
      forall z | z in zs ensures !Covers(g, z.zone) {
        ChainCoversNoZone(NegInf, zs, z, g);
      }
    }
  }

  /** So the two prover methods on an accumulator object, just built, just restored or read back, are exact. */
  lemma ObjectProvesExactly(m: MerkleTree, H: Hash, lead: bool, zs: seq<LeafZone>, name: string)
    requires m.Valid(H) && Delegated(zs) && LeafList(lead, zs) != []
    requires m.Value() == TreeOf(H, LeafList(lead, zs)) && |LeafList(lead, zs)| <= |m.Leafs|
    ensures |m.Leafs| <= |Leaves(m.Value())| && ExactAnswers(H, zs, m.Value(), Listed(m), name)
  {
    var cs := LeafList(lead, zs);
    TreeOfShape(H, cs);
    ListRepeats(H, cs, |m.Leafs|);
    hide *;
    ProversAreExact(H, lead, zs, m.Value(), Leaves(m.Value())[..|m.Leafs|], name);
  }

  /** No leaf covers a delegated zone -- what makes a covering leaf evidence of absence -- exactly when the
      list has no leading total interval or nothing is delegated yet. */
  lemma CoveringMeansAbsent(lead: bool, zs: seq<LeafZone>)
    requires Delegated(zs)
    ensures (forall c, z :: c in LeafList(lead, zs) && z in zs ==> !Covers(c, z.zone)) <==> !lead || zs == []
  {
    var cs := LeafList(lead, zs);
    if lead && zs != [] {
      assert cs[0] in cs && Covers(cs[0], zs[0].zone) && zs[0] in zs;
    } else {
      forall c, z | c in cs && z in zs ensures !Covers(c, z.zone) {
        ChainCoversNoZone(NegInf, zs, z, c);
      }
    }
  }

  // ---- verification ----

  predicate InRange(p: Proof, name: string) {
    match p.ptype
    case Presence => p.content.start.zone == name
    case Absence => Covers(p.content, name)
  }

  /** The digest loop as it is written: the hasher is created once, so each round hashes everything fed to
      it so far. */
  function RunningFold(H: Hash, fed: string, d: string, path: seq<Step>): string
    decreases path
  {
    if path == [] then d
    else var fed' := fed + Joined(d, path[0]); RunningFold(H, fed', H(fed'), path[1..])
  }

  method VerifyMPathProof(H: Hash, p: Proof, roothash: string, name: string) returns (ok: bool)
    ensures ok <==> InRange(p, name) && RunningFold(H, "", LeafHash(H, p.content), p.path) == roothash
  {
    if p.ptype == Presence {
      if p.content.start.zone != name {
        return false;
      }
    } else {
      if !(AfterStart(p.content, name) && BeforeEnd(p.content, name)) {
        return false;
      }
    }
    var hash := LeafHash(H, p.content);
    var fed := "";
    var k := 0;
    while k < |p.path|
      invariant 0 <= k <= |p.path|
      invariant RunningFold(H, fed, hash, p.path[k..]) == RunningFold(H, "", LeafHash(H, p.content), p.path)
    {
      if p.path[k].index == 1 {
        hash := hash + p.path[k].sibling;
      } else {
        hash := p.path[k].sibling + hash;
      }
      fed := fed + hash;
      hash := H(fed);
      k := k + 1;
    }
    ok := roothash == hash;
  }

  ghost predicate SizedPath(path: seq<Step>) {
    forall i :: 0 <= i < |path| ==> |path[i].sibling| == DIGEST_SIZE
  }

  /** Everything fed to the hasher. */
  function Fed(H: Hash, fed: string, d: string, path: seq<Step>): string
    decreases path
  {
    if path == [] then fed
    else var fed' := fed + Joined(d, path[0]); Fed(H, fed', H(fed'), path[1..])
  }

  lemma {:induction false} RunningFoldIsHash(H: Hash, fed: string, d: string, path: seq<Step>)
    requires Sized(H) && SizedPath(path) && |d| == DIGEST_SIZE && path != []
    ensures RunningFold(H, fed, d, path) == H(Fed(H, fed, d, path))
    ensures |Fed(H, fed, d, path)| == |fed| + 2 * DIGEST_SIZE * |path|
    decreases path
  {
    var fed' := fed + Joined(d, path[0]);
    if |path| > 1 {
      RunningFoldIsHash(H, fed', H(fed'), path[1..]);
    } else {
      assert path[1..] == [];
    }
  }

  /** The same for siblings of any length: the first join stands in front, and each level adds a digest at least. */
  lemma {:induction false} FedGrows(H: Hash, fed: string, d: string, path: seq<Step>)
    requires Sized(H) && |d| == DIGEST_SIZE && path != []
    ensures RunningFold(H, fed, d, path) == H(Fed(H, fed, d, path))
    ensures fed + Joined(d, path[0]) <= Fed(H, fed, d, path)
    ensures |Fed(H, fed, d, path)| >= |fed + Joined(d, path[0])| + DIGEST_SIZE * (|path| - 1)
    ensures |path| == 1 ==> Fed(H, fed, d, path) == fed + Joined(d, path[0])
    decreases path
  {
    var fed' := fed + Joined(d, path[0]);
    if |path| > 1 {
      FedGrows(H, fed', H(fed'), path[1..]);
    } else {
      assert path[1..] == [];
    }
  }

  /** Binding, for the digest loop as it is written and paths of any length: an accepted digest is that of the root or
      of one of its two children, or two different messages with the same digest are at hand. */
  lemma RunningFoldBinds(H: Hash, t: Tree, d: string, path: seq<Step>) returns (clash: Option<(string, string)>)
    requires Sized(H) && Hashed(H, t) && t.Node? && |d| == DIGEST_SIZE && RunningFold(H, "", d, path) == t.hash
    ensures clash.Some? ==> Collides(H, clash.value.0, clash.value.1)
    ensures clash.None? ==> d == if path == [] then t.hash
                                 else if |path| == 1 && path[0].index != 1 then t.right.hash else t.left.hash
  {
    clash := None;
    if path != [] {
      FedGrows(H, "", d, path);
      var top, fed, first := t.left.hash + t.right.hash, Fed(H, "", d, path), Joined(d, path[0]);
      assert "" + first == first;
      DigestSizes(H, t.left);
      DigestSizes(H, t.right);
      hide Fed, RunningFold;
      if fed != top {
        clash := Some((fed, top));
      } else if |path| == 1 {
        SameSplit(t, d, path[0]);
      } else {
        assert first <= top && |first| <= DIGEST_SIZE;
        assert first == d && top[..DIGEST_SIZE] == t.left.hash;
      }
    }
  }

  lemma {:induction false} PathAtSized(H: Hash, t: Tree, p: seq<bool>)
    requires Sized(H) && Hashed(H, t) && MerklePath.Valid(t, p)
    ensures SizedPath(PathAt(t, p))
    decreases t
  {
    if p != [] {
      PathAtSized(H, if p[0] then t.right else t.left, p[1..]);
    }
  }

  /** An honest proof is accepted when its path has one step, that is, for trees over at most two intervals.
      If a longer honest proof is accepted, two different messages with one digest are at hand. */
  lemma HonestProofAccepted(H: Hash, t: Tree, d: nat, p: Proof, name: string)
    returns (clash: Option<(string, string)>)
    requires Sized(H) && Hashed(H, t) && Perfect(t, d) && d >= 1
    requires p.content in Leaves(t) && p.path == PathOf(t, p.content) && InRange(p, name)
    ensures d == 1 ==> RunningFold(H, "", LeafHash(H, p.content), p.path) == t.hash
    ensures d >= 2 && RunningFold(H, "", LeafHash(H, p.content), p.path) == t.hash
            ==> clash.Some? && Collides(H, clash.value.0, clash.value.1)
  {
    clash := None;
    PathLength(t, d, p.content);
    PathFoldsToRoot(H, t, p.content);
    var leaf := LeafHash(H, p.content);
    if d == 1 {
      assert p.path[1..] == [];
      assert "" + Joined(leaf, p.path[0]) == Joined(leaf, p.path[0]);
    } else {
      PathAtSized(H, t, Position(t, FirstWith(Leaves(t), p.content)));
      RunningFoldIsHash(H, "", leaf, p.path);
      var top := t.left.hash + t.right.hash;
      DigestSizes(H, t.left);
      DigestSizes(H, t.right);
      assert |Fed(H, "", leaf, p.path)| == 2 * DIGEST_SIZE * d != |top|;
      clash := Some((Fed(H, "", leaf, p.path), top));
    }
  }

  /** A hash of the right size that tells one-level messages from longer ones. */
  function LengthHash(m: string): (d: string)
    ensures |d| == DIGEST_SIZE
  {
    if |m| <= 2 * DIGEST_SIZE then "aaaaaaaaaaaaaaaaaaaaaaaaaaaaaaaa" else "bbbbbbbbbbbbbbbbbbbbbbbbbbbbbbbb"
  }

  lemma LengthsTellApart(m: string, m': string)
    requires |m| > 2 * DIGEST_SIZE >= |m'|
    ensures LengthHash(m) != LengthHash(m')
  {
    assert LengthHash(m)[0] == 'b' && LengthHash(m')[0] == 'a';
  }

  lemma DeepProofRejected(t: Tree, d: nat, c: LeafContent)
    requires Hashed(LengthHash, t) && Perfect(t, d) && d >= 2 && c in Leaves(t)
    ensures RunningFold(LengthHash, "", LeafHash(LengthHash, c), PathOf(t, c)) != t.hash
  {
    var leaf := LeafHash(LengthHash, c);
    PathLength(t, d, c);
    PathAtSized(LengthHash, t, Position(t, FirstWith(Leaves(t), c)));
    RunningFoldIsHash(LengthHash, "", leaf, PathOf(t, c));
    DigestSizes(LengthHash, t.left);
    DigestSizes(LengthHash, t.right);
    hide LengthHash, LeafHash, Leaves, PathOf, RunningFold;
    LengthsTellApart(Fed(LengthHash, "", leaf, PathOf(t, c)), t.left.hash + t.right.hash);
  }

  /** With that hash every honest proof over three or more intervals is rejected, although each of them
      folds to the root when one hash is taken for each level. */
  lemma HonestProofRejected(cs: seq<LeafContent>, c: LeafContent)
    requires |cs| >= 3 && c in cs
    ensures var t := TreeOf(LengthHash, cs); var leaf := LeafHash(LengthHash, c);
      && RunningFold(LengthHash, "", leaf, PathOf(t, c)) != t.hash
      && Fold(LengthHash, leaf, PathOf(t, c)) == t.hash
  {
    var t := TreeOf(LengthHash, cs);
    TreeOfShape(LengthHash, cs);
    var d := Height(|cs| + |cs| % 2);
    assert d >= 2;
    hide LengthHash;
    PathFoldsToRoot(LengthHash, t, c);
    DeepProofRejected(t, d, c);
  }
}
