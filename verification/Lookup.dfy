/** Looking a name up among cached shards: interval intersection, and what the answer says about the zone.
 */
module Lookup {
  import opened Names
  import opened Shards

  /** Go's `Intersect` of the intervals (a0, a1) and (b0, b1), case by case. */
  predicate Intersect(a0: string, a1: string, b0: string, b1: string) {
    if a0 == a1 && b0 == b1 && a0 != "" && b0 != "" then a0 == b0
    else if a0 == "" then b0 == "" || a1 == "" || Less(b0, a1)
    else if a1 == "" then b1 == "" || Less(a0, b1)
    else if b0 == "" then b1 == "" || Less(a0, b1)
    else if b1 == "" then Less(b0, a1)
    else Less(a0, b1) && Less(b0, a1)
  }

  lemma IntersectIsSymmetric(a0: string, a1: string, b0: string, b1: string)
    ensures Intersect(a0, a1, b0, b1) <==> Intersect(b0, b1, a0, a1)
  {
  }

  /** On a point the test is membership in the open range, but for a range whose two ends are the same name. */
  lemma IntersectPoint(from: string, to: string, name: string)
    requires name != ""
    ensures Intersect(from, to, name, name) <==> InOpen(from, to, name) || (from == to == name)
    ensures Intersect(name, name, from, to) <==> InOpen(from, to, name) || (from == to == name)
  {
    LessIrreflexive(from);
    IntersectIsSymmetric(from, to, name, name);
    if from == to && from != "" && InOpen(from, to, name) { LessAsymmetric(from, name); }
  }

  // ---- the cached sections of a zone and context ----

  /** Sections are kept by hash; a section whose hash is taken is not stored. */
  function Store(sections: map<string, Shard>, hash: Shard -> string, s: Shard): map<string, Shard> {
    if hash(s) in sections then sections else sections[hash(s) := s]
  }

  function StoreAll(hash: Shard -> string, shards: seq<Shard>): map<string, Shard> {
    if shards == [] then map[] else Store(StoreAll(hash, shards[..|shards| - 1]), hash, shards[|shards| - 1])
  }

  ghost predicate Collide(hash: Shard -> string, shards: seq<Shard>) {
    exists i, j :: 0 <= i < |shards| && 0 <= j < |shards| && shards[i] != shards[j] &&
      hash(shards[i]) == hash(shards[j])
  }

  lemma {:induction false} StoredIsPublished(hash: Shard -> string, shards: seq<Shard>)
    ensures forall h :: h in StoreAll(hash, shards) ==>
      StoreAll(hash, shards)[h] in shards && hash(StoreAll(hash, shards)[h]) == h
  {
    if shards != [] {
      StoredIsPublished(hash, shards[..|shards| - 1]);
    }
  }

  lemma NoCollisionBefore(hash: Shard -> string, shards: seq<Shard>, n: nat)
    requires !Collide(hash, shards) && n <= |shards|
    ensures !Collide(hash, shards[..n])
  {
    var init := shards[..n];
    forall i, j | 0 <= i < |init| && 0 <= j < |init| && init[i] != init[j] ensures hash(init[i]) != hash(init[j]) {
      assert init[i] == shards[i] && init[j] == shards[j];
    }
  }

  lemma {:induction false} PublishedIsStored(hash: Shard -> string, shards: seq<Shard>, k: nat)
    requires !Collide(hash, shards) && k < |shards|
    ensures hash(shards[k]) in StoreAll(hash, shards) && StoreAll(hash, shards)[hash(shards[k])] == shards[k]
  {
    var init := shards[..|shards| - 1];
    NoCollisionBefore(hash, shards, |shards| - 1);
    if k < |init| {
      PublishedIsStored(hash, init, k);
    } else if hash(shards[k]) in StoreAll(hash, init) {
      StoredIsPublished(hash, init);
      var j :| 0 <= j < |init| && init[j] == StoreAll(hash, init)[hash(shards[k])];
      assert shards[j] == init[j];
    }
  }

  predicate Hit(s: Shard, name: string) {
    Intersect(s.from, s.to, name, name)
  }

  function Hits(sections: map<string, Shard>, name: string): set<string> {
    set h | h in sections && Hit(sections[h], name)
  }

  /** `Get`: the cached sections that intersect the name, in whatever order the map yields them. */
  method Get(sections: map<string, Shard>, name: string) returns (found: seq<Shard>, ok: bool)
    ensures forall s :: s in found <==> exists h :: h in Hits(sections, name) && sections[h] == s
    ensures |found| == |Hits(sections, name)|
    ensures ok <==> found != []
  {
    hide Hit;
    found := [];
    var todo := sections.Keys;
    ghost var hits: set<string> := {};
    while todo != {}
      invariant todo <= sections.Keys
      invariant hits == Hits(sections, name) - todo
      invariant |found| == |hits|
      invariant forall s :: s in found <==> exists h :: h in hits && sections[h] == s
      decreases |todo|
    {
      var h :| h in todo;
      todo := todo - {h};
      var s := sections[h];
      if Hit(s, name) {
        found := found + [s];
        hits := hits + {h};
      }
    }
    assert hits == Hits(sections, name);
    ok := found != [];
  }

  /** The two ends of a piece's range differ, so a hit is a name in the range. */
  lemma HitIsInRange(az: seq<Assertion>, cuts: seq<nat>, shards: seq<Shard>, i: nat, name: string)
    requires Sorted(az) && ProperNames(az) && Pieces(az, cuts, shards) && i < |shards| && name != ""
    ensures Hit(shards[i], name) <==> InRange(shards[i], name)
  {
    PieceAt(az, cuts, shards, i);
    BoundsAreNames(az, cuts, shards, i);
    RangeIsOpen(shards[i], name);
    IntersectPoint(shards[i].from, shards[i].to, name);
    if 0 < i && i + 1 < |shards| {
      EndsDiffer(az, cuts, i);
    }
    hide InRange, InOpen, Intersect, Sorted, Copies, Pieces;
  }

  lemma EndsDiffer(az: seq<Assertion>, cuts: seq<nat>, i: nat)
    requires Sorted(az) && Cuts(az, cuts) && 0 < i && i + 1 < |cuts|
    ensures From(az, cuts, i) != To(az, cuts, i)
  {
    CutSeparates(az, cuts, i, cuts[i + 1]);
    LessIrreflexive(From(az, cuts, i));
  }

  /** Publish, cache, look up: for every non-empty name the cache has a covering shard, and the name is in the
      zone exactly when the shards it returns contain it; a hash collision between two of the zone's shards is
      the only thing that can spoil this. */
  lemma LookupIsExact(hash: Shard -> string, az: seq<Assertion>, cuts: seq<nat>, shards: seq<Shard>, name: string)
    requires Sorted(az) && ProperNames(az) && Pieces(az, cuts, shards) && name != "" && !Collide(hash, shards)
    ensures Hits(StoreAll(hash, shards), name) != {}
    ensures forall h :: h in Hits(StoreAll(hash, shards), name) ==>
      var s := StoreAll(hash, shards)[h]; InRange(s, name) && (Has(az, name) <==> Has(s.content, name))
  {
    StoredIsPublished(hash, shards);
    var sections := StoreAll(hash, shards);
    assert NonEmptyNames(az);
    hide Sorted, ProperNames, NonEmptyNames, Pieces, InRange, Has, Hit, Collide, StoreAll;
    EveryNameInSomeRange(az, cuts, shards, name);
    var i :| 0 <= i < |shards| && InRange(shards[i], name);
    HitIsInRange(az, cuts, shards, i, name);
    PublishedIsStored(hash, shards, i);
    assert hash(shards[i]) in Hits(sections, name);
    forall h | h in Hits(sections, name)
      ensures InRange(sections[h], name) && (Has(az, name) <==> Has(sections[h].content, name))
    {
      var j :| 0 <= j < |shards| && shards[j] == sections[h];
      HitIsInRange(az, cuts, shards, j, name);
      BoundsAreNames(az, cuts, shards, j);
      RangeIsOpen(shards[j], name);
      ShardHas(az, cuts, shards, j, name);
    }
  }
}
