/** Shards of a zone: consecutive pieces of the zone's sorted assertions, each with an open range of names that
    reaches from the last name before the piece to the first name after it.
 */
module Shards {
  import opened Names

  /** The type's number, and the value as it is printed. */
  datatype Obj = Obj(kind: int, value: string)

  /** Signatures as they are printed; `None` is the nil list, which is printed differently from an empty one. */
  datatype Assertion = Assertion(name: string, zone: string, context: string, content: seq<Obj>,
    sigs: Option<seq<string>>)

  datatype Shard = Shard(zone: string, context: string, from: string, to: string, content: seq<Assertion>)

  /** `Copy("", "")`: the form of an assertion contained in a section. */
  function Bare(a: Assertion): Assertion {
    a.(zone := "", context := "")
  }

  /** Go's range test of a shard, clause by clause. */
  predicate InRange(s: Shard, name: string) {
    || (s.from == "<" && s.to == ">") || (s.from == "<" && Less(name, s.to))
    || (s.to == ">" && Less(s.from, name))
    || (Less(s.from, name) && Less(name, s.to))
    || (s.from == "" && s.to == "") || (s.from == "" && Less(name, s.to))
    || (s.to == "" && Less(s.from, name))
  }

  /** Membership in an open range where the empty string stands for no bound. */
  predicate InOpen(from: string, to: string, name: string) {
    (from == "" || Less(from, name)) && (to == "" || Less(name, to))
  }

  lemma RangeIsOpen(s: Shard, name: string)
    requires s.from != "<" && s.to != ">"
    ensures InRange(s, name) <==> InOpen(s.from, s.to, name)
  {
    LessIrreflexive("");
    if name != "" { assert Less("", name); }
    if s.from == "" && !Less("", name) { assert name == ""; }
  }

  /** Contained assertions carry no zone or context and lie in the range. */
  predicate Consistent(s: Shard) {
    forall a :: a in s.content ==> a.zone == "" && a.context == "" && InRange(s, a.name)
  }

  /** What a publisher feeds in: sorted by subject name, names that cannot be mistaken for open bounds. */
  ghost predicate Sorted(az: seq<Assertion>) {
    forall i, j :: 0 <= i < j < |az| ==> !Less(az[j].name, az[i].name)
  }

  predicate NonEmptyNames(az: seq<Assertion>) {
    forall i :: 0 <= i < |az| ==> az[i].name != ""
  }

  /** A shard's range test reads the two range marks as open bounds. */
  ghost predicate ProperNames(az: seq<Assertion>) {
    NonEmptyNames(az) && forall i :: 0 <= i < |az| ==> az[i].name != "<" && az[i].name != ">"
  }

  /** Where the pieces start; a new piece never starts in the middle of a name. */
  ghost predicate Cuts(az: seq<Assertion>, cuts: seq<nat>) {
    && |cuts| > 0 && cuts[0] == 0
    && (forall i, j :: 0 <= i < j < |cuts| ==> cuts[i] < cuts[j])
    && (forall i :: 0 < i < |cuts| ==> 0 < cuts[i] < |az| && az[cuts[i] - 1].name != az[cuts[i]].name)
  }

  ghost function End(az: seq<Assertion>, cuts: seq<nat>, i: nat): nat
    requires i < |cuts|
  {
    if i + 1 < |cuts| then cuts[i + 1] else |az|
  }

  ghost function From(az: seq<Assertion>, cuts: seq<nat>, i: nat): string
    requires Cuts(az, cuts) && i < |cuts|
  {
    if i == 0 then "" else az[cuts[i] - 1].name
  }

  ghost function To(az: seq<Assertion>, cuts: seq<nat>, i: nat): string
    requires Cuts(az, cuts) && i < |cuts|
  {
    if i + 1 < |cuts| then az[cuts[i + 1]].name else ""
  }

  /** `content` is a bare copy of az[lo..hi]. */
  ghost predicate Copies(content: seq<Assertion>, az: seq<Assertion>, lo: nat, hi: nat) {
    lo <= hi <= |az| && |content| == hi - lo && forall j :: 0 <= j < hi - lo ==> content[j] == Bare(az[lo + j])
  }

  /** A shard is the `i`-th piece, with the range the piece calls for. */
  ghost predicate Piece(az: seq<Assertion>, cuts: seq<nat>, i: nat, s: Shard)
    requires Cuts(az, cuts) && i < |cuts|
  {
    && s.from == From(az, cuts, i) && s.to == To(az, cuts, i)
    && Copies(s.content, az, cuts[i], End(az, cuts, i))
  }

  ghost predicate Pieces(az: seq<Assertion>, cuts: seq<nat>, shards: seq<Shard>) {
    Cuts(az, cuts) && |shards| == |cuts| && forall i :: 0 <= i < |cuts| ==> Piece(az, cuts, i, shards[i])
  }

  // ---- what the ranges mean ----

  /** The piece an assertion is in. */
  lemma PieceOf(az: seq<Assertion>, cuts: seq<nat>, k: nat) returns (i: nat)
    requires Cuts(az, cuts) && k < |az|
    ensures i < |cuts| && cuts[i] <= k < End(az, cuts, i)
  {
    i := 0;
    while i + 1 < |cuts| && cuts[i + 1] <= k
      invariant i < |cuts| && cuts[i] <= k
      decreases |cuts| - i
    {
      i := i + 1;
    }
  }

  /** Across a cut, names strictly increase. */
  lemma CutSeparates(az: seq<Assertion>, cuts: seq<nat>, i: nat, k: nat)
    requires Sorted(az) && Cuts(az, cuts) && 0 < i < |cuts| && k < |az|
    ensures k < cuts[i] ==> Less(az[k].name, az[cuts[i]].name)
    ensures k >= cuts[i] ==> Less(az[cuts[i] - 1].name, az[k].name)
  {
    Order();
  }

  /** A name of the zone is in a piece's range exactly when its assertion is in that piece. */
  lemma InRangeIffInPiece(az: seq<Assertion>, cuts: seq<nat>, i: nat, k: nat)
    requires Sorted(az) && NonEmptyNames(az) && Cuts(az, cuts) && i < |cuts| && k < |az|
    ensures InOpen(From(az, cuts, i), To(az, cuts, i), az[k].name) <==> cuts[i] <= k < End(az, cuts, i)
  {
    Order();
    if i > 0 { CutSeparates(az, cuts, i, k); }
    if i + 1 < |cuts| { CutSeparates(az, cuts, i + 1, k); }
  }

  /** Every non-empty name is in some range. */
  lemma Covered(az: seq<Assertion>, cuts: seq<nat>, name: string) returns (i: nat)
    requires Sorted(az) && Cuts(az, cuts) && name != ""
    ensures i < |cuts| && InOpen(From(az, cuts, i), To(az, cuts, i), name)
  {
    i := 0;
    while i + 1 < |cuts| && !Less(name, az[cuts[i + 1]].name)
      invariant i < |cuts| && (From(az, cuts, i) == "" || Less(From(az, cuts, i), name))
      decreases |cuts| - i
    {
      CutSeparates(az, cuts, i + 1, cuts[i + 1]);
      Order();
      i := i + 1;
    }
  }

  // ---- what the shards say about the zone ----

  predicate Has(az: seq<Assertion>, name: string) {
    exists k :: 0 <= k < |az| && az[k].name == name
  }

  function Joined(shards: seq<Shard>): seq<Assertion> {
    if shards == [] then [] else Joined(shards[..|shards| - 1]) + shards[|shards| - 1].content
  }

  lemma CopiesJoin(c: seq<Assertion>, d: seq<Assertion>, az: seq<Assertion>, lo: nat, mid: nat, hi: nat)
    requires Copies(c, az, lo, mid) && Copies(d, az, mid, hi)
    ensures Copies(c + d, az, lo, hi)
  {
  }

  lemma JoinedLast(shards: seq<Shard>, n: nat)
    requires 0 < n <= |shards|
    ensures Joined(shards[..n]) == Joined(shards[..n - 1]) + shards[n - 1].content
  {
    var init := shards[..n];
    assert init[..n - 1] == shards[..n - 1] && init[n - 1] == shards[n - 1];
  }

  lemma {:induction false} JoinedPieces(az: seq<Assertion>, cuts: seq<nat>, shards: seq<Shard>, n: nat)
    requires Pieces(az, cuts, shards) && 0 < n <= |shards|
    ensures Copies(Joined(shards[..n]), az, 0, End(az, cuts, n - 1))
  {
    hide Pieces, Cuts, From, To, Copies;
    PieceAt(az, cuts, shards, n - 1);
    JoinedLast(shards, n);
    if n > 1 {
      JoinedPieces(az, cuts, shards, n - 1);
      CopiesJoin(Joined(shards[..n - 1]), shards[n - 1].content, az, 0, cuts[n - 1], End(az, cuts, n - 1));
    } else {
      assert Joined(shards[..0]) + shards[0].content == shards[0].content;
    }
  }

  lemma Conserved(az: seq<Assertion>, cuts: seq<nat>, shards: seq<Shard>)
    requires Pieces(az, cuts, shards)
    ensures Copies(Joined(shards), az, 0, |az|)
  {
    hide Copies, From, To, Joined;
    JoinedPieces(az, cuts, shards, |shards|);
    assert shards[..|shards|] == shards;
  }

  lemma PieceAt(az: seq<Assertion>, cuts: seq<nat>, shards: seq<Shard>, i: nat)
    requires Pieces(az, cuts, shards) && i < |shards|
    ensures |cuts| == |shards| && Cuts(az, cuts) && cuts[0] == 0 && shards[i].from == From(az, cuts, i)
    ensures shards[i].to == To(az, cuts, i)
    ensures Copies(shards[i].content, az, cuts[i], End(az, cuts, i))
  {
    hide Copies, From, To;
  }

  lemma ShardHas(az: seq<Assertion>, cuts: seq<nat>, shards: seq<Shard>, i: nat, name: string)
    requires Sorted(az) && NonEmptyNames(az) && Pieces(az, cuts, shards) && i < |shards|
    ensures InOpen(shards[i].from, shards[i].to, name) ==> (Has(az, name) <==> Has(shards[i].content, name))
  {
    if InOpen(shards[i].from, shards[i].to, name) && Has(az, name) {
      var k :| 0 <= k < |az| && az[k].name == name;
      InRangeIffInPiece(az, cuts, i, k);
      assert shards[i].content[k - cuts[i]].name == name;
    }
    if Has(shards[i].content, name) {
      var j :| 0 <= j < |shards[i].content| && shards[i].content[j].name == name;
      assert az[cuts[i] + j].name == name;
    }
  }

  lemma BoundsAreNames(az: seq<Assertion>, cuts: seq<nat>, shards: seq<Shard>, i: nat)
    requires ProperNames(az) && Pieces(az, cuts, shards) && i < |shards|
    ensures shards[i].from != "<" && shards[i].to != ">"
  {
    PieceAt(az, cuts, shards, i);
    hide Pieces, Copies, End;
  }

  lemma MemberConsistent(az: seq<Assertion>, cuts: seq<nat>, shards: seq<Shard>, i: nat, j: nat)
    requires Sorted(az) && ProperNames(az) && Pieces(az, cuts, shards) && i < |shards| && j < |shards[i].content|
    ensures var a := shards[i].content[j]; a.zone == "" && a.context == "" && InRange(shards[i], a.name)
  {
    PieceAt(az, cuts, shards, i);
    BoundsAreNames(az, cuts, shards, i);
    assert NonEmptyNames(az);
    hide Pieces, Sorted, ProperNames, InRange, InOpen, Cuts, From, To, NonEmptyNames;
    InRangeIffInPiece(az, cuts, i, cuts[i] + j);
    RangeIsOpen(shards[i], shards[i].content[j].name);
  }

  lemma ShardConsistent(az: seq<Assertion>, cuts: seq<nat>, shards: seq<Shard>, i: nat)
    requires Sorted(az) && ProperNames(az) && Pieces(az, cuts, shards) && i < |shards|
    ensures shards[i].from != "<" && shards[i].to != ">" && Consistent(shards[i])
  {
    hide Pieces, Sorted, ProperNames, InRange;
    BoundsAreNames(az, cuts, shards, i);
    forall j | 0 <= j < |shards[i].content|
      ensures var a := shards[i].content[j]; a.zone == "" && a.context == "" && InRange(shards[i], a.name)
    {
      MemberConsistent(az, cuts, shards, i, j);
    }
  }

  lemma PieceIsUnique(az: seq<Assertion>, cuts: seq<nat>, i: nat, j: nat, k: nat)
    requires Cuts(az, cuts) && i < |cuts| && j < |cuts|
    requires cuts[i] <= k < End(az, cuts, i) && cuts[j] <= k < End(az, cuts, j)
    ensures i == j
  {
  }

  lemma CopyAt(content: seq<Assertion>, az: seq<Assertion>, lo: nat, hi: nat, j: nat)
    requires Copies(content, az, lo, hi) && j < |content|
    ensures lo + j < hi <= |az| && az[lo + j].name == content[j].name
  {
  }

  lemma ContentIsInPiece(az: seq<Assertion>, cuts: seq<nat>, shards: seq<Shard>, i: nat, name: string) returns (k: nat)
    requires Pieces(az, cuts, shards) && i < |shards| && Has(shards[i].content, name)
    ensures k < |az| && az[k].name == name && cuts[i] <= k < End(az, cuts, i)
  {
    hide Pieces, Cuts, Copies, From, To;
    var j :| 0 <= j < |shards[i].content| && shards[i].content[j].name == name;
    PieceAt(az, cuts, shards, i);
    CopyAt(shards[i].content, az, cuts[i], End(az, cuts, i), j);
    k := cuts[i] + j;
  }

  lemma NamesStayTogether(az: seq<Assertion>, cuts: seq<nat>, shards: seq<Shard>, i: nat, j: nat, name: string)
    requires Sorted(az) && NonEmptyNames(az) && Pieces(az, cuts, shards) && i < |shards| && j < |shards|
    requires Has(shards[i].content, name) && Has(shards[j].content, name)
    ensures i == j
  {
    var k := ContentIsInPiece(az, cuts, shards, i, name);
    var l := ContentIsInPiece(az, cuts, shards, j, name);
    hide Has, InOpen, Sorted, NonEmptyNames;
    InRangeIffInPiece(az, cuts, i, k);
    InRangeIffInPiece(az, cuts, i, l);
    PieceIsUnique(az, cuts, i, j, l);
  }

  predicate InSomeRange(shards: seq<Shard>, name: string) {
    exists i :: 0 <= i < |shards| && InRange(shards[i], name)
  }

  lemma EveryNameInSomeRange(az: seq<Assertion>, cuts: seq<nat>, shards: seq<Shard>, name: string)
    requires Sorted(az) && ProperNames(az) && Pieces(az, cuts, shards) && name != ""
    ensures InSomeRange(shards, name)
  {
    hide Sorted, ProperNames, InRange, Consistent;
    var i := Covered(az, cuts, name);
    ShardConsistent(az, cuts, shards, i);
    RangeIsOpen(shards[i], name);
  }

  /** Nothing is lost or repeated; a name is never split; every shard is consistent; every non-empty name is in
      the range of some shard; and "not in a shard whose range holds the name" means "not in the zone". */
  lemma ShardsAreExact(az: seq<Assertion>, cuts: seq<nat>, shards: seq<Shard>)
    requires Sorted(az) && ProperNames(az) && Pieces(az, cuts, shards)
    ensures Copies(Joined(shards), az, 0, |az|)
    ensures forall i :: 0 <= i < |shards| ==> Consistent(shards[i])
    ensures forall i, j, name :: 0 <= i < j < |shards| && Has(shards[i].content, name) ==> !Has(shards[j].content, name)
    ensures forall name :: name != "" ==> InSomeRange(shards, name)
    ensures forall i, name :: 0 <= i < |shards| && InRange(shards[i], name) ==>
      (Has(az, name) <==> Has(shards[i].content, name))
  {
    assert NonEmptyNames(az);
    hide *;
    Conserved(az, cuts, shards);
    forall i | 0 <= i < |shards| ensures Consistent(shards[i]) {
      ShardConsistent(az, cuts, shards, i);
    }
    forall i, j, name | 0 <= i < j < |shards| && Has(shards[i].content, name) ensures !Has(shards[j].content, name) {
      if Has(shards[j].content, name) { NamesStayTogether(az, cuts, shards, i, j, name); }
    }
    forall name | name != "" ensures InSomeRange(shards, name) {
      EveryNameInSomeRange(az, cuts, shards, name);
    }
    forall i, name | 0 <= i < |shards| && InRange(shards[i], name)
        ensures Has(az, name) <==> Has(shards[i].content, name) {
      ShardConsistent(az, cuts, shards, i);
      RangeIsOpen(shards[i], name);
      ShardHas(az, cuts, shards, i, name);
    }
  }
}
