/** Bit arrays and Bloom filters. A filter answers "maybe" for everything that was ever added to it.
 */
module Bloom {
  import opened Names

  const TWO64: nat := 0x1_0000_0000_0000_0000

  function Mask(pos: int): bv8 {
    if pos == 0 then 1
    else if pos == 1 then 2
    else if pos == 2 then 4
    else if pos == 3 then 8
    else if pos == 4 then 16
    else if pos == 5 then 32
    else if pos == 6 then 64
    else if pos == 7 then 128
    else 0
  }

  function Raise(x: bv8, pos: int): bv8 {
    x | Mask(pos)
  }

  predicate Raised(x: bv8, pos: int) {
    x & Mask(pos) != 0
  }

  lemma RaiseOne(x: bv8, p: nat, q: nat)
    requires p < 8 && q < 8
    ensures Raised(Raise(x, p), q) <==> Raised(x, q) || p == q
  {
  }

  /** A negative position has an empty mask. */
  lemma RaiseNone(x: bv8, pos: int)
    requires pos < 0
    ensures Raise(x, pos) == x && !Raised(x, pos)
  {
  }

  /** Go's division by eight, which rounds toward zero, and the remainder that goes with it. */
  function Block(i: int): int {
    if i >= 0 then i / 8 else -(-i / 8)
  }

  function Pos(i: int): int {
    i - 8 * Block(i)
  }

  lemma BlockOf(i: int)
    requires i > -8
    ensures Block(i) >= 0 && (i >= 0 ==> 0 <= Pos(i) < 8) && (i < 0 ==> Block(i) == 0 && Pos(i) == i)
  {
  }

  lemma BlockAndPos(i: nat, j: nat)
    requires Block(i) == Block(j) && Pos(i) == Pos(j)
    ensures i == j
  {
  }

  predicate IsSet(bits: seq<bv8>, i: nat)
    requires 0 <= Block(i) < |bits|
  {
    Raised(bits[Block(i)], Pos(i))
  }

  predicate Within(bits: seq<bv8>, i: nat) {
    0 <= Block(i) < |bits|
  }

  /** The bits set in `after` are those set in `before`, and bit `i`. */
  ghost predicate Sets(before: seq<bv8>, after: seq<bv8>, i: nat) {
    |after| == |before| && forall j: nat :: Within(before, j) ==> (IsSet(after, j) <==> IsSet(before, j) || i == j)
  }

  lemma SetsOne(bits: seq<bv8>, i: nat)
    requires Within(bits, i)
    ensures Sets(bits, bits[Block(i) := Raise(bits[Block(i)], Pos(i))], i)
  {
    BlockOf(i);
    hide Block, Pos, Raise, Raised;
    forall j: nat | Within(bits, j)
      ensures IsSet(bits[Block(i) := Raise(bits[Block(i)], Pos(i))], j) <==> IsSet(bits, j) || i == j
    {
      BlockOf(j);
      if Block(i) == Block(j) {
        RaiseOne(bits[Block(i)], Pos(i), Pos(j));
        if Pos(i) == Pos(j) { BlockAndPos(i, j); }
      }
    }
  }

  /** Below -7 the index would be negative, which Go refuses at run time. */
  method SetBit(b: array<bv8>, i: int) returns (ok: bool)
    requires i > -8
    modifies b
    ensures ok <==> Block(i) < b.Length
    ensures !ok || i < 0 ==> b[..] == old(b[..])
    ensures ok && i >= 0 ==> Sets(old(b[..]), b[..], i)
  {
    BlockOf(i);
    hide Block, Pos, Raise, Raised, Sets, IsSet;
    var block := Block(i);
    ok := block < b.Length;
    if !ok { return; }
    ghost var before := b[..];
    b[block] := Raise(b[block], Pos(i));
    assert b[..] == before[block := Raise(before[block], Pos(i))];
    if i >= 0 {
      SetsOne(before, i);
    } else {
      RaiseNone(before[block], i);
    }
  }

  method GetBit(b: array<bv8>, i: int) returns (val: bool, ok: bool)
    requires i > -8
    ensures ok <==> Block(i) < b.Length
    ensures val <==> ok && i >= 0 && Within(b[..], i) && IsSet(b[..], i)
  {
    BlockOf(i);
    hide Block, Pos, Raise, Raised;
    var block := Block(i);
    ok := block < b.Length;
    val := ok && Raised(b[block], Pos(i));
    if ok && i < 0 { RaiseNone(b[block], i); }
  }

  // ---- the filter ----

  /** The two 64-bit hashes of an encoded name, zone, context and type; none for an unknown algorithm. */
  type Hasher = (string, string, string, int) -> Option<(nat, nat)>

  const KM12: int := 1
  const KM16: int := 2
  const KM20: int := 3
  const KM24: int := 4

  function NumberOfHashes(algo: int): int {
    if algo == KM12 then 12
    else if algo == KM16 then 16
    else if algo == KM20 then 20
    else if algo == KM24 then 24
    else -1
  }

  /** The `i`-th bit of an entry; sum and product wrap at 64 bits before the reduction. */
  function Index(h: (nat, nat), i: nat, len: nat): nat
    requires len > 0
  {
    ((h.0 + i * h.1 % TWO64) % TWO64) % (8 * len)
  }

  lemma IndexWithin(bits: seq<bv8>, h: (nat, nat), i: nat)
    requires |bits| > 0
    ensures Within(bits, Index(h, i, |bits|))
  {
    var x := (h.0 + i * h.1 % TWO64) % TWO64;
    var m := 8 * |bits|;
    assert 0 <= x % m < m;
  }

  predicate Probe(bits: seq<bv8>, h: (nat, nat), i: nat) {
    |bits| > 0 && Within(bits, Index(h, i, |bits|)) && IsSet(bits, Index(h, i, |bits|))
  }

  ghost predicate ProbesUpTo(bits: seq<bv8>, h: (nat, nat), n: int) {
    forall i :: 1 <= i <= n ==> Probe(bits, h, i)
  }

  /** What a filter answers. */
  ghost predicate Maybe(bits: seq<bv8>, h: (nat, nat), algo: int) {
    ProbesUpTo(bits, h, NumberOfHashes(algo))
  }

  ghost predicate Keeps(before: seq<bv8>, after: seq<bv8>) {
    |after| == |before| && forall j: nat :: Within(before, j) && IsSet(before, j) ==> IsSet(after, j)
  }

  /** Every bit of `after` that `before` lacks belongs to the entry. */
  ghost predicate OnlyAdds(before: seq<bv8>, after: seq<bv8>, h: (nat, nat), n: int) {
    |after| == |before| && forall j: nat :: Within(before, j) && IsSet(after, j) && !IsSet(before, j) ==>
      |before| > 0 && exists i :: 1 <= i <= n && Index(h, i, |before|) == j
  }

  lemma SameWithin(before: seq<bv8>, after: seq<bv8>, j: nat)
    requires |after| == |before|
    ensures Within(after, j) <==> Within(before, j)
  {
  }

  lemma KeepsProbes(before: seq<bv8>, after: seq<bv8>, h: (nat, nat), n: int)
    requires Keeps(before, after) && ProbesUpTo(before, h, n)
    ensures ProbesUpTo(after, h, n)
  {
    hide IsSet, Index, Block, Within;
    forall i | 1 <= i <= n ensures Probe(after, h, i) {
      assert Probe(before, h, i);
      SameWithin(before, after, Index(h, i, |before|));
    }
  }

  lemma AddStep(start: seq<bv8>, before: seq<bv8>, after: seq<bv8>, h: (nat, nat), i: nat)
    requires i >= 1 && |before| > 0 && Keeps(start, before) && OnlyAdds(start, before, h, i - 1)
    requires ProbesUpTo(before, h, i - 1)
    requires Sets(before, after, Index(h, i, |before|))
    ensures Keeps(start, after) && OnlyAdds(start, after, h, i) && ProbesUpTo(after, h, i)
  {
    IndexWithin(before, h, i);
    hide Index, Block, Raised, Pos;
    assert Keeps(before, after);
    KeepsProbes(before, after, h, i - 1);
    forall j: nat | Within(start, j) && IsSet(after, j) && !IsSet(start, j)
      ensures exists k :: 1 <= k <= i && Index(h, k, |start|) == j
    {
      if IsSet(before, j) {
        var k :| 1 <= k <= i - 1 && Index(h, k, |start|) == j;
      } else {
        assert Index(h, i, |start|) == j;
      }
    }
  }

  /** No bit is set. */
  ghost predicate Clear(bits: seq<bv8>) {
    forall j: nat :: Within(bits, j) ==> !IsSet(bits, j)
  }

  lemma ZeroIsClear(bits: seq<bv8>)
    requires forall i :: 0 <= i < |bits| ==> bits[i] == 0
    ensures Clear(bits)
  {
    forall j: nat | Within(bits, j) ensures !IsSet(bits, j) {
      assert 0 & Mask(Pos(j)) == 0;
    }
  }

  /** A clear filter answers "no" to everything if and only if its algorithm is one of the four; an unknown algorithm
      looks at no bit. */
  lemma ClearSaysNo(bits: seq<bv8>, h: (nat, nat), algo: int)
    requires Clear(bits) && |bits| > 0
    ensures !Maybe(bits, h, algo) <==> 1 <= algo <= 4
  {
    hide Index, IsSet, Within;
    if 1 <= algo <= 4 { assert !Probe(bits, h, 1); }
  }

  method Add(filter: array<bv8>, H: Hasher, algo: int, name: string, zone: string, context: string, kind: int)
    returns (ok: bool)
    requires H(name, zone, context, kind).Some? && NumberOfHashes(algo) > 0 ==> filter.Length > 0
    modifies filter
    ensures ok <==> H(name, zone, context, kind).Some?
    ensures !ok ==> filter[..] == old(filter[..])
    ensures ok ==> Maybe(filter[..], H(name, zone, context, kind).value, algo)
    ensures Keeps(old(filter[..]), filter[..])
    ensures ok ==> OnlyAdds(old(filter[..]), filter[..], H(name, zone, context, kind).value, NumberOfHashes(algo))
  {
    var hash := H(name, zone, context, kind);
    if hash == None { return false; }
    var h := hash.value;
    ghost var start := filter[..];
    var i := 1;
    while i <= NumberOfHashes(algo)
      invariant 1 <= i && (NumberOfHashes(algo) > 0 ==> i <= NumberOfHashes(algo) + 1)
      invariant (NumberOfHashes(algo) <= 0 ==> i == 1) && (i == 1 ==> filter[..] == start)
      invariant Keeps(start, filter[..]) && OnlyAdds(start, filter[..], h, i - 1) && ProbesUpTo(filter[..], h, i - 1)
    {
      hide NumberOfHashes, Index, Keeps, OnlyAdds, ProbesUpTo, Within, IsSet, Sets;
      ghost var before := filter[..];
      IndexWithin(before, h, i);
      var done := SetBit(filter, Index(h, i, filter.Length));
      if !done { return false; }
      AddStep(start, before, filter[..], h, i);
      i := i + 1;
    }
    ok := true;
  }

  method Contains(filter: array<bv8>, H: Hasher, algo: int, name: string, zone: string, context: string, kind: int)
    returns (val: bool, ok: bool)
    requires H(name, zone, context, kind).Some? && NumberOfHashes(algo) > 0 ==> filter.Length > 0
    ensures ok <==> H(name, zone, context, kind).Some?
    ensures val <==> ok && Maybe(filter[..], H(name, zone, context, kind).value, algo)
  {
    var hash := H(name, zone, context, kind);
    if hash == None { return false, false; }
    var h := hash.value;
    var i := 1;
    while i <= NumberOfHashes(algo)
      invariant 1 <= i
      invariant ProbesUpTo(filter[..], h, i - 1)
    {
      hide Index, IsSet;
      IndexWithin(filter[..], h, i);
      var bit, read := GetBit(filter, Index(h, i, filter.Length));
      if !read { return false, false; }
      if !bit {
        assert !Probe(filter[..], h, i);
        return false, true;
      }
      i := i + 1;
    }
    return true, true;
  }
}
