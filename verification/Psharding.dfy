/** Grouping a zone's assertions into pshards: pieces like those of shards, each summed up in a Bloom filter.
 */
module Psharding {
  import opened Names
  import opened Shards
  import opened Sharding
  import opened Bloom

  datatype Pshard = Pshard(zone: string, context: string, from: string, to: string, algo: int, filter: seq<bv8>)

  /** Go's range test of a pshard, clause by clause. */
  predicate InPRange(from: string, to: string, name: string) {
    || (from == "" && to == "") || (from == "" && Less(name, to))
    || (to == "" && Less(from, name))
    || (Less(from, name) && Less(name, to))
  }

  lemma PRangeIsOpen(from: string, to: string, name: string)
    ensures InPRange(from, to, name) <==> InOpen(from, to, name)
  {
    LessIrreflexive("");
    if name != "" { assert Less("", name); }
  }

  predicate Hashed(H: Hasher, zone: string, context: string, a: Assertion) {
    forall i :: 0 <= i < |a.content| ==> H(a.name, zone, context, a.content[i].kind).Some?
  }

  /** The filter says "maybe" to every type of the assertion. */
  ghost predicate Answers(H: Hasher, algo: int, zone: string, context: string, a: Assertion, n: nat, bits: seq<bv8>) {
    n <= |a.content| && forall i :: 0 <= i < n ==>
      var h := H(a.name, zone, context, a.content[i].kind); h.Some? && Maybe(bits, h.value, algo)
  }

  lemma KeepsAnswers(H: Hasher, algo: int, zone: string, context: string, a: Assertion, n: nat, before: seq<bv8>,
                     after: seq<bv8>)
    requires Answers(H, algo, zone, context, a, n, before) && Keeps(before, after)
    ensures Answers(H, algo, zone, context, a, n, after)
  {
    hide Keeps, ProbesUpTo;
    forall i | 0 <= i < n ensures Maybe(after, H(a.name, zone, context, a.content[i].kind).value, algo) {
      KeepsProbes(before, after, H(a.name, zone, context, a.content[i].kind).value, NumberOfHashes(algo));
    }
  }

  lemma KeepsTransitive(a: seq<bv8>, b: seq<bv8>, c: seq<bv8>)
    requires Keeps(a, b) && Keeps(b, c)
    ensures Keeps(a, c)
  {
    hide IsSet, Block;
  }

  /** Bit `j` of a filter of `len` bytes belongs to some type of the assertion. */
  ghost predicate EntryBit(H: Hasher, algo: int, zone: string, context: string, a: Assertion, n: nat, len: nat,
                           j: nat) {
    exists m, i :: 0 <= m < n <= |a.content| && 1 <= i <= NumberOfHashes(algo) && len > 0
      && H(a.name, zone, context, a.content[m].kind).Some?
      && Index(H(a.name, zone, context, a.content[m].kind).value, i, len) == j
  }

  /** Every bit of `after` that `before` lacks belongs to one of the first `n` types of the assertion. */
  ghost predicate AddsOnly(H: Hasher, algo: int, zone: string, context: string, a: Assertion, n: nat,
                           before: seq<bv8>, after: seq<bv8>) {
    |after| == |before| && forall j: nat :: Within(after, j) && IsSet(after, j) ==>
      IsSet(before, j) || EntryBit(H, algo, zone, context, a, n, |after|, j)
  }

  lemma AddsOnlyMore(H: Hasher, algo: int, zone: string, context: string, a: Assertion, n: nat,
                     start: seq<bv8>, before: seq<bv8>, after: seq<bv8>)
    requires n < |a.content| && AddsOnly(H, algo, zone, context, a, n, start, before)
    requires var h := H(a.name, zone, context, a.content[n].kind);
      h.Some? && OnlyAdds(before, after, h.value, NumberOfHashes(algo))
    ensures AddsOnly(H, algo, zone, context, a, n + 1, start, after)
  {
    hide Index, IsSet, Block, NumberOfHashes;
    var h := H(a.name, zone, context, a.content[n].kind).value;
    forall j: nat | Within(after, j) && IsSet(after, j) && !IsSet(start, j)
      ensures EntryBit(H, algo, zone, context, a, n + 1, |after|, j)
    {
      SameWithin(before, after, j);
      if IsSet(before, j) {
        var m, i :| 0 <= m < n <= |a.content| && 1 <= i <= NumberOfHashes(algo) && |before| > 0
          && H(a.name, zone, context, a.content[m].kind).Some?
          && Index(H(a.name, zone, context, a.content[m].kind).value, i, |before|) == j;
      } else {
        var i :| 1 <= i <= NumberOfHashes(algo) && Index(h, i, |before|) == j;
      }
    }
  }

  method AddAssertion(H: Hasher, algo: int, zone: string, context: string, from: string, to: string, filter: array<bv8>,
                      a: Assertion)
    returns (ok: bool)
    requires filter.Length > 0
    modifies filter
    ensures ok <==> a.context == context && a.zone == zone && InPRange(from, to, a.name) && Hashed(H, zone, context, a)
    ensures ok ==> Answers(H, algo, zone, context, a, |a.content|, filter[..])
    ensures ok ==> AddsOnly(H, algo, zone, context, a, |a.content|, old(filter[..]), filter[..])
    ensures Keeps(old(filter[..]), filter[..])
  {
    ghost var start := filter[..];
    if a.context != context || a.zone != zone || !InPRange(from, to, a.name) {
      return false;
    }
    hide Maybe, Keeps, OnlyAdds, EntryBit;
    KeepsItself(start);
    for i := 0 to |a.content|
      invariant Keeps(start, filter[..]) && Answers(H, algo, zone, context, a, i, filter[..])
      invariant AddsOnly(H, algo, zone, context, a, i, start, filter[..])
    {
      hide AddsOnly;
      ghost var before := filter[..];
      var added := Add(filter, H, algo, a.name, zone, context, a.content[i].kind);
      KeepsTransitive(start, before, filter[..]);
      if !added { return false; }
      KeepsAnswers(H, algo, zone, context, a, i, before, filter[..]);
      AddsOnlyMore(H, algo, zone, context, a, i, start, before, filter[..]);
    }
    ok := true;
  }

  lemma KeepsItself(bits: seq<bv8>)
    ensures Keeps(bits, bits)
  {
  }

  // ---- grouping ----

  /** The filter says "maybe" to everything in az[lo..hi]. */
  ghost predicate AnswersAll(H: Hasher, algo: int, zone: string, context: string, az: seq<Assertion>, lo: nat, hi: nat,
                             bits: seq<bv8>) {
    hi <= |az| && forall k :: lo <= k < hi ==> Answers(H, algo, zone, context, az[k], |az[k].content|, bits)
  }

  /** Every bit set belongs to something in az[lo..hi]. */
  ghost predicate OnlyOf(H: Hasher, algo: int, zone: string, context: string, az: seq<Assertion>, lo: nat, hi: nat,
                         bits: seq<bv8>) {
    hi <= |az| && forall j: nat :: Within(bits, j) && IsSet(bits, j) ==>
      exists k :: lo <= k < hi && EntryBit(H, algo, zone, context, az[k], |az[k].content|, |bits|, j)
  }

  /** The filter answers "maybe" to everything in az[lo..hi], and has no bit more than that takes. */
  ghost predicate SumsUp(H: Hasher, algo: int, zone: string, context: string, az: seq<Assertion>, lo: nat, hi: nat,
                         bits: seq<bv8>) {
    AnswersAll(H, algo, zone, context, az, lo, hi, bits) && OnlyOf(H, algo, zone, context, az, lo, hi, bits)
  }

  /** Pshards with the ranges of the pieces, each with a filter that sums up its piece. */
  ghost predicate PPieces(H: Hasher, algo: int, zone: string, context: string, az: seq<Assertion>, shards: seq<Shard>,
                          cuts: seq<nat>, pshards: seq<Pshard>) {
    && |pshards| <= |shards| && |pshards| <= |cuts| && Cuts(az, cuts)
    && forall i :: 0 <= i < |pshards| ==>
         && pshards[i].from == shards[i].from && pshards[i].to == shards[i].to
         && pshards[i].zone == zone && pshards[i].context == context && pshards[i].algo == algo
         && SumsUp(H, algo, zone, context, az, cuts[i], End(az, cuts, i), pshards[i].filter)
  }

  function FilterBytes(size: int): int {
    if size % 8 == 0 then size / 8 else (size / 8 + 1) * 8
  }

  lemma GrowSum(H: Hasher, algo: int, zone: string, context: string, az: seq<Assertion>, lo: nat, k: nat,
                before: seq<bv8>, after: seq<bv8>)
    requires lo <= k < |az| && SumsUp(H, algo, zone, context, az, lo, k, before) && Keeps(before, after)
    requires Answers(H, algo, zone, context, az[k], |az[k].content|, after)
    requires AddsOnly(H, algo, zone, context, az[k], |az[k].content|, before, after)
    ensures SumsUp(H, algo, zone, context, az, lo, k + 1, after)
  {
    hide Keeps, AddsOnly, Answers, EntryBit, AnswersAll, OnlyOf;
    GrowAnswers(H, algo, zone, context, az, lo, k, before, after);
    GrowOnly(H, algo, zone, context, az, lo, k, before, after);
  }

  lemma GrowOnly(H: Hasher, algo: int, zone: string, context: string, az: seq<Assertion>, lo: nat, k: nat,
                 before: seq<bv8>, after: seq<bv8>)
    requires lo <= k < |az| && OnlyOf(H, algo, zone, context, az, lo, k, before)
    requires AddsOnly(H, algo, zone, context, az[k], |az[k].content|, before, after)
    ensures OnlyOf(H, algo, zone, context, az, lo, k + 1, after)
  {
    hide EntryBit, IsSet, Block;
    forall j: nat | Within(after, j) && IsSet(after, j)
      ensures exists l :: lo <= l < k + 1 && EntryBit(H, algo, zone, context, az[l], |az[l].content|, |after|, j)
    {
      SameWithin(before, after, j);
      if IsSet(before, j) {
        var l :| lo <= l < k && EntryBit(H, algo, zone, context, az[l], |az[l].content|, |before|, j);
      }
    }
  }

  lemma GrowAnswers(H: Hasher, algo: int, zone: string, context: string, az: seq<Assertion>, lo: nat, k: nat,
                    before: seq<bv8>, after: seq<bv8>)
    requires lo <= k < |az| && AnswersAll(H, algo, zone, context, az, lo, k, before) && Keeps(before, after)
    requires Answers(H, algo, zone, context, az[k], |az[k].content|, after)
    ensures AnswersAll(H, algo, zone, context, az, lo, k + 1, after)
  {
    hide Answers, Keeps;
    forall j | lo <= j < k ensures Answers(H, algo, zone, context, az[j], |az[j].content|, after) {
      KeepsAnswers(H, algo, zone, context, az[j], |az[j].content|, before, after);
    }
  }

  lemma ClosePshard(H: Hasher, algo: int, zone: string, context: string, az: seq<Assertion>, shards: seq<Shard>,
                    cuts: seq<nat>, pshards: seq<Pshard>,
                    k: nat, s: Shard, p: Pshard)
    requires PPieces(H, algo, zone, context, az, shards, cuts, pshards) && Closed(az, cuts, shards, k)
    requires |pshards| == |shards|
    requires cuts[|cuts| - 1] < k < |az| && Cuts(az, cuts + [k])
    requires p == Pshard(zone, context, s.from, s.to, algo, p.filter)
    requires SumsUp(H, algo, zone, context, az, cuts[|cuts| - 1], k, p.filter)
    ensures PPieces(H, algo, zone, context, az, shards + [s], cuts + [k], pshards + [p])
  {
    hide SumsUp, Piece, Cuts;
  }

  lemma SameHashed(H: Hasher, zone: string, context: string, a: Assertion, b: Assertion)
    requires a.name == b.name && a.content == b.content
    ensures Hashed(H, zone, context, a) <==> Hashed(H, zone, context, b)
  {
  }

  lemma SameAnswers(H: Hasher, algo: int, zone: string, context: string, a: Assertion, b: Assertion, bits: seq<bv8>)
    requires a.name == b.name && a.content == b.content
    ensures Answers(H, algo, zone, context, a, |a.content|, bits) <==>
      Answers(H, algo, zone, context, b, |b.content|, bits)
  {
  }

  lemma SameAddsOnly(H: Hasher, algo: int, zone: string, context: string, a: Assertion, b: Assertion,
                     before: seq<bv8>, after: seq<bv8>)
    requires a.name == b.name && a.content == b.content
    requires AddsOnly(H, algo, zone, context, a, |a.content|, before, after)
    ensures AddsOnly(H, algo, zone, context, b, |b.content|, before, after)
  {
    hide Index, IsSet, Block, NumberOfHashes;
    forall j: nat | Within(after, j) && IsSet(after, j) && !IsSet(before, j)
      ensures EntryBit(H, algo, zone, context, b, |b.content|, |after|, j)
    {
      assert EntryBit(H, algo, zone, context, a, |a.content|, |after|, j);
    }
  }

  /** The assertion under the cursor is given zone and context, added, and stripped again. */
  method AddAt(H: Hasher, algo: int, zone: string, context: string, filter: array<bv8>, az: array<Assertion>, k: nat)
    returns (ok: bool)
    requires k < az.Length && filter.Length > 0 && filter as object != az as object
    modifies filter, az
    ensures ok <==> Hashed(H, zone, context, old(az[k]))
    ensures Keeps(old(filter[..]), filter[..])
    ensures ok ==> Answers(H, algo, zone, context, old(az[k]), |old(az[k]).content|, filter[..])
    ensures ok ==> AddsOnly(H, algo, zone, context, old(az[k]), |old(az[k]).content|, old(filter[..]), filter[..])
    ensures ok ==> az[..] == old(az[..])[k := Bare(old(az[k]))]
  {
    hide Answers, Hashed, Keeps, AddsOnly;
    ghost var a, before := az[k], filter[..];
    az[k] := az[k].(zone := zone, context := context);
    ok := AddAssertion(H, algo, zone, context, "", "", filter, az[k]);
    SameHashed(H, zone, context, az[k], a);
    if !ok { return; }
    SameAnswers(H, algo, zone, context, az[k], a, filter[..]);
    SameAddsOnly(H, algo, zone, context, az[k], a, before, filter[..]);
    az[k] := az[k].(zone := "", context := "");
  }

  /** The pshards closed so far, and the one being filled; `shards` and `content` are what shards would hold. */
  ghost predicate Building(H: Hasher, algo: int, zone: string, context: string, az: seq<Assertion>, cuts: seq<nat>,
                           shards: seq<Shard>,
                           pshards: seq<Pshard>, content: seq<Assertion>, bits: seq<bv8>, prevShardName: string,
                             k: nat) {
    && Closed(az, cuts, shards, k) && |pshards| == |shards| &&
      PPieces(H, algo, zone, context, az, shards, cuts, pshards)
    && Copies(content, az, cuts[|cuts| - 1], k) && SumsUp(H, algo, zone, context, az, cuts[|cuts| - 1], k, bits)
    && prevShardName == From(az, cuts, |cuts| - 1)
  }

  lemma BuildStart(H: Hasher, algo: int, zone: string, context: string, az: seq<Assertion>, bits: seq<bv8>)
    requires Clear(bits)
    ensures Building(H, algo, zone, context, az, [0], [], [], [], bits, "", 0)
  {
  }

  lemma CutPshard(H: Hasher, algo: int, zone: string, context: string, az: seq<Assertion>, cuts: seq<nat>,
                  shards: seq<Shard>,
                  pshards: seq<Pshard>, k: nat, s: Shard, p: Pshard)
    requires Closed(az, cuts, shards, k) && |pshards| == |shards|
    requires PPieces(H, algo, zone, context, az, shards, cuts, pshards)
    requires Copies(s.content, az, cuts[|cuts| - 1], k)
    requires SumsUp(H, algo, zone, context, az, cuts[|cuts| - 1], k, p.filter)
    requires s.content != [] && 0 < k < |az| && az[k - 1].name != az[k].name
    requires s.from == From(az, cuts, |cuts| - 1) && s.to == az[k].name
    requires p == Pshard(zone, context, s.from, s.to, algo, p.filter)
    ensures Closed(az, cuts + [k], shards + [s], k) && From(az, cuts + [k], |cuts|) == az[k - 1].name
    ensures PPieces(H, algo, zone, context, az, shards + [s], cuts + [k], pshards + [p])
  {
    hide Copies, SumsUp, PPieces, Piece;
    LastCut(s.content, az, cuts[|cuts| - 1], k);
    CutsExtend(az, cuts, k);
    ClosePshard(H, algo, zone, context, az, shards, cuts, pshards, k, s, p);
    Close(az, cuts, shards, k, s);
  }

  lemma BuildCut(H: Hasher, algo: int, zone: string, context: string, az: seq<Assertion>, cuts: seq<nat>,
                 shards: seq<Shard>,
                 pshards: seq<Pshard>, content: seq<Assertion>, bits: seq<bv8>, clear: seq<bv8>, prevShardName: string,
                   k: nat)
    requires Building(H, algo, zone, context, az, cuts, shards, pshards, content, bits, prevShardName, k)
    requires content != [] && 0 < k < |az| && az[k - 1].name != az[k].name && Clear(clear)
    ensures Building(H, algo, zone, context, az, cuts + [k], shards +
      [Shard(zone, context, prevShardName, az[k].name, content)],
                     pshards + [Pshard(zone, context, prevShardName, az[k].name, algo, bits)], [], clear,
                       az[k - 1].name, k)
  {
    hide Copies, SumsUp, PPieces, Closed, Cuts, Clear;
    CutPshard(H, algo, zone, context, az, cuts, shards, pshards, k,
      Shard(zone, context, prevShardName, az[k].name, content),
              Pshard(zone, context, prevShardName, az[k].name, algo, bits));
    Nothing(az, k);
    StartSum(H, algo, zone, context, az, k, clear);
  }

  lemma LastCut(content: seq<Assertion>, az: seq<Assertion>, lo: nat, k: nat)
    requires Copies(content, az, lo, k)
    ensures |content| == k - lo
  {
  }

  lemma StartSum(H: Hasher, algo: int, zone: string, context: string, az: seq<Assertion>, k: nat, bits: seq<bv8>)
    requires k <= |az| && Clear(bits)
    ensures SumsUp(H, algo, zone, context, az, k, k, bits)
  {
  }

  lemma BuildAdd(H: Hasher, algo: int, zone: string, context: string, az: seq<Assertion>, cuts: seq<nat>,
                 shards: seq<Shard>,
                 pshards: seq<Pshard>, content: seq<Assertion>, before: seq<bv8>, after: seq<bv8>,
                   prevShardName: string, k: nat)
    requires Building(H, algo, zone, context, az, cuts, shards, pshards, content, before, prevShardName, k) && k < |az|
    requires Keeps(before, after) && Answers(H, algo, zone, context, az[k], |az[k].content|, after)
    requires AddsOnly(H, algo, zone, context, az[k], |az[k].content|, before, after)
    ensures Building(H, algo, zone, context, az, cuts, shards, pshards, content +
      [Bare(az[k])], after, prevShardName, k + 1)
  {
    hide SumsUp, PPieces, Keeps, Answers, AddsOnly, Copies, Cuts, Piece;
    GrowSum(H, algo, zone, context, az, cuts[|cuts| - 1], k, before, after);
    RunsGrow(content, az, cuts[|cuts| - 1], k);
  }

  lemma BuildRuns(H: Hasher, algo: int, zone: string, context: string, az: seq<Assertion>, cuts: seq<nat>,
                  shards: seq<Shard>, pshards: seq<Pshard>, content: seq<Assertion>, bits: seq<bv8>,
                  prevShardName: string, k: nat)
    requires Building(H, algo, zone, context, az, cuts, shards, pshards, content, bits, prevShardName, k) && k < |az|
    ensures Runs(content + [Bare(az[k])])
         == Runs(content) + if content == [] || k == 0 || az[k - 1].name != az[k].name then 1 else 0
  {
    hide SumsUp, PPieces, Cuts, Piece, Runs;
    LastCut(content, az, cuts[|cuts| - 1], k);
    RunsGrow(content, az, cuts[|cuts| - 1], k);
  }

  lemma BuildEnd(H: Hasher, algo: int, zone: string, context: string, az: seq<Assertion>, cuts: seq<nat>,
                 shards: seq<Shard>,
                 pshards: seq<Pshard>, content: seq<Assertion>, bits: seq<bv8>, prevShardName: string)
    requires Building(H, algo, zone, context, az, cuts, shards, pshards, content, bits, prevShardName, |az|)
    ensures var shards' := shards + [Shard(zone, context, prevShardName, "", content)];
      var pshards' := pshards + [Pshard(zone, context, prevShardName, "", algo, bits)];
      Pieces(az, cuts, shards') && |pshards'| == |shards'| &&
        PPieces(H, algo, zone, context, az, shards', cuts, pshards')
  {
    hide SumsUp, Copies;
    var s := Shard(zone, context, prevShardName, "", content);
    Finish(az, cuts, shards, s);
  }

  method GroupAssertionsToPshards(H: Hasher, algo: int, size: int, zone: string, context: string, az: array<Assertion>,
                                  n: int)
    returns (ok: bool, pshards: seq<Pshard>, ghost shards: seq<Shard>, ghost cuts: seq<nat>)
    requires n > 0 && size > 0
    modifies az
    ensures ok <==> forall k :: 0 <= k < az.Length ==> Hashed(H, zone, context, old(az[k]))
    ensures ok ==> Pieces(old(az[..]), cuts, shards) && |pshards| == |shards|
    ensures ok ==> PPieces(H, algo, zone, context, old(az[..]), shards, cuts, pshards)
    ensures ok ==> forall i :: 0 <= i < |pshards| ==> |pshards[i].filter| == FilterBytes(size)
    ensures ok && NonEmptyNames(old(az[..])) ==> Filled(shards, n)
    ensures ok ==> forall k :: 0 <= k < az.Length ==> az[k] == Bare(old(az[k]))
  {
    hide PPieces, Answers, AddsOnly, Hashed, Keeps, Building, Pieces, Clear, Runs;
    ghost var zs := az[..];
    pshards, shards, cuts := [], [], [0];
    ghost var content: seq<Assertion> := [];
    var nameCount, prevName, prevShardName := 0, "", "";
    var filter := new bv8[FilterBytes(size)](_ => 0);
    ZeroIsClear(filter[..]);
    BuildStart(H, algo, zone, context, zs, filter[..]);
    Nothing(zs, 0);
    for k := 0 to az.Length
      invariant fresh(filter) && filter.Length == FilterBytes(size) > 0 && filter as object != az as object
      invariant forall j :: 0 <= j < k ==> az[j] == Bare(zs[j]) && Hashed(H, zone, context, zs[j])
      invariant forall j :: k <= j < az.Length ==> az[j] == zs[j]
      invariant Building(H, algo, zone, context, zs, cuts, shards, pshards, content, filter[..], prevShardName, k)
      invariant prevName == (if k == 0 then "" else zs[k - 1].name)
      invariant 0 <= nameCount <= n && (k == 0 ==> nameCount == 0) && (k > 0 ==> content != [])
      invariant forall i :: 0 <= i < |pshards| ==> |pshards[i].filter| == FilterBytes(size)
      invariant NonEmptyNames(zs) ==> nameCount == Runs(content)
      invariant NonEmptyNames(zs) ==> forall i :: 0 <= i < |shards| ==> Runs(shards[i].content) == n
    {
      var name := az[k].name;
      if prevName != name {
        nameCount := nameCount + 1;
        prevName := name;
      }
      if nameCount > n {
        ghost var bits := filter[..];
        pshards := pshards + [Pshard(zone, context, prevShardName, name, algo, filter[..])];
        nameCount := 1;
        filter := new bv8[FilterBytes(size)](_ => 0);
        ZeroIsClear(filter[..]);
        BuildCut(H, algo, zone, context, zs, cuts, shards, pshards[..|pshards| - 1], content, bits, filter[..],
          prevShardName, k);
        shards, cuts, content := shards + [Shard(zone, context, prevShardName, name, content)], cuts + [k], [];
        prevShardName := az[k - 1].name;
        Nothing(zs, k);
      }
      ghost var before := filter[..];
      var added := AddAt(H, algo, zone, context, filter, az, k);
      if !added {
        ok := false;
        return;
      }
      BuildAdd(H, algo, zone, context, zs, cuts, shards, pshards, content, before, filter[..], prevShardName, k);
      BuildRuns(H, algo, zone, context, zs, cuts, shards, pshards, content, before, prevShardName, k);
      content := content + [Bare(zs[k])];
    }
    BuildEnd(H, algo, zone, context, zs, cuts, shards, pshards, content, filter[..], prevShardName);
    pshards := pshards + [Pshard(zone, context, prevShardName, "", algo, filter[..])];
    shards := shards + [Shard(zone, context, prevShardName, "", content)];
    ok := true;
  }

  /** No false negatives: a pshard whose range holds a name of the zone says "maybe" to each of its types. */
  lemma NoFalseNegatives(H: Hasher, algo: int, zone: string, context: string, az: seq<Assertion>, shards: seq<Shard>,
                         cuts: seq<nat>,
                         pshards: seq<Pshard>, i: nat, k: nat, j: nat)
    requires Sorted(az) && NonEmptyNames(az) && Pieces(az, cuts, shards) && |pshards| == |shards|
    requires PPieces(H, algo, zone, context, az, shards, cuts, pshards)
    requires i < |pshards| && k < |az| && j < |az[k].content| && InPRange(pshards[i].from, pshards[i].to, az[k].name)
    ensures H(az[k].name, zone, context, az[k].content[j].kind).Some?
    ensures Maybe(pshards[i].filter, H(az[k].name, zone, context, az[k].content[j].kind).value, pshards[i].algo)
  {
    PRangeIsOpen(pshards[i].from, pshards[i].to, az[k].name);
    PieceAt(az, cuts, shards, i);
    hide InPRange, InOpen, Maybe, Sorted, NonEmptyNames, Pieces, Copies, OnlyOf;
    InRangeIffInPiece(az, cuts, i, k);
  }

  /** An entry one of whose bits belongs to nothing in the piece. */
  ghost predicate Strange(H: Hasher, algo: int, zone: string, context: string, az: seq<Assertion>, lo: nat, hi: nat,
                          len: nat, h: (nat, nat)) {
    hi <= |az| && len > 0 && exists q: nat ::
      && 1 <= q <= NumberOfHashes(algo)
      && forall k :: lo <= k < hi ==>
           !EntryBit(H, algo, zone, context, az[k], |az[k].content|, len, Index(h, q, len))
  }

  /** A pshard answers "no" to every entry with a bit that no name and type of its own piece has, and to no other. */
  lemma StrangersAreDenied(H: Hasher, algo: int, zone: string, context: string, az: seq<Assertion>,
                           shards: seq<Shard>, cuts: seq<nat>, pshards: seq<Pshard>, i: nat, h: (nat, nat))
    requires PPieces(H, algo, zone, context, az, shards, cuts, pshards) && i < |pshards|
    requires |pshards[i].filter| > 0
    ensures var bits := pshards[i].filter;
      !Maybe(bits, h, algo) <==> Strange(H, algo, zone, context, az, cuts[i], End(az, cuts, i), |bits|, h)
  {
    var bits, lo, hi := pshards[i].filter, cuts[i], End(az, cuts, i);
    assert SumsUp(H, algo, zone, context, az, lo, hi, bits);
    hide PPieces, IsSet, Block, Index, NumberOfHashes, EntryBit, Cuts, AnswersAll;
    if Strange(H, algo, zone, context, az, lo, hi, |bits|, h) {
      var q: nat :| 1 <= q <= NumberOfHashes(algo) && forall k :: lo <= k < hi ==>
        !EntryBit(H, algo, zone, context, az[k], |az[k].content|, |bits|, Index(h, q, |bits|));
      assert !Probe(bits, h, q);
    }
    if !Maybe(bits, h, algo) {
      var q: nat :| 1 <= q <= NumberOfHashes(algo) && !Probe(bits, h, q);
      IndexWithin(bits, h, q);
      forall k | lo <= k < hi
        ensures !EntryBit(H, algo, zone, context, az[k], |az[k].content|, |bits|, Index(h, q, |bits|))
      {
        if EntryBit(H, algo, zone, context, az[k], |az[k].content|, |bits|, Index(h, q, |bits|)) {
          EntryBitIsSet(H, algo, zone, context, az, lo, hi, bits, k, Index(h, q, |bits|));
        }
      }
    }
  }

  lemma EntryBitIsSet(H: Hasher, algo: int, zone: string, context: string, az: seq<Assertion>, lo: nat, hi: nat,
                      bits: seq<bv8>, k: nat, j: nat)
    requires AnswersAll(H, algo, zone, context, az, lo, hi, bits) && lo <= k < hi
    requires EntryBit(H, algo, zone, context, az[k], |az[k].content|, |bits|, j)
    ensures Within(bits, j) && IsSet(bits, j)
  {
    hide Index, IsSet, Block, NumberOfHashes;
    var a := az[k];
    assert Answers(H, algo, zone, context, a, |a.content|, bits);
    var m, i: nat :| 0 <= m < |a.content| && 1 <= i <= NumberOfHashes(algo)
      && H(a.name, zone, context, a.content[m].kind).Some?
      && Index(H(a.name, zone, context, a.content[m].kind).value, i, |bits|) == j;
    assert Probe(bits, H(a.name, zone, context, a.content[m].kind).value, i);
  }
}
