/** Grouping a zone's assertions into shards, by number of names and by encoded size.
 */
module Sharding {
  import opened Names
  import opened Shards

  // ---- counting names ----

  /** How many times the name changes, reading from the front; the number of names of a sorted list. */
  function Runs(az: seq<Assertion>): nat {
    var k := |az|;
    if k == 0 then 0
    else Runs(az[..k - 1]) + if k == 1 || az[k - 2].name != az[k - 1].name then 1 else 0
  }

  function NamesOf(az: seq<Assertion>): set<string> {
    set a | a in az :: a.name
  }

  lemma NewNameIsNew(az: seq<Assertion>, i: nat)
    requires Sorted(az) && i < |az| - 1 && az[|az| - 2].name != az[|az| - 1].name
    ensures az[i].name != az[|az| - 1].name
  {
    Order();
  }

  lemma OneMoreName(az: seq<Assertion>)
    requires az != []
    ensures NamesOf(az) == NamesOf(az[..|az| - 1]) + {az[|az| - 1].name}
  {
    assert az == az[..|az| - 1] + [az[|az| - 1]];
  }

  /** The last name is a new one exactly when it differs from the one before it. */
  lemma LastNameIsNew(az: seq<Assertion>)
    requires Sorted(az) && az != []
    ensures az[|az| - 1].name in NamesOf(az[..|az| - 1]) <==> |az| > 1 && az[|az| - 2].name == az[|az| - 1].name
  {
    var k := |az|;
    var init := az[..k - 1];
    hide Sorted;
    if k > 1 && az[k - 2].name == az[k - 1].name {
      assert init[k - 2] in init;
    } else {
      forall i | 0 <= i < |init| ensures init[i].name != az[k - 1].name {
        NewNameIsNew(az, i);
      }
    }
  }

  lemma {:induction false} RunsCountNames(az: seq<Assertion>)
    requires Sorted(az)
    ensures |NamesOf(az)| == Runs(az)
  {
    if az != [] {
      RunsCountNames(az[..|az| - 1]);
      hide Sorted, NamesOf;
      OneMoreName(az);
      LastNameIsNew(az);
    } else {
      assert NamesOf(az) == {};
    }
  }

  // ---- closing a piece ----

  /** The shards closed so far and the piece under construction, read up to `k`. */
  ghost predicate Closed(az: seq<Assertion>, cuts: seq<nat>, shards: seq<Shard>, k: nat) {
    && Cuts(az, cuts) && cuts[|cuts| - 1] <= k <= |az| && |shards| == |cuts| - 1
    && forall i :: 0 <= i < |shards| ==> Piece(az, cuts, i, shards[i])
  }

  lemma CutsExtend(az: seq<Assertion>, cuts: seq<nat>, k: nat)
    requires Cuts(az, cuts) && cuts[|cuts| - 1] < k < |az| && az[k - 1].name != az[k].name
    ensures Cuts(az, cuts + [k])
  {
  }

  lemma Close(az: seq<Assertion>, cuts: seq<nat>, shards: seq<Shard>, k: nat, s: Shard)
    requires Closed(az, cuts, shards, k) && cuts[|cuts| - 1] < k < |az| && az[k - 1].name != az[k].name
    requires s.from == From(az, cuts, |cuts| - 1) && s.to == az[k].name && Copies(s.content, az, cuts[|cuts| - 1], k)
    ensures Closed(az, cuts + [k], shards + [s], k)
  {
    CutsExtend(az, cuts, k);
    var more := cuts + [k];
    hide Cuts, Copies;
    forall i | 0 <= i < |shards| + 1 ensures Piece(az, more, i, (shards + [s])[i]) {
    }
  }

  lemma Finish(az: seq<Assertion>, cuts: seq<nat>, shards: seq<Shard>, s: Shard)
    requires Closed(az, cuts, shards, |az|)
    requires s.from == From(az, cuts, |cuts| - 1) && s.to == "" && Copies(s.content, az, cuts[|cuts| - 1], |az|)
    ensures Pieces(az, cuts, shards + [s])
  {
  }

  // ---- by number ----

  /** Every shard but the last holds `n` names, the last at most `n`. */
  ghost predicate Filled(shards: seq<Shard>, n: int) {
    && (forall i :: 0 <= i < |shards| - 1 ==> Runs(shards[i].content) == n)
    && (|shards| > 0 ==> Runs(shards[|shards| - 1].content) <= n)
  }

  lemma RunsGrow(content: seq<Assertion>, az: seq<Assertion>, lo: nat, k: nat)
    requires Copies(content, az, lo, k) && k < |az|
    ensures Copies(content + [Bare(az[k])], az, lo, k + 1)
    ensures Runs(content + [Bare(az[k])]) == Runs(content) + if lo == k || az[k - 1].name != az[k].name then 1 else 0
  {
    var more := content + [Bare(az[k])];
    assert more[..|more| - 1] == content;
  }

  lemma Nothing(az: seq<Assertion>, k: nat)
    requires k <= |az|
    ensures Copies([], az, k, k) && Runs([]) == 0
  {
  }

  method GroupAssertionsToShardsByNumber(zone: string, context: string, az: seq<Assertion>, n: int)
    returns (shards: seq<Shard>, ghost cuts: seq<nat>)
    requires n > 0
    ensures Pieces(az, cuts, shards)
    ensures forall i :: 0 <= i < |shards| ==> shards[i].zone == zone && shards[i].context == context
    ensures NonEmptyNames(az) ==> Filled(shards, n)
  {
    hide Copies, Piece, Runs;
    shards := [];
    cuts := [0];
    Nothing(az, 0);
    var nameCount := 0;
    var prevName := "";
    var prevShardName := "";
    var content: seq<Assertion> := [];
    for k := 0 to |az|
      invariant Closed(az, cuts, shards, k)
      invariant Copies(content, az, cuts[|cuts| - 1], k)
      invariant prevName == (if k == 0 then "" else az[k - 1].name)
      invariant prevShardName == From(az, cuts, |cuts| - 1)
      invariant 0 <= nameCount <= n && (k == 0 ==> nameCount == 0) && (k > 0 ==> cuts[|cuts| - 1] < k)
      invariant NonEmptyNames(az) ==> nameCount == Runs(content)
      invariant NonEmptyNames(az) ==> forall i :: 0 <= i < |shards| ==> Runs(shards[i].content) == n
      invariant forall i :: 0 <= i < |shards| ==> shards[i].zone == zone && shards[i].context == context
    {
      var a := az[k];
      if prevName != a.name {
        nameCount := nameCount + 1;
        prevName := a.name;
      }
      if nameCount > n {
        var shard := Shard(zone, context, prevShardName, a.name, content);
        Close(az, cuts, shards, k, shard);
        shards := shards + [shard];
        cuts := cuts + [k];
        nameCount := 1;
        content := [];
        Nothing(az, k);
        prevShardName := az[k - 1].name;
      }
      RunsGrow(content, az, cuts[|cuts| - 1], k);
      content := content + [Bare(a)];
    }
    var last := Shard(zone, context, prevShardName, "", content);
    Finish(az, cuts, shards, last);
    shards := shards + [last];
  }
}
