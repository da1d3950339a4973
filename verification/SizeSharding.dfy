/** Grouping by encoded size: names are added to a shard while the shard, measured with open ranges, fits.
 */
module SizeSharding {
  import opened Names
  import opened Shards
  import opened Sharding

  /** All assertions of one name, as bare copies of az[lo..hi]. */
  ghost predicate NameGroup(az: seq<Assertion>, lo: nat, hi: nat, group: seq<Assertion>) {
    && lo < hi <= |az| && Copies(group, az, lo, hi)
    && (forall k :: lo <= k < hi ==> az[k].name == az[lo].name)
    && (lo > 0 ==> az[lo - 1].name != az[lo].name)
    && (hi < |az| ==> az[hi].name != az[lo].name)
  }

  ghost predicate Groups(az: seq<Assertion>, starts: seq<nat>, groups: seq<seq<Assertion>>) {
    && |starts| == |groups| + 1 && starts[0] == 0 && starts[|groups|] == |az|
    && forall g :: 0 <= g < |groups| ==> NameGroup(az, starts[g], starts[g + 1], groups[g])
  }

  method GroupAssertionByName(az: seq<Assertion>) returns (groups: seq<seq<Assertion>>)
    ensures exists starts :: Groups(az, starts, groups)
  {
    groups := [];
    ghost var starts := [0];
    var i := 0;
    while i < |az|
      invariant i <= |az| && |starts| == |groups| + 1 && starts[0] == 0 && starts[|groups|] == i
      invariant forall g :: 0 <= g < |groups| ==> NameGroup(az, starts[g], starts[g + 1], groups[g])
      invariant 0 < i < |az| ==> az[i - 1].name != az[i].name
    {
      var sameName, next := OneGroup(az, i);
      groups := groups + [sameName];
      starts := starts + [next];
      i := next;
    }
    assert Groups(az, starts, groups);
  }

  /** The inner loop: collect assertions while the name stays. */
  method OneGroup(az: seq<Assertion>, lo: nat) returns (group: seq<Assertion>, i: nat)
    requires lo < |az| && (lo > 0 ==> az[lo - 1].name != az[lo].name)
    ensures NameGroup(az, lo, i, group) && lo < i <= |az|
  {
    group := [Bare(az[lo])];
    var name := az[lo].name;
    i := lo + 1;
    while i < |az| && az[i].name == name
      invariant lo < i <= |az| && Copies(group, az, lo, i)
      invariant forall k :: lo <= k < i ==> az[k].name == name
    {
      group := group + [Bare(az[i])];
      i := i + 1;
    }
  }

  // ---- the size rule ----

  /** The length of an encoded section. */
  type Encoder = Shard -> nat

  function Measure(enc: Encoder, zone: string, context: string, content: seq<Assertion>): nat {
    enc(Shard(zone, context, "", "", content))
  }

  /** The assertions of the first name. */
  function LeadingRun(az: seq<Assertion>): seq<Assertion> {
    if |az| <= 1 then az
    else if az[|az| - 1].name == az[0].name && LeadingRun(az[..|az| - 1]) == az[..|az| - 1] then az
    else LeadingRun(az[..|az| - 1])
  }

  /** Every shard fits as measured, and none could have taken the next name as well. */
  ghost predicate Packed(enc: Encoder, zone: string, context: string, max: int, shards: seq<Shard>) {
    && (forall i :: 0 <= i < |shards| && shards[i].content != [] ==>
      Measure(enc, zone, context, shards[i].content) <= max)
    && (forall i :: 0 <= i < |shards| - 1 ==>
          Measure(enc, zone, context, shards[i].content + LeadingRun(shards[i + 1].content)) > max)
  }

  lemma {:induction false} RunOfGroup(az: seq<Assertion>)
    requires forall k :: 0 <= k < |az| ==> az[k].name == az[0].name
    ensures LeadingRun(az) == az
  {
    if |az| > 1 { RunOfGroup(az[..|az| - 1]); }
  }

  lemma {:induction false} RunStays(c: seq<Assertion>, d: seq<Assertion>)
    requires c != [] && d != [] && d[0].name != c[|c| - 1].name
    ensures LeadingRun(c + d) == LeadingRun(c)
  {
    var all := c + d;
    var init := all[..|all| - 1];
    if |d| == 1 {
      assert init == c;
      if LeadingRun(c) == c { RunIsOneName(c); }
    } else {
      assert init == c + d[..|d| - 1];
      RunStays(c, d[..|d| - 1]);
      RunIsPrefix(c);
    }
  }

  lemma {:induction false} RunIsPrefix(c: seq<Assertion>)
    ensures |LeadingRun(c)| <= |c|
  {
    if |c| > 1 { RunIsPrefix(c[..|c| - 1]); }
  }

  lemma {:induction false} RunIsOneName(c: seq<Assertion>)
    requires c != [] && LeadingRun(c) == c
    ensures c[|c| - 1].name == c[0].name
  {
    if |c| > 1 { RunIsPrefix(c[..|c| - 1]); }
  }

  /** The pieces closed so far, and the one being filled. */
  ghost predicate Packing(enc: Encoder, zone: string, context: string, max: int, shards: seq<Shard>,
                          content: seq<Assertion>) {
    && (forall i :: 0 <= i < |shards| ==>
      shards[i].content != [] && Measure(enc, zone, context, shards[i].content) <= max)
    && (content != [] ==> Measure(enc, zone, context, content) <= max)
    && (forall i :: 0 <= i < |shards| - 1 ==>
          Measure(enc, zone, context, shards[i].content + LeadingRun(shards[i + 1].content)) > max)
    && (shards != [] ==>
      content != [] && Measure(enc, zone, context, shards[|shards| - 1].content + LeadingRun(content)) > max)
  }

  /** A name whose assertions are too long by themselves. */
  ghost predicate TooLong(enc: Encoder, zone: string, context: string, max: int, az: seq<Assertion>) {
    exists lo, hi, group :: NameGroup(az, lo, hi, group) && Measure(enc, zone, context, group) > max
  }

  lemma GroupBounds(az: seq<Assertion>, starts: seq<nat>, groups: seq<seq<Assertion>>, g: nat)
    requires Groups(az, starts, groups) && g < |groups|
    ensures starts[g] < starts[g + 1] <= |az| && NameGroup(az, starts[g], starts[g + 1], groups[g])
    ensures groups[g] != [] && groups[g][0].name == az[starts[g]].name == az[starts[g + 1] - 1].name
    ensures starts[g] > 0 ==> az[starts[g] - 1].name != az[starts[g]].name
    ensures LeadingRun(groups[g]) == groups[g]
  {
    forall k | 0 <= k < |groups[g]| ensures groups[g][k].name == groups[g][0].name {
      assert az[starts[g] + k].name == az[starts[g]].name;
    }
    RunOfGroup(groups[g]);
  }

  lemma LastCopied(content: seq<Assertion>, az: seq<Assertion>, lo: nat, hi: nat)
    requires Copies(content, az, lo, hi)
    ensures |content| == hi - lo && (content != [] ==> content[|content| - 1].name == az[hi - 1].name)
  {
  }

  lemma TakeGroup(enc: Encoder, zone: string, context: string, max: int, shards: seq<Shard>, content: seq<Assertion>,
                  group: seq<Assertion>)
    requires Packing(enc, zone, context, max, shards, content)
    requires group != [] && (content != [] ==> group[0].name != content[|content| - 1].name)
    requires Measure(enc, zone, context, content + group) <= max
    ensures Packing(enc, zone, context, max, shards, content + group)
  {
    hide Measure;
    if content != [] { RunStays(content, group); }
  }

  lemma StartWith(enc: Encoder, zone: string, context: string, max: int, shards: seq<Shard>, shard: Shard,
                  group: seq<Assertion>)
    requires Packing(enc, zone, context, max, shards, shard.content) && shard.content != []
    requires group != [] && LeadingRun(group) == group && Measure(enc, zone, context, group) <= max
    requires Measure(enc, zone, context, shard.content + group) > max
    ensures Packing(enc, zone, context, max, shards + [shard], group)
  {
    hide Measure, LeadingRun;
  }

  lemma NothingPacked(enc: Encoder, zone: string, context: string, max: int)
    ensures Packing(enc, zone, context, max, [], [])
  {
  }

  lemma PackingEnds(enc: Encoder, zone: string, context: string, max: int, shards: seq<Shard>, last: Shard)
    requires Packing(enc, zone, context, max, shards, last.content)
    ensures Packed(enc, zone, context, max, shards + [last])
  {
    hide Measure, LeadingRun;
  }

  /** What fixes the result: the encoder, the names around, the limit and the assertions. */
  datatype Job = Job(enc: Encoder, zone: string, context: string, max: int, az: seq<Assertion>)

  /** The assertions in consecutive pieces of whole names, each as long as it can be. */
  ghost predicate Result(j: Job, cuts: seq<nat>, shards: seq<Shard>) {
    && Pieces(j.az, cuts, shards) && Packed(j.enc, j.zone, j.context, j.max, shards)
    && forall i :: 0 <= i < |shards| ==> shards[i].zone == j.zone && shards[i].context == j.context
  }

  /** The shards closed so far and the piece being filled, read up to `k`. */
  ghost predicate Filling(j: Job, cuts: seq<nat>, shards: seq<Shard>, content: seq<Assertion>, prev: string, k: nat) {
    && Closed(j.az, cuts, shards, k) && Copies(content, j.az, cuts[|cuts| - 1], k)
    && Packing(j.enc, j.zone, j.context, j.max, shards, content) && prev == From(j.az, cuts, |cuts| - 1)
    && forall i :: 0 <= i < |shards| ==> shards[i].zone == j.zone && shards[i].context == j.context
  }

  lemma NothingFilled(j: Job)
    ensures Filling(j, [0], [], [], "", 0)
  {
    Nothing(j.az, 0);
    NothingPacked(j.enc, j.zone, j.context, j.max);
  }

  /** The next name fits in as well. */
  lemma TakeName(j: Job, cuts: seq<nat>, shards: seq<Shard>, content: seq<Assertion>, prev: string,
                 starts: seq<nat>, groups: seq<seq<Assertion>>, g: nat)
    requires Groups(j.az, starts, groups) && g < |groups| && Filling(j, cuts, shards, content, prev, starts[g])
    requires Measure(j.enc, j.zone, j.context, content + groups[g]) <= j.max
    ensures Filling(j, cuts, shards, content + groups[g], prev, starts[g + 1])
  {
    GroupBounds(j.az, starts, groups, g);
    LastCopied(content, j.az, cuts[|cuts| - 1], starts[g]);
    hide Copies, Piece, LeadingRun, Measure, Packing, Groups;
    TakeGroup(j.enc, j.zone, j.context, j.max, shards, content, groups[g]);
    assert Copies(groups[g], j.az, starts[g], starts[g + 1]);
    CopiesJoin(content, groups[g], j.az, cuts[|cuts| - 1], starts[g], starts[g + 1]);
  }

  /** The next name starts a new shard. */
  lemma CutAtName(j: Job, cuts: seq<nat>, shards: seq<Shard>, content: seq<Assertion>, prev: string,
                  starts: seq<nat>, groups: seq<seq<Assertion>>, g: nat)
    requires Groups(j.az, starts, groups) && g < |groups| && Filling(j, cuts, shards, content, prev, starts[g])
    requires content != [] && Measure(j.enc, j.zone, j.context, content + groups[g]) > j.max
    requires Measure(j.enc, j.zone, j.context, groups[g]) <= j.max
    ensures g > 0 && groups[g] != [] && groups[g - 1] != []
    ensures Filling(j, cuts + [starts[g]], shards + [Shard(j.zone, j.context, prev, groups[g][0].name, content)],
      groups[g], groups[g - 1][0].name, starts[g + 1])
  {
    var k := starts[g];
    Neighbours(j.az, starts, groups, g, content, cuts[|cuts| - 1]);
    var shard := Shard(j.zone, j.context, prev, groups[g][0].name, content);
    hide Copies, Piece, LeadingRun, Measure, Packing, Groups, Closed, Cuts, From;
    StartWith(j.enc, j.zone, j.context, j.max, shards, shard, groups[g]);
    CutAt(j.az, cuts, shards, k, shard, starts[g + 1]);
  }

  /** Two groups side by side. */
  lemma Neighbours(az: seq<Assertion>, starts: seq<nat>, groups: seq<seq<Assertion>>, g: nat, content: seq<Assertion>,
                   lo: nat)
    requires Groups(az, starts, groups) && g < |groups| && Copies(content, az, lo, starts[g]) && content != []
    ensures lo < starts[g] < starts[g + 1] <= |az| && az[starts[g] - 1].name != az[starts[g]].name
    ensures g > 0 && groups[g] != [] && groups[g - 1] != [] && LeadingRun(groups[g]) == groups[g]
    ensures groups[g][0].name == az[starts[g]].name && groups[g - 1][0].name == az[starts[g] - 1].name
    ensures Copies(groups[g], az, starts[g], starts[g + 1])
  {
    GroupBounds(az, starts, groups, g);
    assert starts[g] > 0 && starts[0] == 0;
    GroupBounds(az, starts, groups, g - 1);
    hide LeadingRun;
  }

  lemma CutAt(az: seq<Assertion>, cuts: seq<nat>, shards: seq<Shard>, k: nat, s: Shard, n: nat)
    requires Closed(az, cuts, shards, k) && cuts[|cuts| - 1] < k < n <= |az| && az[k - 1].name != az[k].name
    requires s.from == From(az, cuts, |cuts| - 1) && s.to == az[k].name && Copies(s.content, az, cuts[|cuts| - 1], k)
    ensures Closed(az, cuts + [k], shards + [s], n) && Cuts(az, cuts + [k])
    ensures From(az, cuts + [k], |cuts|) == az[k - 1].name
  {
    hide Copies, Piece;
    Close(az, cuts, shards, k, s);
    StillClosed(az, cuts + [k], shards + [s], k, n);
  }

  lemma StillClosed(az: seq<Assertion>, cuts: seq<nat>, shards: seq<Shard>, k: nat, n: nat)
    requires Closed(az, cuts, shards, k) && k <= n <= |az|
    ensures Closed(az, cuts, shards, n) && Cuts(az, cuts)
  {
  }

  lemma FillingEnds(j: Job, cuts: seq<nat>, shards: seq<Shard>, content: seq<Assertion>, prev: string)
    requires Filling(j, cuts, shards, content, prev, |j.az|)
    ensures Result(j, cuts, shards + [Shard(j.zone, j.context, prev, "", content)])
  {
    hide Copies, Piece, Packing, Packed;
    var last := Shard(j.zone, j.context, prev, "", content);
    Finish(j.az, cuts, shards, last);
    PackingEnds(j.enc, j.zone, j.context, j.max, shards, last);
  }

  method GroupAssertionsToShardsBySize(enc: Encoder, zone: string, context: string, az: seq<Assertion>, max: int)
    returns (ok: bool, shards: seq<Shard>, ghost cuts: seq<nat>)
    ensures ok ==> Result(Job(enc, zone, context, max, az), cuts, shards)
    ensures !ok ==> TooLong(enc, zone, context, max, az)
  {
    ghost var j := Job(enc, zone, context, max, az);
    shards := [];
    cuts := [0];
    ok := true;
    NothingFilled(j);
    var prevShardName := "";
    var content: seq<Assertion> := [];
    var groups := GroupAssertionByName(az);
    ghost var starts :| Groups(az, starts, groups);
    assert starts[0] == 0 && starts[|groups|] == |az|;
    hide Groups, Filling, Measure, NameGroup, LeadingRun;
    for g := 0 to |groups|
      invariant |starts| == |groups| + 1 && Groups(az, starts, groups)
      invariant Filling(j, cuts, shards, content, prevShardName, starts[g])
    {
      GroupBounds(az, starts, groups, g);
      var sameName := groups[g];
      if Measure(enc, zone, context, content + sameName) > max {
        if content == [] {
          assert content + sameName == sameName;
          ok := false;
          return;
        }
        var shard := Shard(zone, context, prevShardName, sameName[0].name, content);
        if Measure(enc, zone, context, sameName) > max {
          ok := false;
          return;
        }
        CutAtName(j, cuts, shards, content, prevShardName, starts, groups, g);
        shards := shards + [shard];
        cuts := cuts + [starts[g]];
        prevShardName := groups[g - 1][0].name;
        content := sameName;
      } else {
        TakeName(j, cuts, shards, content, prevShardName, starts, groups, g);
        content := content + sameName;
      }
    }
    FillingEnds(j, cuts, shards, content, prevShardName);
    shards := shards + [Shard(zone, context, prevShardName, "", content)];
  }

  // ---- when the rule can be met, and what it does not promise ----

  /** Adding assertions never makes a section shorter. */
  ghost predicate Monotone(enc: Encoder, zone: string, context: string) {
    forall c, d, e :: Measure(enc, zone, context, d) <= Measure(enc, zone, context, c + d + e)
  }

  /** With such an encoder a packing exists only if every name fits by itself; the grouping fails on no other input. */
  lemma PackedNeedsShortNames(enc: Encoder, zone: string, context: string, max: int, az: seq<Assertion>, cuts: seq<nat>,
                              shards: seq<Shard>)
    requires Monotone(enc, zone, context) && Pieces(az, cuts, shards) && Packed(enc, zone, context, max, shards)
    ensures !TooLong(enc, zone, context, max, az)
  {
    forall lo, hi, group | NameGroup(az, lo, hi, group) ensures Measure(enc, zone, context, group) <= max {
      var i := PieceOf(az, cuts, lo);
      PieceAt(az, cuts, shards, i);
      GroupInPiece(az, cuts, i, lo, hi, group);
      var content := shards[i].content;
      hide Monotone, Measure, Pieces, NameGroup, Cuts, From, To;
      SegmentFits(enc, zone, context, content, lo - cuts[i], hi - cuts[i], group, az, cuts[i], End(az, cuts, i));
    }
  }

  lemma GroupInPiece(az: seq<Assertion>, cuts: seq<nat>, i: nat, lo: nat, hi: nat, group: seq<Assertion>)
    requires Cuts(az, cuts) && i < |cuts| && cuts[i] <= lo < End(az, cuts, i) && NameGroup(az, lo, hi, group)
    ensures hi <= End(az, cuts, i)
  {
    if i + 1 < |cuts| && cuts[i + 1] < hi {
      assert false;
    }
  }

  lemma SegmentFits(enc: Encoder, zone: string, context: string, content: seq<Assertion>, from: nat, to: nat,
                    group: seq<Assertion>,
                    az: seq<Assertion>, lo: nat, hi: nat)
    requires Monotone(enc, zone, context) && Copies(content, az, lo, hi) && from <= to <= hi - lo
    requires Copies(group, az, lo + from, lo + to)
    ensures Measure(enc, zone, context, group) <= Measure(enc, zone, context, content)
  {
    hide Measure;
    assert group == content[from..to];
    assert content == content[..from] + content[from..to] + content[to..];
  }

  // ---- when the finished shards keep to the limit ----

  ghost predicate Boundary(az: seq<Assertion>, k: nat) {
    k <= |az| && (0 < k < |az| ==> az[k - 1].name != az[k].name)
  }

  ghost function Segment(az: seq<Assertion>, lo: nat, hi: nat): (content: seq<Assertion>)
    requires lo <= hi <= |az|
    ensures Copies(content, az, lo, hi)
  {
    seq(hi - lo, j requires 0 <= j < hi - lo => Bare(az[lo + j]))
  }

  /** Whole names that fit as measured, with open ranges. */
  ghost predicate Fits(j: Job, lo: nat, hi: nat) {
    && lo < hi <= |j.az| && Boundary(j.az, lo) && Boundary(j.az, hi)
    && Measure(j.enc, j.zone, j.context, Segment(j.az, lo, hi)) <= j.max
  }

  /** The same names with the neighbouring names as range ends. */
  ghost predicate FitsBounded(j: Job, lo: nat, hi: nat)
    requires lo <= hi <= |j.az|
  {
    var from, to := if lo == 0 then "" else j.az[lo - 1].name, if hi == |j.az| then "" else j.az[hi].name;
    j.enc(Shard(j.zone, j.context, from, to, Segment(j.az, lo, hi))) <= j.max
  }

  /** The longest run of whole names from `lo` that fits. */
  ghost predicate Longest(j: Job, lo: nat, hi: nat) {
    Fits(j, lo, hi) && forall k :: hi < k ==> !Fits(j, lo, k)
  }

  /** Longest runs one after the other, from the start. */
  ghost predicate Chain(j: Job, cuts: seq<nat>) {
    |cuts| > 0 && cuts[0] == 0 && forall i :: 0 < i < |cuts| ==> Longest(j, cuts[i - 1], cuts[i])
  }

  ghost predicate Reached(j: Job, lo: nat) {
    exists cuts :: Chain(j, cuts) && cuts[|cuts| - 1] == lo
  }

  /** Every run that packing from the start meets also fits with its bounds. */
  ghost predicate Roomy(j: Job) {
    forall lo, hi :: Reached(j, lo) && Longest(j, lo, hi) ==> FitsBounded(j, lo, hi)
  }

  lemma SegmentIs(az: seq<Assertion>, lo: nat, hi: nat, content: seq<Assertion>)
    requires Copies(content, az, lo, hi)
    ensures content == Segment(az, lo, hi)
  {
  }

  lemma LongerIsLarger(j: Job, lo: nat, hi: nat, k: nat)
    requires Monotone(j.enc, j.zone, j.context) && lo <= hi <= k <= |j.az|
    ensures Measure(j.enc, j.zone, j.context, Segment(j.az, lo, hi))
         <= Measure(j.enc, j.zone, j.context, Segment(j.az, lo, k))
  {
    hide Measure;
    var d, e := Segment(j.az, lo, hi), Segment(j.az, hi, k);
    assert Segment(j.az, lo, k) == [] + d + e;
  }

  lemma LongestIsOne(j: Job, lo: nat, hi: nat, k: nat)
    requires Longest(j, lo, hi) && Longest(j, lo, k)
    ensures hi == k
  {
  }

  /** The end of the first name of a piece. */
  lemma {:induction false} RunEnds(content: seq<Assertion>, n: nat)
    requires n == |LeadingRun(content)| && content != []
    ensures 0 < n <= |content| && LeadingRun(content) == content[..n]
    ensures forall i :: 0 <= i < n ==> content[i].name == content[0].name
    ensures n < |content| ==> content[n].name != content[0].name
  {
    if |content| > 1 {
      var init := content[..|content| - 1];
      RunEnds(init, |LeadingRun(init)|);
    }
  }

  /** Nothing that reaches beyond the piece fits: it would hold the piece and the next name. */
  lemma NoLonger(j: Job, cuts: seq<nat>, shards: seq<Shard>, i: nat, k: nat)
    requires Monotone(j.enc, j.zone, j.context) && Result(j, cuts, shards) && i + 1 < |cuts| && cuts[i + 1] < k
    ensures !Fits(j, cuts[i], k)
  {
    PieceAt(j.az, cuts, shards, i);
    PieceAt(j.az, cuts, shards, i + 1);
    var lo, hi, end := cuts[i], cuts[i + 1], End(j.az, cuts, i + 1);
    var next := shards[i + 1].content;
    if Fits(j, lo, k) {
      var n := |LeadingRun(next)|;
      RunEnds(next, n);
      NameIsWhole(j.az, hi, end, next, n, k);
      assert Segment(j.az, lo, hi + n) == shards[i].content + LeadingRun(next);
      LongerIsLarger(j, lo, hi + n, k);
    }
  }

  lemma NameIsWhole(az: seq<Assertion>, lo: nat, hi: nat, content: seq<Assertion>, n: nat, k: nat)
    requires Copies(content, az, lo, hi) && 0 < n <= |content| && Boundary(az, k) && lo < k
    requires forall i :: 0 <= i < n ==> content[i].name == content[0].name
    ensures lo + n <= k
  {
    forall m | lo < m < lo + n ensures az[m - 1].name == az[m].name {
      assert content[m - lo] == Bare(az[m]) && content[m - 1 - lo] == Bare(az[m - 1]);
    }
  }

  /** The pieces of a result are the longest runs, one after the other. */
  lemma PieceIsLongest(j: Job, cuts: seq<nat>, shards: seq<Shard>, i: nat)
    requires Monotone(j.enc, j.zone, j.context) && Result(j, cuts, shards) && i < |cuts| && j.az != []
    ensures Longest(j, cuts[i], End(j.az, cuts, i))
    ensures FitsBounded(j, cuts[i], End(j.az, cuts, i)) <==> j.enc(shards[i]) <= j.max
  {
    PieceAt(j.az, cuts, shards, i);
    var lo, hi := cuts[i], End(j.az, cuts, i);
    SegmentIs(j.az, lo, hi, shards[i].content);
    assert lo < hi && shards[i].content != [];
    assert Fits(j, lo, hi);
    forall k | hi < k ensures !Fits(j, lo, k) {
      if i + 1 < |cuts| { NoLonger(j, cuts, shards, i, k); }
    }
    assert shards[i] == Shard(j.zone, j.context, From(j.az, cuts, i), To(j.az, cuts, i), Segment(j.az, lo, hi));
  }

  lemma ResultIsChain(j: Job, cuts: seq<nat>, shards: seq<Shard>)
    requires Monotone(j.enc, j.zone, j.context) && Result(j, cuts, shards) && j.az != []
    ensures Chain(j, cuts) && Longest(j, cuts[|cuts| - 1], |j.az|)
  {
    hide Monotone, Packed, Longest, Piece;
    forall i | 0 <= i < |cuts| ensures Longest(j, cuts[i], End(j.az, cuts, i)) {
      PieceIsLongest(j, cuts, shards, i);
    }
  }

  /** Every chain is the start of the chain of the result. */
  lemma {:induction false} ChainIsPrefix(j: Job, cuts: seq<nat>, other: seq<nat>)
    requires Chain(j, cuts) && Longest(j, cuts[|cuts| - 1], |j.az|) && Chain(j, other)
    ensures if |other| <= |cuts| then other == cuts[..|other|] else |other| == |cuts| + 1 && other == cuts + [|j.az|]
    decreases |other|
  {
    var n := |other| - 1;
    if n > 0 {
      var init := other[..n];
      ChainIsPrefix(j, cuts, init);
      NothingBehind(j);
      hide Fits, Longest;
      assert Longest(j, other[n - 1], other[n]);
      assert other == init + [other[n]];
      if n < |cuts| {
        LongestIsOne(j, other[n - 1], other[n], cuts[n]);
      } else if n == |cuts| {
        LongestIsOne(j, other[n - 1], other[n], |j.az|);
      } else {
        assert false;
      }
    }
  }

  lemma NothingBehind(j: Job)
    ensures forall hi :: !Longest(j, |j.az|, hi)
  {
  }

  /** A finished grouping keeps to the limit, range ends included, exactly when every run that packing from the start
      meets fits with its neighbouring names as bounds. An empty zone gives one shard, which is never measured. */
  lemma FinishedFits(j: Job, cuts: seq<nat>, shards: seq<Shard>)
    requires Monotone(j.enc, j.zone, j.context) && Result(j, cuts, shards)
    ensures (forall i :: 0 <= i < |shards| ==> j.enc(shards[i]) <= j.max) <==>
      if j.az == [] then Measure(j.enc, j.zone, j.context, []) <= j.max else Roomy(j)
  {
    if j.az == [] {
      PieceAt(j.az, cuts, shards, 0);
      assert |cuts| == 1;
      assert shards[0] == Shard(j.zone, j.context, "", "", []);
    } else {
      ResultIsChain(j, cuts, shards);
      hide Monotone, Longest, Packed, Piece, FitsBounded;
      if Roomy(j) {
        forall i | 0 <= i < |shards| ensures j.enc(shards[i]) <= j.max {
          PieceIsLongest(j, cuts, shards, i);
          assert Chain(j, cuts[..i + 1]) && cuts[..i + 1][i] == cuts[i];
          assert Reached(j, cuts[i]);
        }
      }
      if forall i :: 0 <= i < |shards| ==> j.enc(shards[i]) <= j.max {
        forall lo, hi | Reached(j, lo) && Longest(j, lo, hi) ensures FitsBounded(j, lo, hi) {
          MetRunFits(j, cuts, shards, lo, hi);
        }
      }
    }
  }

  lemma MetRunFits(j: Job, cuts: seq<nat>, shards: seq<Shard>, lo: nat, hi: nat)
    requires Monotone(j.enc, j.zone, j.context) && Result(j, cuts, shards) && j.az != []
    requires Chain(j, cuts) && Longest(j, cuts[|cuts| - 1], |j.az|) && Reached(j, lo) && Longest(j, lo, hi)
    requires forall i :: 0 <= i < |shards| ==> j.enc(shards[i]) <= j.max
    ensures hi <= |j.az| && FitsBounded(j, lo, hi)
  {
    var other :| Chain(j, other) && other[|other| - 1] == lo;
    ChainIsPrefix(j, cuts, other);
    NothingBehind(j);
    var i := |other| - 1;
    assert cuts[i] == lo;
    PieceIsLongest(j, cuts, shards, i);
    LongestIsOne(j, lo, hi, End(j.az, cuts, i));
  }
}
