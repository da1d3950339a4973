/** Grouping by size with the zone file text as the measure: names are measured with open ranges, but the finished
    shards carry neighbouring names as range ends.
 */
module TextSharding {
  import opened Names
  import opened Shards
  import opened Sharding
  import opened SizeSharding
  import opened ShardText

  function TextLength(s: Shard): nat {
    |Text(s)|
  }

  /** Adding assertions never makes the text shorter. */
  lemma TextIsMonotone(zone: string, context: string)
    ensures Monotone(TextLength, zone, context)
  {
    hide ContentText;
    forall c, d, e ensures Measure(TextLength, zone, context, d) <= Measure(TextLength, zone, context, c + d + e) {
      ContentJoins(c + d, e);
      ContentJoins(c, d);
    }
  }

  /** The range ends come on top of the one character each that an open range takes. */
  lemma RangesCost(s: Shard)
    ensures TextLength(s) + 2
         == TextLength(s.(from := "", to := "")) + |RangeWord(s.from, "<")| + |RangeWord(s.to, ">")|
  {
    hide ContentText;
  }

  ghost function TextJob(zone: string, context: string, max: int, az: seq<Assertion>): Job {
    Job(TextLength, zone, context, max, az)
  }

  ghost function Excess(az: seq<Assertion>, lo: nat, hi: nat): int
    requires lo <= hi <= |az|
  {
    (if lo == 0 then 0 else |RangeWord(az[lo - 1].name, "<")| - 1)
    + if hi == |az| then 0 else |RangeWord(az[hi].name, ">")| - 1
  }

  /** What a run of names needs with its neighbours as bounds. */
  lemma BoundsCost(zone: string, context: string, max: int, az: seq<Assertion>, lo: nat, hi: nat)
    requires lo <= hi <= |az|
    ensures FitsBounded(TextJob(zone, context, max, az), lo, hi) <==>
      Measure(TextLength, zone, context, Segment(az, lo, hi)) + Excess(az, lo, hi) <= max
  {
    var from, to := if lo == 0 then "" else az[lo - 1].name, if hi == |az| then "" else az[hi].name;
    var s := Shard(zone, context, from, to, Segment(az, lo, hi));
    hide Segment, Text;
    RangesCost(s);
    assert s.(from := "", to := "") == Shard(zone, context, "", "", Segment(az, lo, hi));
  }

  /** For the text the grouping keeps to the limit, range ends included, exactly when each run that packing from the
      start meets has room for the names of its two neighbours, in place of "<" and ">". */
  lemma TextShardsFit(zone: string, context: string, max: int, az: seq<Assertion>, cuts: seq<nat>, shards: seq<Shard>)
    requires Result(TextJob(zone, context, max, az), cuts, shards)
    ensures (forall i :: 0 <= i < |shards| ==> TextLength(shards[i]) <= max) <==>
      var j := TextJob(zone, context, max, az);
      if az == [] then Measure(TextLength, zone, context, []) <= max
      else forall lo, hi :: Reached(j, lo) && Longest(j, lo, hi) ==>
        Measure(TextLength, zone, context, Segment(az, lo, hi)) + Excess(az, lo, hi) <= max
  {
    var j := TextJob(zone, context, max, az);
    TextIsMonotone(zone, context);
    FinishedFits(j, cuts, shards);
    hide Monotone, Result, Text, FitsBounded, Excess, Segment, Reached;
    forall lo, hi | Reached(j, lo) && Longest(j, lo, hi)
      ensures FitsBounded(j, lo, hi) <==>
        Measure(TextLength, zone, context, Segment(az, lo, hi)) + Excess(az, lo, hi) <= max
    {
      BoundsCost(zone, context, max, az, lo, hi);
    }
  }

  /** Names of one character leave nothing to chance. */
  lemma ShortNamesFit(zone: string, context: string, max: int, az: seq<Assertion>, cuts: seq<nat>, shards: seq<Shard>,
                      i: nat)
    requires Result(TextJob(zone, context, max, az), cuts, shards) && i < |shards| && az != []
    requires forall k :: 0 <= k < |az| ==> |az[k].name| == 1
    ensures TextLength(shards[i]) <= max
  {
    var j := TextJob(zone, context, max, az);
    TextIsMonotone(zone, context);
    PieceIsLongest(j, cuts, shards, i);
    hide Monotone, Result, Text, Segment;
    BoundsCost(zone, context, max, az, cuts[i], End(az, cuts, i));
  }

  const SAMPLE := [
    Assertion("aa", "z", "c", [Obj(3, "1.2.3.4")], None),
    Assertion("bb", "z", "c", [Obj(3, "1.2.3.4")], None)
  ]

  lemma SampleText(name: string)
    ensures |AssertionText(Assertion(name, "", "", [Obj(3, "1.2.3.4")], None), INDENT4, false)| == 32 + |name|
  {
    var os := [Obj(3, "1.2.3.4")];
    assert ObjectLines(os, "") == ["" + ObjectText(os[0])];
    assert |ObjectText(os[0])| == 19;
    assert |ObjectsText(os, "")| == 19;
  }

  lemma SampleLength(from: string, to: string, lo: nat, hi: nat)
    requires lo < hi <= 2
    ensures TextLength(Shard("z", "c", from, to, Segment(SAMPLE, lo, hi)))
         == 14 + |RangeWord(from, "<")| + |RangeWord(to, ">")| + 35 * (hi - lo)
  {
    SampleText("aa");
    SampleText("bb");
    hide AssertionText;
    var c := Segment(SAMPLE, lo, hi);
    assert c[..1][..0] == [] && ContentText([]) == "";
    assert |ContentText(c[..1])| == 35;
    assert hi - lo == 1 ==> c == c[..1];
    assert hi - lo == 2 ==> |ContentText(c)| == 70;
  }

  lemma SampleIsShort()
    ensures !TooLong(TextLength, "z", "c", 51, SAMPLE)
  {
    assert SAMPLE[1].name[0] != SAMPLE[0].name[0];
    forall lo, hi, group | NameGroup(SAMPLE, lo, hi, group) ensures Measure(TextLength, "z", "c", group) <= 51 {
      assert hi == lo + 1;
      SegmentIs(SAMPLE, lo, hi, group);
      hide Text;
      SampleLength("", "", lo, hi);
    }
  }

  lemma {:induction false} CutsGrow(az: seq<Assertion>, cuts: seq<nat>, i: nat)
    requires Cuts(az, cuts) && i < |cuts|
    ensures i <= cuts[i]
  {
    if i > 0 { CutsGrow(az, cuts, i - 1); }
  }

  lemma SampleIsCut(cuts: seq<nat>, shards: seq<Shard>)
    requires Result(TextJob("z", "c", 51, SAMPLE), cuts, shards)
    ensures |shards| == 2 && TextLength(shards[0]) == 52
  {
    PieceAt(SAMPLE, cuts, shards, 0);
    SegmentIs(SAMPLE, 0, End(SAMPLE, cuts, 0), shards[0].content);
    hide Text;
    SampleLength("", "", 0, 2);
    SampleLength("", "bb", 0, 1);
    CutsGrow(SAMPLE, cuts, |cuts| - 1);
  }

  /** Two addresses and a limit of 51 characters: each name alone is measured as 51, but the first finished shard says
      where the second begins and has 52. */
  method FinishedShardExceedsLimit() returns (shards: seq<Shard>)
    ensures |shards| == 2 && TextLength(shards[0]) == 52
  {
    var ok;
    ghost var cuts;
    SampleIsShort();
    ok, shards, cuts := GroupAssertionsToShardsBySize(TextLength, "z", "c", SAMPLE, 51);
    SampleIsCut(cuts, shards);
  }
}
