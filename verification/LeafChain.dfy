/** The content list of a delegation status accumulator: intervals between neighbouring delegated
    zones, from minus infinity to plus infinity.
 */
module LeafChain {
  import opened Names

  datatype LeafType = Smallest | Existing | Greatest

  datatype LeafZone = LeafZone(zone: string, alv: nat, zoneType: LeafType)

  datatype LeafContent = LeafContent(start: LeafZone, end: LeafZone)

  const NegInf := LeafZone("", 0, Smallest)
  const PosInf := LeafZone("", 0, Greatest)
  const Total := LeafContent(NegInf, PosInf)

  /** The guard of the insertion loop: `c` starts at a delegated zone that comes after `z`. */
  predicate StartsAfter(c: LeafContent, z: LeafZone) {
    Less(z.zone, c.start.zone) && c.start.zoneType == Existing
  }

  /** Splitting, at `z`, the interval in front of the first one that starts after `z`. */
  function Split(c: seq<LeafContent>, z: LeafZone): (r: seq<LeafContent>)
    requires c != []
    ensures |r| == |c| + 1
  {
    if |c| == 1 then
      [c[0].(end := z), LeafContent(z, PosInf)]
    else if StartsAfter(c[1], z) then
      [c[0].(end := z), LeafContent(z, c[1].start)] + c[1..]
    else
      [c[0]] + Split(c[1..], z)
  }

  function Insert(c: seq<LeafContent>, z: LeafZone): seq<LeafContent> {
    if |c| <= 1 then c + [LeafContent(NegInf, z), LeafContent(z, PosInf)] else Split(c, z)
  }

  /** The loop over the slice, which is shifted by one place and has two of its cells overwritten.
      A zone in front of the first interval would index the slice at -1, so the source demands that
      this does not happen. */
  method InsertNewDSLeafZone(content: seq<LeafContent>, zone: LeafZone) returns (c: seq<LeafContent>)
    requires |content| <= 1 || !StartsAfter(content[0], zone)
    ensures c == Insert(content, zone)
  {
    c := content;
    if |c| <= 1 {
      c := c + [LeafContent(NegInf, zone)];
      c := c + [LeafContent(zone, PosInf)];
      return;
    }
    var i := 0;
    while true
      invariant 0 <= i < |content| && c == content
      invariant i > 0 ==> Split(content, zone) == content[..i-1] + Split(content[i-1..], zone)
      decreases |content| - i
    {
      if StartsAfter(c[i], zone) {
        SplitHere(content, zone, i);
        hide Split;
        var elemGreater := c[i].start;
        c := c[..i+1] + c[i..];
        c := c[i := LeafContent(zone, elemGreater)];
        c := c[i-1 := c[i-1].(end := zone)];
        return;
      }
      if i > 0 { SplitLater(content, zone, i); }
      if i == |c| - 1 {
        SplitLast(content, zone);
        hide Split;
        c := c + [LeafContent(zone, PosInf)];
        c := c[|c|-2 := c[|c|-2].(end := zone)];
        return;
      }
      i := i + 1;
    }
  }

  lemma SplitHere(c: seq<LeafContent>, z: LeafZone, i: nat)
    requires 0 < i < |c| && StartsAfter(c[i], z)
    ensures Split(c[i-1..], z) == [c[i-1].(end := z), LeafContent(z, c[i].start)] + c[i..]
  {
    assert c[i-1..][1..] == c[i..];
  }

  lemma SplitLater(c: seq<LeafContent>, z: LeafZone, i: nat)
    requires 0 < i < |c| && !StartsAfter(c[i], z)
    ensures c[..i-1] + Split(c[i-1..], z) == c[..i] + Split(c[i..], z)
  {
    assert c[i-1..][1..] == c[i..];
    assert c[..i-1] + [c[i-1]] == c[..i];
    Associate(c[..i-1], [c[i-1]], Split(c[i..], z));
  }

  lemma SplitLast(c: seq<LeafContent>, z: LeafZone)
    requires c != []
    ensures Split(c[|c|-1..], z) == [c[|c|-1].(end := z), LeafContent(z, PosInf)]
  {
  }

  /** What a content list looks like: an optional leading total interval, which the accumulator of a
      freshly delegated zone has, and then the intervals between the delegated zones. */
  function Chain(from: LeafZone, zs: seq<LeafZone>): (r: seq<LeafContent>)
    ensures |r| == |zs| + 1 && r[0].start == from
    decreases zs
  {
    if zs == [] then [LeafContent(from, PosInf)] else [LeafContent(from, zs[0])] + Chain(zs[0], zs[1..])
  }

  function LeafList(lead: bool, zs: seq<LeafZone>): seq<LeafContent> {
    (if lead then [Total] else []) + (if zs == [] then [] else Chain(NegInf, zs))
  }

  ghost predicate AllExisting(zs: seq<LeafZone>) {
    forall i :: 0 <= i < |zs| ==> zs[i].zoneType == Existing
  }

  ghost predicate Sorted(zs: seq<LeafZone>) {
    forall i, j :: 0 <= i < j < |zs| ==> !Less(zs[j].zone, zs[i].zone)
  }

  ghost predicate StrictlySorted(zs: seq<LeafZone>) {
    forall i, j :: 0 <= i < j < |zs| ==> Less(zs[i].zone, zs[j].zone)
  }

  ghost predicate DistinctNames(zs: seq<LeafZone>) {
    forall i, j :: 0 <= i < j < |zs| ==> zs[i].zone != zs[j].zone
  }

  function ZoneNames(zs: seq<LeafZone>): set<string> {
    set z | z in zs :: z.zone
  }

  /** `z` put behind everything that is not after it. */
  function Placed(zs: seq<LeafZone>, z: LeafZone): seq<LeafZone> {
    if zs == [] || Less(z.zone, zs[0].zone) then [z] + zs else [zs[0]] + Placed(zs[1..], z)
  }

  lemma {:induction false} PlacedIsInsertion(zs: seq<LeafZone>, z: LeafZone)
    ensures multiset(Placed(zs, z)) == multiset(zs) + multiset{z}
  {
    if zs != [] && !Less(z.zone, zs[0].zone) {
      PlacedIsInsertion(zs[1..], z);
      assert zs == [zs[0]] + zs[1..];
    }
  }

  lemma {:induction false} PlacedKeepsOrder(zs: seq<LeafZone>, z: LeafZone)
    requires Sorted(zs)
    ensures Sorted(Placed(zs, z))
  {
    var r := Placed(zs, z);
    if zs == [] {
    } else if Less(z.zone, zs[0].zone) {
      forall j | 0 <= j < |zs| ensures !Less(zs[j].zone, z.zone) {
        if Less(zs[j].zone, z.zone) {
          LessTransitive(zs[j].zone, z.zone, zs[0].zone);
          LessIrreflexive(zs[0].zone);
        }
      }
    } else {
      PlacedKeepsOrder(zs[1..], z);
      PlacedIsInsertion(zs[1..], z);
      forall j | 1 <= j < |r| ensures !Less(r[j].zone, zs[0].zone) {
        assert r[j] in multiset(Placed(zs[1..], z));
        assert r[j] == z || r[j] in zs[1..];
      }
    }
  }

  lemma PlacedMembers(zs: seq<LeafZone>, z: LeafZone)
    ensures forall x :: x in Placed(zs, z) <==> x in zs || x == z
    ensures ZoneNames(Placed(zs, z)) == ZoneNames(zs) + {z.zone}
    ensures AllExisting(zs) && z.zoneType == Existing ==> AllExisting(Placed(zs, z))
  {
    PlacedIsInsertion(zs, z);
    var r := Placed(zs, z);
    forall x ensures x in r <==> x in zs || x == z {
      assert x in r <==> x in multiset(r);
    }
    assert z in r;
    forall i | 0 <= i < |r| && AllExisting(zs) && z.zoneType == Existing
      ensures r[i].zoneType == Existing
    {
      assert r[i] in r;
    }
  }

  lemma {:induction false} SplitKeepsChain(from: LeafZone, zs: seq<LeafZone>, z: LeafZone)
    requires AllExisting(zs)
    ensures Split(Chain(from, zs), z) == Chain(from, Placed(zs, z))
    decreases zs
  {
    if zs != [] {
      assert Chain(from, zs)[1..] == Chain(zs[0], zs[1..]);
      if !Less(z.zone, zs[0].zone) {
        SplitKeepsChain(zs[0], zs[1..], z);
        assert Placed(zs, z)[1..] == Placed(zs[1..], z);
      } else {
        assert ([z] + zs)[1..] == zs;
      }
    }
  }

  /** Inserting into the list form gives the list form with the new zone in place: the chain is never
      broken and the leading total interval, if any, is never touched. */
  lemma InsertKeepsChain(lead: bool, zs: seq<LeafZone>, z: LeafZone)
    requires AllExisting(zs)
    ensures |LeafList(lead, zs)| <= 1 || !StartsAfter(LeafList(lead, zs)[0], z)
    ensures Insert(LeafList(lead, zs), z) == LeafList(lead, Placed(zs, z))
  {
    var c := LeafList(lead, zs);
    if zs == [] {
      assert Chain(NegInf, [z]) == [LeafContent(NegInf, z), LeafContent(z, PosInf)];
    } else {
      SplitKeepsChain(NegInf, zs, z);
      assert c == if lead then [Total] + Chain(NegInf, zs) else Chain(NegInf, zs);
      assert lead ==> c[1..] == Chain(NegInf, zs);
    }
  }

  /** Any run of insertions. */
  function InsertAll(c: seq<LeafContent>, zones: seq<LeafZone>): (r: Option<seq<LeafContent>>)
    decreases zones
  {
    if zones == [] then Some(c)
    else if |c| > 1 && StartsAfter(c[0], zones[0]) then None
    else InsertAll(Insert(c, zones[0]), zones[1..])
  }

  function PlacedAll(zs: seq<LeafZone>, zones: seq<LeafZone>): seq<LeafZone>
    decreases zones
  {
    if zones == [] then zs else PlacedAll(Placed(zs, zones[0]), zones[1..])
  }

  lemma {:induction false} RunFrom(lead: bool, zs: seq<LeafZone>, zones: seq<LeafZone>)
    requires Sorted(zs) && AllExisting(zs) && AllExisting(zones)
    ensures InsertAll(LeafList(lead, zs), zones) == Some(LeafList(lead, PlacedAll(zs, zones)))
    ensures Sorted(PlacedAll(zs, zones)) && AllExisting(PlacedAll(zs, zones))
    ensures multiset(PlacedAll(zs, zones)) == multiset(zs) + multiset(zones)
    decreases zones
  {
    if zones != [] {
      InsertKeepsChain(lead, zs, zones[0]);
      PlacedKeepsOrder(zs, zones[0]);
      PlacedIsInsertion(zs, zones[0]);
      PlacedMembers(zs, zones[0]);
      RunFrom(lead, Placed(zs, zones[0]), zones[1..]);
      assert zones == [zones[0]] + zones[1..];
    }
  }

  /** Every run of insertions from {} or {(-inf,+inf)} yields the optional total interval followed by
      the chain through the inserted zones in name order, each exactly as often as it was inserted;
      the chain is strict exactly when no name was inserted twice. */
  lemma InsertionRuns(lead: bool, zones: seq<LeafZone>) returns (zs: seq<LeafZone>)
    requires AllExisting(zones)
    ensures InsertAll(if lead then [Total] else [], zones) == Some(LeafList(lead, zs))
    ensures Sorted(zs) && multiset(zs) == multiset(zones)
    ensures StrictlySorted(zs) <==> DistinctNames(zones)
  {
    zs := PlacedAll([], zones);
    assert LeafList(lead, []) == if lead then [Total] else [];
    RunFrom(lead, [], zones);
    if !StrictlySorted(zs) {
      var i, j :| 0 <= i < j < |zs| && !Less(zs[i].zone, zs[j].zone);
      LessTotal(zs[i].zone, zs[j].zone);
      DuplicateTransfers(zs, zones, i, j);
    }
    if !DistinctNames(zones) {
      var i, j :| 0 <= i < j < |zones| && zones[i].zone == zones[j].zone;
      DuplicateTransfers(zones, zs, i, j);
    }
  }

  /** A repeated name in one list is a repeated name in every permutation of it. */
  lemma DuplicateTransfers(s: seq<LeafZone>, t: seq<LeafZone>, i: nat, j: nat)
    requires i < j < |s| && s[i].zone == s[j].zone
    requires multiset(s) == multiset(t)
    ensures !DistinctNames(t)
  {
    assert multiset{s[i], s[j]} <= multiset(s) by {
      assert s == s[..i] + [s[i]] + s[i+1..j] + [s[j]] + s[j+1..];
    }
    if s[i] == s[j] {
      SecondOccurrence(t, s[i]);
    } else {
      assert s[i] in multiset(t) && s[j] in multiset(t);
      var a :| 0 <= a < |t| && t[a] == s[i];
      var b :| 0 <= b < |t| && t[b] == s[j];
      assert a < b || b < a;
    }
  }

  lemma {:induction false} SecondOccurrence(t: seq<LeafZone>, x: LeafZone)
    requires multiset(t)[x] >= 2
    ensures !DistinctNames(t)
  {
    assert t == [t[0]] + t[1..];
    if t[0] == x {
      assert x in multiset(t[1..]);
      var b :| 1 <= b < |t| && t[b] == x;
    } else {
      SecondOccurrence(t[1..], x);
      var i, j :| 0 <= i < j < |t[1..]| && t[1..][i].zone == t[1..][j].zone;
      assert t[i+1].zone == t[j+1].zone;
    }
  }
}
