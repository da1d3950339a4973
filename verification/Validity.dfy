/** Validity windows: the union of signature windows, and the window a section gets from its checked signatures.
    Times are 64-bit integers, in seconds.
 */
module Validity {
  import opened Names

  datatype Window = Window(since: int, until: int)

  // ---- the union of signature windows ----

  /** Every instant between two seconds is in some window. */
  ghost predicate Covered(ws: seq<Window>, from: int, to: int) {
    forall t: real :: from as real <= t <= to as real ==> InSome(ws, t)
  }

  ghost predicate InSome(ws: seq<Window>, t: real) {
    exists i :: 0 <= i < |ws| && ws[i].since as real <= t <= ws[i].until as real
  }

  ghost predicate SortedBySince(ws: seq<Window>) {
    forall i, j :: 0 <= i < j < |ws| ==> ws[i].since <= ws[j].since
  }

  function MaxUntil(ws: seq<Window>): int
    requires ws != []
  {
    if |ws| == 1 then ws[0].until
    else
      var rest := MaxUntil(ws[..|ws| - 1]);
      if ws[|ws| - 1].until > rest then ws[|ws| - 1].until else rest
  }

  lemma {:induction false} MaxUntilIsMax(ws: seq<Window>)
    requires ws != []
    ensures forall i :: 0 <= i < |ws| ==> ws[i].until <= MaxUntil(ws)
    ensures exists i :: 0 <= i < |ws| && ws[i].until == MaxUntil(ws)
  {
    if |ws| > 1 {
      var init := ws[..|ws| - 1];
      MaxUntilIsMax(init);
      var i :| 0 <= i < |init| && init[i].until == MaxUntil(init);
      assert ws[i] == init[i];
      assert forall j :: 0 <= j < |init| ==> ws[j] == init[j];
      assert ws[|ws| - 1].until <= MaxUntil(ws);
      if MaxUntil(ws) != MaxUntil(init) { assert ws[|ws| - 1].until == MaxUntil(ws); }
    } else {
      assert ws[0].until == MaxUntil(ws);
    }
  }

  /** Some window starts after all earlier ones have ended. */
  ghost predicate GapBefore(ws: seq<Window>, i: nat) {
    0 < i < |ws| && MaxUntil(ws[..i]) < ws[i].since
  }

  ghost predicate HasGap(ws: seq<Window>) {
    exists i :: GapBefore(ws, i)
  }

  /** `bySince` is what sorting the windows by their start gives, in any order among equals. */
  method GetOverlapValidity(bySince: seq<Window>) returns (since: int, until: int)
    requires SortedBySince(bySince)
    ensures bySince == [] || HasGap(bySince) ==> since == until == 0
    ensures bySince != [] && !HasGap(bySince) ==> since == bySince[0].since && until == MaxUntil(bySince)
  {
    if bySince == [] { return 0, 0; }
    until := bySince[0].until;
    assert bySince[..1] == [bySince[0]];
    for i := 1 to |bySince|
      invariant until == MaxUntil(bySince[..i])
      invariant forall j :: 0 < j < i ==> !GapBefore(bySince, j)
    {
      if until < bySince[i].since {
        assert GapBefore(bySince, i);
        return 0, 0;
      }
      assert bySince[..i + 1][..i] == bySince[..i];
      if bySince[i].until > until {
        until := bySince[i].until;
      }
    }
    assert bySince[..|bySince|] == bySince;
    since := bySince[0].since;
  }

  /** Without a gap every instant of the result is covered, by whatever windows. */
  lemma {:induction false} NoGapCovers(ws: seq<Window>, n: nat, t: real)
    requires SortedBySince(ws) && 0 < n <= |ws| && !HasGap(ws)
    requires ws[0].since as real <= t <= MaxUntil(ws[..n]) as real
    ensures InSome(ws, t)
  {
    var last := ws[n - 1];
    if n == 1 {
      assert ws[..1] == [ws[0]];
    } else {
      assert ws[..n][..n - 1] == ws[..n - 1];
      if t <= MaxUntil(ws[..n - 1]) as real {
        NoGapCovers(ws, n - 1, t);
      } else {
        assert !GapBefore(ws, n - 1);
      }
    }
  }

  /** A gap inside the union: something starts later than the first window and something ends later than the gap
      opens. */
  ghost predicate InnerGap(ws: seq<Window>, i: nat) {
    && GapBefore(ws, i) && MaxUntil(ws[..i]) < MaxUntil(ws)
    && ws[0].since < ws[i].since && ws[0].since <= MaxUntil(ws)
  }

  /** An inner gap leaves some instant uncovered. */
  lemma InnerGapIsUncovered(ws: seq<Window>, i: nat)
    requires SortedBySince(ws) && InnerGap(ws, i)
    ensures !Covered(ws, ws[0].since, MaxUntil(ws))
  {
    var ended, first, last := MaxUntil(ws[..i]), ws[0].since, MaxUntil(ws);
    var close := if ws[i].since < last then ws[i].since else last;
    var t := if ended < first then first as real else (ended as real + close as real) / 2.0;
    MaxUntilIsMax(ws[..i]);
    forall j | 0 <= j < |ws| ensures !(ws[j].since as real <= t <= ws[j].until as real) {
      if j < i { assert ws[..i][j] == ws[j]; }
    }
    assert !InSome(ws, t);
  }

  /** An instant that is not covered lies in an inner gap. */
  lemma UncoveredIsInGap(ws: seq<Window>, t: real) returns (i: nat)
    requires SortedBySince(ws) && ws != [] && ws[0].since as real <= t <= MaxUntil(ws) as real && !InSome(ws, t)
    ensures InnerGap(ws, i)
  {
    i := 0;
    while i < |ws| && ws[i].since as real <= t
      invariant i <= |ws| && forall j :: 0 <= j < i ==> ws[j].since as real <= t
    {
      i := i + 1;
    }
    MaxUntilIsMax(ws);
    var latest :| 0 <= latest < |ws| && ws[latest].until == MaxUntil(ws);
    assert i < |ws|;
    MaxUntilIsMax(ws[..i]);
    var k :| 0 <= k < i && ws[..i][k].until == MaxUntil(ws[..i]);
    assert ws[k].since as real <= t && !(t <= ws[k].until as real);
  }

  /** The whole statement, for any windows: the union has an uncovered instant if and only if it has an inner gap; so
      the scan, which reports every gap, is right if and only if there is no gap or some gap is an inner one. */
  lemma OverlapIsExact(ws: seq<Window>)
    requires SortedBySince(ws) && ws != []
    ensures !Covered(ws, ws[0].since, MaxUntil(ws)) <==> exists i :: InnerGap(ws, i)
    ensures (HasGap(ws) <==> !Covered(ws, ws[0].since, MaxUntil(ws))) <==> !HasGap(ws) || exists i :: InnerGap(ws, i)
  {
    if !Covered(ws, ws[0].since, MaxUntil(ws)) {
      var t: real :| ws[0].since as real <= t <= MaxUntil(ws) as real && !InSome(ws, t);
      var i := UncoveredIsInGap(ws, t);
    }
    if i :| InnerGap(ws, i) {
      InnerGapIsUncovered(ws, i);
    }
  }

  lemma ForwardGapIsInner(ws: seq<Window>, i: nat)
    requires SortedBySince(ws) && GapBefore(ws, i) && ws[0].since <= ws[0].until && ws[i].since <= ws[i].until
    ensures InnerGap(ws, i)
  {
    MaxUntilIsMax(ws[..i]);
    MaxUntilIsMax(ws);
    assert ws[..i][0] == ws[0];
  }

  /** Windows that do not end before they start have inner gaps only, so for them the scan is always right. */
  lemma ForwardWindowsAreReportedRight(ws: seq<Window>)
    requires SortedBySince(ws) && ws != [] && forall j :: 0 <= j < |ws| ==> ws[j].since <= ws[j].until
    ensures HasGap(ws) <==> !Covered(ws, ws[0].since, MaxUntil(ws))
  {
    OverlapIsExact(ws);
    hide Covered;
    if HasGap(ws) {
      var i: nat :| GapBefore(ws, i);
      ForwardGapIsInner(ws, i);
    }
  }

  /** A window that ends before it starts can hide a covered union: as the first one, or as the last one. */
  lemma BackwardWindowHidesUnion()
    ensures var ws := [Window(10, 5), Window(10, 20)];
      SortedBySince(ws) && HasGap(ws) && Covered(ws, ws[0].since, MaxUntil(ws))
    ensures var ws := [Window(0, 5), Window(10, 3)];
      SortedBySince(ws) && HasGap(ws) && Covered(ws, ws[0].since, MaxUntil(ws))
  {
    var ws := [Window(10, 5), Window(10, 20)];
    var ws' := [Window(0, 5), Window(10, 3)];
    assert ws[..1] == [Window(10, 5)] && ws'[..1] == [Window(0, 5)];
    assert GapBefore(ws, 1) && GapBefore(ws', 1);
    assert MaxUntil(ws) == 20 && MaxUntil(ws') == 5;
    forall t: real | 10 as real <= t <= 20 as real ensures InSome(ws, t) {
      assert ws[1].since as real <= t <= ws[1].until as real;
    }
    forall t: real | 0 as real <= t <= 5 as real ensures InSome(ws', t) {
      assert ws'[0].since as real <= t <= ws'[0].until as real;
    }
  }

  // ---- the validity of a section ----

  /** Go's UpdateValidity, with `cap` for the latest time allowed, now plus the maximum validity; a start of zero
      counts as not set. */
  method UpdateValidity(since: int, until: int, oldSince: int, oldUntil: int, cap: int)
    returns (newSince: int, newUntil: int)
    ensures newSince == NextSince(oldSince, since, cap) && newUntil == NextUntil(oldUntil, until, cap)
  {
    newSince, newUntil := oldSince, oldUntil;
    if newSince == 0 {
      newSince := MAX64;
    }
    if since < newSince {
      if since > cap { newSince := cap; } else { newSince := since; }
    }
    if until > newUntil {
      if until > cap { newUntil := cap; } else { newUntil := until; }
    }
  }

  function Capped(x: int, cap: int): int {
    if x > cap then cap else x
  }

  function NextSince(old_: int, since: int, cap: int): int {
    if since < (if old_ == 0 then MAX64 else old_) then Capped(since, cap) else if old_ == 0 then MAX64 else old_
  }

  function NextUntil(old_: int, until: int, cap: int): int {
    if until > old_ then Capped(until, cap) else old_
  }

  /** The window left after updating with each window in turn, from unset. */
  function Since(ws: seq<Window>, cap: int): int {
    if ws == [] then 0 else NextSince(Since(ws[..|ws| - 1], cap), ws[|ws| - 1].since, cap)
  }

  function Until(ws: seq<Window>, cap: int): int {
    if ws == [] then 0 else NextUntil(Until(ws[..|ws| - 1], cap), ws[|ws| - 1].until, cap)
  }

  /** What a window contributes to the start; the largest time means never, and is not capped. */
  function Start(w: Window, cap: int): int {
    if w.since >= MAX64 then MAX64 else Capped(w.since, cap)
  }

  ghost predicate IsMin(m: int, ws: seq<Window>, cap: int) {
    (exists i :: 0 <= i < |ws| && Start(ws[i], cap) == m) && forall i :: 0 <= i < |ws| ==> m <= Start(ws[i], cap)
  }

  /** The end is the latest of the capped ends, and never before the epoch. */
  lemma {:induction false} UntilIsMax(ws: seq<Window>, cap: int)
    requires cap >= 0
    ensures Until(ws, cap) >= 0 && forall i :: 0 <= i < |ws| ==> Capped(ws[i].until, cap) <= Until(ws, cap)
    ensures Until(ws, cap) == 0 || exists i :: 0 <= i < |ws| && Capped(ws[i].until, cap) == Until(ws, cap)
    ensures Until(ws, cap) <= cap
  {
    if ws != [] {
      var init := ws[..|ws| - 1];
      UntilIsMax(init, cap);
      assert forall i :: 0 <= i < |init| ==> init[i] == ws[i];
      if Until(init, cap) == Until(ws, cap) && Until(ws, cap) != 0 {
        var i :| 0 <= i < |init| && Capped(init[i].until, cap) == Until(init, cap);
        assert Capped(ws[i].until, cap) == Until(ws, cap);
      }
    }
  }

  lemma MinUnique(m: int, m': int, ws: seq<Window>, cap: int)
    requires IsMin(m, ws, cap) && IsMin(m', ws, cap)
    ensures m == m'
  {
  }

  ghost predicate Proper(ws: seq<Window>) {
    forall i :: 0 <= i < |ws| ==> ws[i].since <= MAX64
  }

  lemma MinExtends(m: int, ws: seq<Window>, w: Window, cap: int)
    requires IsMin(m, ws, cap)
    ensures IsMin(if Start(w, cap) < m then Start(w, cap) else m, ws + [w], cap)
  {
    var all := ws + [w];
    var i :| 0 <= i < |ws| && Start(ws[i], cap) == m;
    assert all[i] == ws[i] && all[|ws|] == w;
    assert forall j :: 0 <= j < |ws| ==> all[j] == ws[j];
  }

  ghost predicate SinceIs(r: int, m: int, lastStart: int, cap: int) {
    && (m != 0 ==> r == m)
    && (m == 0 ==> r >= 0 && (r == 0 <==> lastStart == 0))
    && (r == MAX64 || r <= cap)
  }

  lemma SinceStep(r: int, m: int, lastStart: int, w: Window, cap: int)
    requires SinceIs(r, m, lastStart, cap) && w.since <= MAX64
    ensures SinceIs(NextSince(r, w.since, cap), if Start(w, cap) < m then Start(w, cap) else m, Start(w, cap), cap)
  {
  }

  lemma FirstSince(w: Window, m: int, cap: int)
    requires w.since <= MAX64 && IsMin(m, [w], cap)
    ensures SinceIs(NextSince(0, w.since, cap), m, Start(w, cap), cap)
  {
    assert [w][0] == w;
    assert m == Start(w, cap);
  }

  /** The start after at least one update: the earliest start while that is not zero, zero if the last one was the
      zero, and otherwise something later than the earliest. */
  lemma {:induction false} SinceCases(ws: seq<Window>, m: int, cap: int)
    requires ws != [] && Proper(ws) && IsMin(m, ws, cap)
    ensures SinceIs(Since(ws, cap), m, Start(ws[|ws| - 1], cap), cap)
  {
    hide IsMin, SinceIs, NextSince, Start;
    var init, w := ws[..|ws| - 1], ws[|ws| - 1];
    assert ws == init + [w];
    if init == [] {
      FirstSince(w, m, cap);
    } else {
      var m' := LeastStart(init, cap);
      SinceCases(init, m', cap);
      SinceStep(Since(init, cap), m', Start(init[|init| - 1], cap), w, cap);
      MinExtends(m', init, w, cap);
      MinUnique(m, if Start(w, cap) < m' then Start(w, cap) else m', ws, cap);
    }
  }

  lemma {:induction false} LeastStart(ws: seq<Window>, cap: int) returns (m: int)
    requires ws != []
    ensures IsMin(m, ws, cap)
  {
    if |ws| == 1 {
      m := Start(ws[0], cap);
    } else {
      var init, w := ws[..|ws| - 1], ws[|ws| - 1];
      assert ws == init + [w];
      m := LeastStart(init, cap);
      MinExtends(m, init, w, cap);
      m := if Start(w, cap) < m then Start(w, cap) else m;
    }
  }

  /** So the start is the earliest accepted start if and only if that is not zero, or the last one is zero. */
  lemma SinceIsMinimum(ws: seq<Window>, m: int, cap: int)
    requires ws != [] && Proper(ws) && IsMin(m, ws, cap)
    ensures Since(ws, cap) == m <==> m != 0 || Start(ws[|ws| - 1], cap) == 0
  {
    SinceCases(ws, m, cap);
  }

  /** The order of the windows does not matter to the end. */
  lemma EndIgnoresOrder(ws: seq<Window>, ws': seq<Window>, cap: int)
    requires multiset(ws) == multiset(ws') && cap >= 0
    ensures Until(ws, cap) == Until(ws', cap)
  {
    SameMembers(ws, ws');
    SameMembers(ws', ws);
    SameMax(ws, ws', cap);
  }

  /** What the start comes to for any order of the windows. */
  lemma PermutedStart(ws: seq<Window>, ws': seq<Window>, m: int, cap: int)
    requires multiset(ws) == multiset(ws') && ws != [] && Proper(ws) && IsMin(m, ws, cap)
    ensures ws' != [] && SinceIs(Since(ws', cap), m, Start(ws'[|ws'| - 1], cap), cap)
    ensures ws'[|ws'| - 1] in ws
  {
    SameMembers(ws, ws');
    SameMembers(ws', ws);
    assert ws' != [] by { assert ws[0] in ws'; }
    SameMin(ws, ws', m, cap);
    hide SinceIs, IsMin, Proper, Since;
    SinceCases(ws', m, cap);
  }

  ghost predicate AllStartAtZero(ws: seq<Window>, cap: int) {
    forall i :: 0 <= i < |ws| ==> Start(ws[i], cap) == 0
  }

  function Last(ws: seq<Window>, i: nat): (r: seq<Window>)
    requires i < |ws|
    ensures multiset(r) == multiset(ws) && r != [] && r[|r| - 1] == ws[i]
  {
    assert ws == ws[..i] + [ws[i]] + ws[i + 1..];
    ws[..i] + ws[i + 1..] + [ws[i]]
  }

  ghost predicate StartIgnoresOrder(ws: seq<Window>, cap: int) {
    forall ws' :: multiset(ws') == multiset(ws) ==> Since(ws', cap) == Since(ws, cap)
  }

  /** Nor to the start, if and only if the earliest start is not zero or all starts are. */
  lemma StartOrderIsExact(ws: seq<Window>, m: int, cap: int)
    requires ws != [] && Proper(ws) && IsMin(m, ws, cap)
    ensures StartIgnoresOrder(ws, cap) <==> m != 0 || AllStartAtZero(ws, cap)
  {
    if m != 0 || AllStartAtZero(ws, cap) {
      PermutedStart(ws, ws, m, cap);
      forall ws' | multiset(ws') == multiset(ws) ensures Since(ws', cap) == Since(ws, cap) {
        PermutedStart(ws, ws', m, cap);
      }
    } else {
      var i :| 0 <= i < |ws| && Start(ws[i], cap) != 0;
      var j :| 0 <= j < |ws| && Start(ws[j], cap) == m;
      PermutedStart(ws, Last(ws, i), m, cap);
      PermutedStart(ws, Last(ws, j), m, cap);
    }
  }

  lemma SameMembers(ws: seq<Window>, ws': seq<Window>)
    requires multiset(ws) == multiset(ws')
    ensures forall i :: 0 <= i < |ws| ==> ws[i] in ws'
  {
    forall i | 0 <= i < |ws| ensures ws[i] in ws' {
      assert ws[i] in multiset(ws);
    }
  }

  lemma SameMin(ws: seq<Window>, ws': seq<Window>, m: int, cap: int)
    requires IsMin(m, ws, cap) && Proper(ws)
    requires (forall i :: 0 <= i < |ws| ==> ws[i] in ws') && (forall i :: 0 <= i < |ws'| ==> ws'[i] in ws)
    ensures IsMin(m, ws', cap) && Proper(ws')
  {
    var i :| 0 <= i < |ws| && Start(ws[i], cap) == m;
    var j :| 0 <= j < |ws'| && ws'[j] == ws[i];
    assert Start(ws'[j], cap) == m;
  }

  lemma SameMax(ws: seq<Window>, ws': seq<Window>, cap: int)
    requires cap >= 0
    requires (forall i :: 0 <= i < |ws| ==> ws[i] in ws') && (forall i :: 0 <= i < |ws'| ==> ws'[i] in ws)
    ensures Until(ws, cap) == Until(ws', cap)
  {
    UntilIsMax(ws, cap);
    UntilIsMax(ws', cap);
    UntilAtMost(ws, ws', cap);
    UntilAtMost(ws', ws, cap);
  }

  lemma UntilAtMost(ws: seq<Window>, ws': seq<Window>, cap: int)
    requires cap >= 0 && forall i :: 0 <= i < |ws| ==> ws[i] in ws'
    ensures Until(ws, cap) <= Until(ws', cap)
  {
    UntilIsMax(ws, cap);
    UntilIsMax(ws', cap);
    if Until(ws, cap) != 0 {
      var i :| 0 <= i < |ws| && Capped(ws[i].until, cap) == Until(ws, cap);
      var j :| 0 <= j < |ws'| && ws'[j] == ws[i];
      assert Capped(ws'[j].until, cap) <= Until(ws', cap);
    }
  }

  /** With an earliest start of zero the order shows. */
  lemma OrderCanMatter()
    ensures Since([Window(0, 9), Window(5, 9)], 100) == 5 && Since([Window(5, 9), Window(0, 9)], 100) == 0
  {
    var a, b := [Window(0, 9), Window(5, 9)], [Window(5, 9), Window(0, 9)];
    assert a[..1] == [Window(0, 9)] && b[..1] == [Window(5, 9)];
    assert [Window(0, 9)][..0] == [] && [Window(5, 9)][..0] == [];
    assert Since([Window(0, 9)], 100) == 0 && Since([Window(5, 9)], 100) == 5;
  }
}
