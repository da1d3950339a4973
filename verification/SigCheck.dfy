/** Checking a section's signatures: which are kept, and the validity they give the section.
 */
module SigCheck {
  import opened Names
  import opened Validity

  datatype Sig = Sig(keyId: string, since: int, until: int, data: string)

  datatype Key = Key(since: int, until: int, key: string)

  type Keys = map<string, seq<Key>>

  predicate Overlaps(k: Key, s: Sig) {
    k.since <= s.until && k.until >= s.since
  }

  /** The first key whose validity overlaps the signature's. */
  function FirstKey(ks: seq<Key>, s: Sig): Option<Key> {
    if ks == [] then None else if Overlaps(ks[0], s) then Some(ks[0]) else FirstKey(ks[1..], s)
  }

  method GetPublicKey(ks: seq<Key>, s: Sig) returns (r: Option<Key>)
    ensures r == FirstKey(ks, s)
    ensures r == None <==> forall i :: 0 <= i < |ks| ==> !Overlaps(ks[i], s)
    ensures r.Some? ==>
      exists i :: 0 <= i < |ks| && ks[i] == r.value && Overlaps(ks[i], s) && forall j :: 0 <= j < i ==>
      !Overlaps(ks[j], s)
  {
    for i := 0 to |ks|
      invariant forall j :: 0 <= j < i ==> !Overlaps(ks[j], s)
      invariant FirstKey(ks, s) == FirstKey(ks[i..], s)
    {
      if Overlaps(ks[i], s) { return Some(ks[i]); }
      assert ks[i..][1..] == ks[i + 1..];
    }
    return None;
  }

  /** The time in which both the key and the signature are valid. */
  function WindowOf(k: Key, s: Sig): Window {
    Window(if k.since < s.since then s.since else k.since, if k.until < s.until then k.until else s.until)
  }

  /** A signature that lets the check go on: expired, or verified with the first overlapping key. */
  predicate Good(pkeys: Keys, verify: (string, Sig) -> bool, now: int, s: Sig) {
    s.keyId in pkeys &&
      (s.until < now || (FirstKey(pkeys[s.keyId], s).Some? && verify(FirstKey(pkeys[s.keyId], s).value.key, s)))
  }

  function Kept(sigs: seq<Sig>, now: int): seq<Sig> {
    if sigs == [] then []
    else
      var s := sigs[|sigs| - 1];
      Kept(sigs[..|sigs| - 1], now) + if s.until < now then [] else [s]
  }

  function Windows(pkeys: Keys, sigs: seq<Sig>, now: int): seq<Window> {
    if sigs == [] then []
    else
      var s := sigs[|sigs| - 1];
      Windows(pkeys, sigs[..|sigs| - 1], now)
      + if s.until < now || s.keyId !in pkeys || FirstKey(pkeys[s.keyId], s) == None then []
        else [WindowOf(FirstKey(pkeys[s.keyId], s).value, s)]
  }

  /** Only the signatures that are still valid count; each brings one window. */
  lemma {:induction false} KeptMembers(sigs: seq<Sig>, now: int)
    ensures forall s :: s in Kept(sigs, now) <==> s in sigs && !(s.until < now)
  {
    if sigs != [] {
      var init := sigs[..|sigs| - 1];
      KeptMembers(init, now);
      assert sigs == init + [sigs[|sigs| - 1]];
    }
  }

  /** The section's validity is updated once for every signature kept, starting from `since` and `until`. */
  function SinceFrom(since: int, ws: seq<Window>, cap: int): int {
    if ws == [] then since else NextSince(SinceFrom(since, ws[..|ws| - 1], cap), ws[|ws| - 1].since, cap)
  }

  function UntilFrom(until: int, ws: seq<Window>, cap: int): int {
    if ws == [] then until else NextUntil(UntilFrom(until, ws[..|ws| - 1], cap), ws[|ws| - 1].until, cap)
  }

  lemma {:induction false} FromUnset(ws: seq<Window>, cap: int)
    ensures SinceFrom(0, ws, cap) == Since(ws, cap) && UntilFrom(0, ws, cap) == Until(ws, cap)
  {
    if ws != [] { FromUnset(ws[..|ws| - 1], cap); }
  }

  lemma OneMore(pkeys: Keys, sigs: seq<Sig>, i: nat, now: int)
    requires i < |sigs|
    ensures sigs[i].until < now ==>
      Kept(sigs[..i + 1], now) == Kept(sigs[..i], now) &&
      Windows(pkeys, sigs[..i + 1], now) == Windows(pkeys, sigs[..i], now)
    ensures !(sigs[i].until < now) ==> Kept(sigs[..i + 1], now) == Kept(sigs[..i], now) + [sigs[i]]
    ensures !(sigs[i].until < now) && sigs[i].keyId in pkeys && FirstKey(pkeys[sigs[i].keyId], sigs[i]).Some? ==>
      Windows(pkeys, sigs[..i + 1], now) == Windows(pkeys, sigs[..i], now) +
        [WindowOf(FirstKey(pkeys[sigs[i].keyId], sigs[i]).value, sigs[i])]
  {
    var more := sigs[..i + 1];
    assert more[..i] == sigs[..i] && more[i] == sigs[i];
  }

  lemma OneUpdate(since: int, until: int, ws: seq<Window>, w: Window, cap: int)
    ensures SinceFrom(since, ws + [w], cap) == NextSince(SinceFrom(since, ws, cap), w.since, cap)
    ensures UntilFrom(until, ws + [w], cap) == NextUntil(UntilFrom(until, ws, cap), w.until, cap)
  {
    assert (ws + [w])[..|ws|] == ws;
  }

  // ---- what the check comes to, in terms of keys and signatures ----

  /** `k` is the first of the signature's keys whose validity overlaps that of the signature. */
  ghost predicate Uses(pkeys: Keys, s: Sig, k: Key) {
    s.keyId in pkeys && exists i ::
      && 0 <= i < |pkeys[s.keyId]| && pkeys[s.keyId][i] == k && k.since <= s.until && s.since <= k.until
      && forall j :: 0 <= j < i ==> pkeys[s.keyId][j].until < s.since || s.until < pkeys[s.keyId][j].since
  }

  lemma {:induction false} FirstKeyPlace(ks: seq<Key>, s: Sig) returns (i: nat)
    requires FirstKey(ks, s).Some?
    ensures i < |ks| && ks[i] == FirstKey(ks, s).value && Overlaps(ks[i], s)
    ensures forall j :: 0 <= j < i ==> !Overlaps(ks[j], s)
  {
    if Overlaps(ks[0], s) {
      i := 0;
    } else {
      var n := FirstKeyPlace(ks[1..], s);
      i := n + 1;
      forall j | 0 <= j < i ensures !Overlaps(ks[j], s) {
        if j > 0 { assert ks[j] == ks[1..][j - 1]; }
      }
    }
  }

  lemma {:induction false} FirstKeyFound(ks: seq<Key>, s: Sig, i: nat)
    requires i < |ks| && Overlaps(ks[i], s) && forall j :: 0 <= j < i ==> !Overlaps(ks[j], s)
    ensures FirstKey(ks, s) == Some(ks[i])
  {
    if i > 0 {
      assert forall j :: 0 <= j < i - 1 ==> ks[1..][j] == ks[j + 1];
      FirstKeyFound(ks[1..], s, i - 1);
    }
  }

  lemma UsesFirst(pkeys: Keys, s: Sig, k: Key)
    ensures Uses(pkeys, s, k) <==> s.keyId in pkeys && FirstKey(pkeys[s.keyId], s) == Some(k)
  {
    if s.keyId in pkeys {
      var ks := pkeys[s.keyId];
      if FirstKey(ks, s) == Some(k) {
        var i := FirstKeyPlace(ks, s);
      }
      if Uses(pkeys, s, k) {
        var i :| && 0 <= i < |ks| && ks[i] == k && k.since <= s.until && s.since <= k.until
                 && forall j :: 0 <= j < i ==> ks[j].until < s.since || s.until < ks[j].since;
        FirstKeyFound(ks, s, i);
      }
    }
  }

  /** The `i`-th signature has not expired and is checked with `k`. */
  ghost predicate Counts(pkeys: Keys, sigs: seq<Sig>, now: int, i: nat, k: Key) {
    i < |sigs| && now <= sigs[i].until && Uses(pkeys, sigs[i], k)
  }

  /** When such a signature lets the section's validity end and start; the largest time is not capped. */
  function EndOf(k: Key, s: Sig, cap: int): int {
    Min(Min(k.until, s.until), cap)
  }

  function StartOf(k: Key, s: Sig, cap: int): int {
    var since := Max(k.since, s.since);
    if since >= MAX64 then MAX64 else Min(since, cap)
  }

  /** The end: the latest that any signature allows, and not before the epoch. */
  ghost predicate EndIs(pkeys: Keys, sigs: seq<Sig>, now: int, cap: int, until: int) {
    && until >= 0
    && (forall i: nat, k :: Counts(pkeys, sigs, now, i, k) ==> EndOf(k, sigs[i], cap) <= until)
    && (until == 0 || exists i: nat, k :: Counts(pkeys, sigs, now, i, k) && EndOf(k, sigs[i], cap) == until)
  }

  ghost predicate EarliestStart(pkeys: Keys, sigs: seq<Sig>, now: int, cap: int, m: int) {
    && (exists i: nat, k :: Counts(pkeys, sigs, now, i, k) && StartOf(k, sigs[i], cap) == m)
    && (forall i: nat, k :: Counts(pkeys, sigs, now, i, k) ==> m <= StartOf(k, sigs[i], cap))
  }

  /** The last signature that counts starts at zero. */
  ghost predicate LastStartsAtZero(pkeys: Keys, sigs: seq<Sig>, now: int, cap: int) {
    exists i: nat, k :: Counts(pkeys, sigs, now, i, k) && StartOf(k, sigs[i], cap) == 0
      && forall j: nat, l :: Counts(pkeys, sigs, now, j, l) ==> j <= i
  }

  /** The start: the earliest of all, if and only if that is not zero or comes last. */
  ghost predicate StartIs(pkeys: Keys, sigs: seq<Sig>, now: int, cap: int, since: int) {
    exists m :: EarliestStart(pkeys, sigs, now, cap, m)
      && (since == m <==> m != 0 || LastStartsAtZero(pkeys, sigs, now, cap))
  }

  /** Times are 64-bit integers. */
  ghost predicate TimesFit(pkeys: Keys, sigs: seq<Sig>) {
    && (forall i :: 0 <= i < |sigs| ==> sigs[i].since <= MAX64)
    && forall id, i :: id in pkeys && 0 <= i < |pkeys[id]| ==> pkeys[id][i].since <= MAX64
  }

  /** The window of a key and a signature, in their own terms. */
  ghost predicate Brings(w: Window, k: Key, s: Sig) {
    w.since == Max(k.since, s.since) && w.until == Min(k.until, s.until)
  }

  lemma OverlapBrings(k: Key, s: Sig)
    ensures Brings(WindowOf(k, s), k, s)
  {
  }

  /** What the last signature adds to the windows. */
  lemma LastWindow(pkeys: Keys, sigs: seq<Sig>, now: int)
    requires sigs != []
    ensures var n := |sigs| - 1;
      var before, after := Windows(pkeys, sigs[..n], now), Windows(pkeys, sigs, now);
      if exists k :: Counts(pkeys, sigs, now, n, k)
      then |after| == |before| + 1 && after[..|before|] == before
           && forall k :: Counts(pkeys, sigs, now, n, k) ==> Brings(after[|before|], k, sigs[n])
      else after == before
  {
    var s := sigs[|sigs| - 1];
    forall k ensures Uses(pkeys, s, k) <==> s.keyId in pkeys && FirstKey(pkeys[s.keyId], s) == Some(k) {
      UsesFirst(pkeys, s, k);
    }
    hide Uses, FirstKey, WindowOf, Brings;
    if now <= s.until && s.keyId in pkeys && FirstKey(pkeys[s.keyId], s).Some? {
      OverlapBrings(FirstKey(pkeys[s.keyId], s).value, s);
      assert Counts(pkeys, sigs, now, |sigs| - 1, FirstKey(pkeys[s.keyId], s).value);
    }
  }

  lemma CountsInFront(pkeys: Keys, sigs: seq<Sig>, now: int, n: nat, i: nat, k: Key)
    requires i < n <= |sigs|
    ensures Counts(pkeys, sigs[..n], now, i, k) <==> Counts(pkeys, sigs, now, i, k)
  {
    hide Uses;
  }

  /** Every window is that of a signature that counts; the last one is that of the last such signature. */
  lemma {:induction false} WindowFrom(pkeys: Keys, sigs: seq<Sig>, now: int, j: nat) returns (i: nat, k: Key)
    requires j < |Windows(pkeys, sigs, now)|
    ensures Counts(pkeys, sigs, now, i, k) && Brings(Windows(pkeys, sigs, now)[j], k, sigs[i])
    ensures j == |Windows(pkeys, sigs, now)| - 1 ==> forall n: nat, l :: Counts(pkeys, sigs, now, n, l) ==> n <= i
    decreases |sigs|
  {
    var n := |sigs| - 1;
    LastWindow(pkeys, sigs, now);
    hide Windows, Brings, Uses;
    if j == |Windows(pkeys, sigs[..n], now)| {
      i := n;
      k :| Counts(pkeys, sigs, now, n, k);
    } else {
      i, k := WindowFrom(pkeys, sigs[..n], now, j);
      forall m: nat, l | Counts(pkeys, sigs, now, m, l) && j == |Windows(pkeys, sigs, now)| - 1 ensures m <= i {
        if m < n { CountsInFront(pkeys, sigs, now, n, m, l); }
      }
      CountsInFront(pkeys, sigs, now, n, i, k);
    }
  }

  /** Every signature that counts has its window. */
  lemma {:induction false} WindowFor(pkeys: Keys, sigs: seq<Sig>, now: int, i: nat, k: Key) returns (j: nat)
    requires Counts(pkeys, sigs, now, i, k)
    ensures j < |Windows(pkeys, sigs, now)| && Brings(Windows(pkeys, sigs, now)[j], k, sigs[i])
    decreases |sigs|
  {
    var n := |sigs| - 1;
    LastWindow(pkeys, sigs, now);
    hide Windows, Brings, Uses;
    if i == n {
      j := |Windows(pkeys, sigs[..n], now)|;
    } else {
      CountsInFront(pkeys, sigs, now, n, i, k);
      j := WindowFor(pkeys, sigs[..n], now, i, k);
    }
  }

  lemma BroughtEnds(w: Window, k: Key, s: Sig, cap: int)
    requires Brings(w, k, s)
    ensures Start(w, cap) == StartOf(k, s, cap) && Capped(w.until, cap) == EndOf(k, s, cap)
  {
  }

  /** From unset validity the updates come to the end that keys and signatures call for, */
  lemma EndInTerms(pkeys: Keys, sigs: seq<Sig>, now: int, cap: int)
    requires cap >= 0
    ensures EndIs(pkeys, sigs, now, cap, UntilFrom(0, Windows(pkeys, sigs, now), cap))
  {
    var ws := Windows(pkeys, sigs, now);
    FromUnset(ws, cap);
    UntilIsMax(ws, cap);
    hide Windows, UntilFrom, Until, Uses, Brings, Capped, EndOf;
    var until := UntilFrom(0, ws, cap);
    forall i: nat, k | Counts(pkeys, sigs, now, i, k) ensures EndOf(k, sigs[i], cap) <= until {
      var j := WindowFor(pkeys, sigs, now, i, k);
      BroughtEnds(ws[j], k, sigs[i], cap);
    }
    if until != 0 {
      var j: nat :| j < |ws| && Capped(ws[j].until, cap) == until;
      var i, k := WindowFrom(pkeys, sigs, now, j);
      BroughtEnds(ws[j], k, sigs[i], cap);
    }
  }

  lemma EarliestInTerms(pkeys: Keys, sigs: seq<Sig>, now: int, cap: int, m: int)
    requires IsMin(m, Windows(pkeys, sigs, now), cap)
    ensures EarliestStart(pkeys, sigs, now, cap, m)
  {
    var ws := Windows(pkeys, sigs, now);
    hide Windows, Uses, Brings, Start, StartOf;
    var j: nat :| j < |ws| && Start(ws[j], cap) == m;
    var i, k := WindowFrom(pkeys, sigs, now, j);
    BroughtEnds(ws[j], k, sigs[i], cap);
    forall n: nat, l | Counts(pkeys, sigs, now, n, l) ensures m <= StartOf(l, sigs[n], cap) {
      var h := WindowFor(pkeys, sigs, now, n, l);
      BroughtEnds(ws[h], l, sigs[n], cap);
    }
  }

  lemma OneUse(pkeys: Keys, s: Sig, k: Key, l: Key)
    requires Uses(pkeys, s, k) && Uses(pkeys, s, l)
    ensures k == l
  {
    UsesFirst(pkeys, s, k);
    UsesFirst(pkeys, s, l);
  }

  lemma LastInTerms(pkeys: Keys, sigs: seq<Sig>, now: int, cap: int)
    requires Windows(pkeys, sigs, now) != []
    ensures var ws := Windows(pkeys, sigs, now);
      Start(ws[|ws| - 1], cap) == 0 <==> LastStartsAtZero(pkeys, sigs, now, cap)
  {
    var ws := Windows(pkeys, sigs, now);
    hide Windows, Uses, Brings, Start, StartOf;
    var i, k := WindowFrom(pkeys, sigs, now, |ws| - 1);
    BroughtEnds(ws[|ws| - 1], k, sigs[i], cap);
    if LastStartsAtZero(pkeys, sigs, now, cap) {
      var j: nat, l :| Counts(pkeys, sigs, now, j, l) && StartOf(l, sigs[j], cap) == 0
        && forall n: nat, h :: Counts(pkeys, sigs, now, n, h) ==> n <= j;
      assert i == j;
      OneUse(pkeys, sigs[i], k, l);
    }
  }

  /** and to the start. */
  lemma StartInTerms(pkeys: Keys, sigs: seq<Sig>, now: int, cap: int)
    requires TimesFit(pkeys, sigs) && Windows(pkeys, sigs, now) != []
    ensures StartIs(pkeys, sigs, now, cap, SinceFrom(0, Windows(pkeys, sigs, now), cap))
  {
    var ws := Windows(pkeys, sigs, now);
    FromUnset(ws, cap);
    ProperWindows(pkeys, sigs, now);
    hide Windows, SinceFrom, Since, Proper, IsMin, EarliestStart, LastStartsAtZero, TimesFit, Start;
    var m := LeastStart(ws, cap);
    SinceIsMinimum(ws, m, cap);
    EarliestInTerms(pkeys, sigs, now, cap, m);
    LastInTerms(pkeys, sigs, now, cap);
  }

  ghost predicate Counted(pkeys: Keys, sigs: seq<Sig>, now: int) {
    exists i: nat, k :: Counts(pkeys, sigs, now, i, k)
  }

  /** Updating the validity for each signature that counts, from unset: the end is the latest that key, signature and
      cap allow for some signature, and the start the earliest, if and only if that is not zero or comes last. */
  lemma CheckedValidity(pkeys: Keys, sigs: seq<Sig>, now: int, cap: int)
    ensures cap >= 0 ==> EndIs(pkeys, sigs, now, cap, UntilFrom(0, Windows(pkeys, sigs, now), cap))
    ensures TimesFit(pkeys, sigs) && Counted(pkeys, sigs, now) ==>
      StartIs(pkeys, sigs, now, cap, SinceFrom(0, Windows(pkeys, sigs, now), cap))
  {
    hide Windows, SinceFrom, UntilFrom, EndIs, StartIs, TimesFit, Counts;
    if cap >= 0 { EndInTerms(pkeys, sigs, now, cap); }
    if TimesFit(pkeys, sigs) && Counted(pkeys, sigs, now) {
      var i: nat, k :| Counts(pkeys, sigs, now, i, k);
      var j := WindowFor(pkeys, sigs, now, i, k);
      StartInTerms(pkeys, sigs, now, cap);
    }
  }

  /** Where the check goes through, a signature that is kept counts. */
  lemma KeptCounts(pkeys: Keys, sigs: seq<Sig>, verify: (string, Sig) -> bool, now: int)
    requires Kept(sigs, now) != [] && forall i :: 0 <= i < |sigs| ==> Good(pkeys, verify, now, sigs[i])
    ensures Counted(pkeys, sigs, now)
  {
    KeptMembers(sigs, now);
    hide Good, Kept, Uses;
    assert Kept(sigs, now)[0] in Kept(sigs, now);
    var i: nat :| i < |sigs| && sigs[i] == Kept(sigs, now)[0];
    GoodInTerms(pkeys, verify, now, sigs[i]);
    var k :| Uses(pkeys, sigs[i], k);
    assert Counts(pkeys, sigs, now, i, k);
  }

  lemma ProperWindows(pkeys: Keys, sigs: seq<Sig>, now: int)
    requires TimesFit(pkeys, sigs)
    ensures Proper(Windows(pkeys, sigs, now))
  {
    var ws := Windows(pkeys, sigs, now);
    hide Windows;
    forall j: nat | j < |ws| ensures ws[j].since <= MAX64 {
      var i, k := WindowFrom(pkeys, sigs, now, j);
    }
  }

  /** The check goes through: without signatures; or with fine fields, a signature that has not expired, and for each
      one a key list and, unless it has expired, the first overlapping key, with which it verifies. */
  ghost predicate Succeeds(sigs: seq<Sig>, fieldsOk: bool, pkeys: Keys, verify: (string, Sig) -> bool, now: int) {
    sigs == [] || (
      && fieldsOk && (exists i :: 0 <= i < |sigs| && now <= sigs[i].until)
      && forall i :: 0 <= i < |sigs| ==>
           && sigs[i].keyId in pkeys
           && (now <= sigs[i].until ==> exists k :: Uses(pkeys, sigs[i], k) && verify(k.key, sigs[i])))
  }

  lemma GoodInTerms(pkeys: Keys, verify: (string, Sig) -> bool, now: int, s: Sig)
    ensures Good(pkeys, verify, now, s) <==>
      s.keyId in pkeys && (now <= s.until ==> exists k :: Uses(pkeys, s, k) && verify(k.key, s))
  {
    forall k ensures Uses(pkeys, s, k) <==> s.keyId in pkeys && FirstKey(pkeys[s.keyId], s) == Some(k) {
      UsesFirst(pkeys, s, k);
    }
    hide Uses, FirstKey;
    if s.keyId in pkeys && FirstKey(pkeys[s.keyId], s).Some? {
      assert Uses(pkeys, s, FirstKey(pkeys[s.keyId], s).value);
    }
  }

  lemma SuccessInTerms(sigs: seq<Sig>, fieldsOk: bool, pkeys: Keys, verify: (string, Sig) -> bool, now: int)
    ensures Succeeds(sigs, fieldsOk, pkeys, verify, now) <==>
      || sigs == []
      || (fieldsOk && Kept(sigs, now) != [] && forall i :: 0 <= i < |sigs| ==> Good(pkeys, verify, now, sigs[i]))
  {
    KeptMembers(sigs, now);
    hide Good, Kept, Uses;
    forall i | 0 <= i < |sigs|
      ensures Good(pkeys, verify, now, sigs[i]) <==>
        && sigs[i].keyId in pkeys
        && (now <= sigs[i].until ==> exists k :: Uses(pkeys, sigs[i], k) && verify(k.key, sigs[i]))
    {
      GoodInTerms(pkeys, verify, now, sigs[i]);
    }
    if Kept(sigs, now) != [] {
      assert Kept(sigs, now)[0] in Kept(sigs, now);
    }
    if i :| 0 <= i < |sigs| && now <= sigs[i].until {
      assert sigs[i] in Kept(sigs, now);
    }
  }

  /** As often as in the list if it has not expired, and not at all otherwise. */
  lemma {:induction false} KeptCount(sigs: seq<Sig>, now: int, s: Sig)
    ensures multiset(Kept(sigs, now))[s] == if s.until < now then 0 else multiset(sigs)[s]
  {
    if sigs != [] {
      var n := |sigs| - 1;
      KeptCount(sigs[..n], now, s);
      assert sigs == sigs[..n] + [sigs[n]];
    }
  }

  /** Go's loop; `kept` and the validity are what the section is left with. */
  method CheckSectionSignatures(sigs: seq<Sig>, fieldsOk: bool, pkeys: Keys, verify: (string, Sig) -> bool, now: int,
                                cap: int, since0: int, until0: int)
    returns (ok: bool, kept: seq<Sig>, since: int, until: int)
    ensures ok <==> Succeeds(sigs, fieldsOk, pkeys, verify, now)
    ensures ok ==> kept == Kept(sigs, now) && |Windows(pkeys, sigs, now)| == |kept|
    ensures ok ==> since == SinceFrom(since0, Windows(pkeys, sigs, now), cap)
    ensures ok ==> until == UntilFrom(until0, Windows(pkeys, sigs, now), cap)
    ensures ok && until0 == 0 && cap >= 0 ==> EndIs(pkeys, sigs, now, cap, until)
    ensures ok && since0 == 0 && sigs != [] && TimesFit(pkeys, sigs) ==> StartIs(pkeys, sigs, now, cap, since)
  {
    SuccessInTerms(sigs, fieldsOk, pkeys, verify, now);
    CheckedValidity(pkeys, sigs, now, cap);
    hide Succeeds, EndIs, StartIs, TimesFit, Counted;
    kept, since, until := [], since0, until0;
    if sigs == [] { return true, kept, since, until; }
    if !fieldsOk { return false, sigs, since, until; }
    for i := 0 to |sigs|
      invariant kept == Kept(sigs[..i], now) && |Windows(pkeys, sigs[..i], now)| == |kept|
      invariant forall j :: 0 <= j < i ==> Good(pkeys, verify, now, sigs[j])
      invariant since == SinceFrom(since0, Windows(pkeys, sigs[..i], now), cap)
      invariant until == UntilFrom(until0, Windows(pkeys, sigs[..i], now), cap)
    {
      hide Kept, Windows, SinceFrom, UntilFrom, NextSince, NextUntil, WindowOf, FirstKey;
      var s := sigs[i];
      OneMore(pkeys, sigs, i, now);
      if s.keyId !in pkeys { return false, kept, since, until; }
      if !(s.until < now) {
        var key := GetPublicKey(pkeys[s.keyId], s);
        if key == None || !verify(key.value.key, s) { return false, kept, since, until; }
        kept := kept + [s];
        var w := WindowOf(key.value, s);
        OneUpdate(since0, until0, Windows(pkeys, sigs[..i], now), w, cap);
        since, until := UpdateValidity(w.since, w.until, since, until, cap);
      }
    }
    assert sigs[..|sigs|] == sigs;
    ok := kept != [];
    if ok { KeptCounts(pkeys, sigs, verify, now); }
  }

  // ---- the order of the signatures ----

  lemma {:induction false} WindowsJoin(pkeys: Keys, a: seq<Sig>, b: seq<Sig>, now: int)
    ensures Windows(pkeys, a + b, now) == Windows(pkeys, a, now) + Windows(pkeys, b, now)
  {
    hide FirstKey, WindowOf;
    if b == [] {
      assert a + b == a;
    } else {
      assert (a + b)[..|a + b| - 1] == a + b[..|b| - 1];
      WindowsJoin(pkeys, a, b[..|b| - 1], now);
    }
  }

  lemma WithoutOne(init: seq<Sig>, x: seq<Sig>, s: Sig, y: seq<Sig>)
    requires multiset(init + [s]) == multiset(x + [s] + y)
    ensures multiset(init) == multiset(x + y)
  {
    var a, b := multiset(init), multiset(x) + multiset(y);
    assert a + multiset{s} == b + multiset{s} by {
      assert multiset(init + [s]) == a + multiset{s};
      assert multiset(x + [s] + y) == b + multiset{s};
    }
    assert (a + multiset{s}) - multiset{s} == a && (b + multiset{s}) - multiset{s} == b;
  }

  lemma {:induction false} WindowsPermute(pkeys: Keys, sigs: seq<Sig>, sigs': seq<Sig>, now: int)
    requires multiset(sigs) == multiset(sigs')
    ensures multiset(Windows(pkeys, sigs, now)) == multiset(Windows(pkeys, sigs', now))
    decreases |sigs|
  {
    if sigs == [] {
      assert |multiset(sigs')| == 0;
    } else {
      var init, s := sigs[..|sigs| - 1], sigs[|sigs| - 1];
      assert sigs == init + [s];
      assert s in multiset(sigs');
      var k :| 0 <= k < |sigs'| && sigs'[k] == s;
      var x, y := sigs'[..k], sigs'[k + 1..];
      assert sigs' == x + [s] + y;
      WithoutOne(init, x, s, y);
      WindowsPermute(pkeys, init, x + y, now);
      hide Windows;
      WindowsJoin(pkeys, init, [s], now);
      WindowsJoin(pkeys, x, [s], now);
      WindowsJoin(pkeys, x + [s], y, now);
      WindowsJoin(pkeys, x, y, now);
    }
  }

  /** A signature that has not expired contributes its window last if it comes last. */
  lemma WindowLast(pkeys: Keys, sigs: seq<Sig>, now: int, i: nat) returns (sigs': seq<Sig>)
    requires i < |Windows(pkeys, sigs, now)|
    ensures multiset(sigs') == multiset(sigs)
    ensures var ws := Windows(pkeys, sigs', now); ws != [] && ws[|ws| - 1] == Windows(pkeys, sigs, now)[i]
    decreases sigs
  {
    var n := |sigs| - 1;
    var init, s := sigs[..n], sigs[n];
    assert sigs == init + [s];
    if i == |Windows(pkeys, init, now)| {
      sigs' := sigs;
    } else {
      var inner := WindowLast(pkeys, init, now, i);
      hide Windows;
      sigs' := [s] + inner;
      WindowsJoin(pkeys, [s], inner, now);
    }
  }

  ghost predicate StartIgnoresSignatureOrder(pkeys: Keys, sigs: seq<Sig>, now: int, cap: int) {
    forall sigs' :: multiset(sigs') == multiset(sigs) ==>
      SinceFrom(0, Windows(pkeys, sigs', now), cap) == SinceFrom(0, Windows(pkeys, sigs, now), cap)
  }

  /** From unset validity every order of the signatures gives the same end; and every order gives the same start if
      and only if the earliest accepted start is not zero or all of them are. */
  lemma SignatureOrderIsExact(pkeys: Keys, sigs: seq<Sig>, now: int, cap: int, m: int)
    requires Windows(pkeys, sigs, now) != [] && Proper(Windows(pkeys, sigs, now))
    requires IsMin(m, Windows(pkeys, sigs, now), cap)
    ensures cap >= 0 ==> forall sigs' :: multiset(sigs') == multiset(sigs) ==>
      UntilFrom(0, Windows(pkeys, sigs', now), cap) == UntilFrom(0, Windows(pkeys, sigs, now), cap)
    ensures StartIgnoresSignatureOrder(pkeys, sigs, now, cap)
      <==> m != 0 || AllStartAtZero(Windows(pkeys, sigs, now), cap)
  {
    var ws := Windows(pkeys, sigs, now);
    FromUnset(ws, cap);
    hide Windows, SinceFrom, UntilFrom, Proper, IsMin, Since, Until, SinceIs, Start;
    forall sigs' | multiset(sigs') == multiset(sigs)
      ensures multiset(Windows(pkeys, sigs', now)) == multiset(ws)
      ensures SinceFrom(0, Windows(pkeys, sigs', now), cap) == Since(Windows(pkeys, sigs', now), cap)
      ensures UntilFrom(0, Windows(pkeys, sigs', now), cap) == Until(Windows(pkeys, sigs', now), cap)
      ensures cap >= 0 ==> Until(Windows(pkeys, sigs', now), cap) == Until(ws, cap)
    {
      WindowsPermute(pkeys, sigs, sigs', now);
      FromUnset(Windows(pkeys, sigs', now), cap);
      if cap >= 0 { EndIgnoresOrder(ws, Windows(pkeys, sigs', now), cap); }
    }
    StartOrderIsExact(ws, m, cap);
    if m == 0 && !AllStartAtZero(ws, cap) {
      OrderShows(pkeys, sigs, now, cap);
    }
  }

  lemma OrderShows(pkeys: Keys, sigs: seq<Sig>, now: int, cap: int)
    requires var ws := Windows(pkeys, sigs, now); Proper(ws) && IsMin(0, ws, cap) && !AllStartAtZero(ws, cap)
    ensures !StartIgnoresSignatureOrder(pkeys, sigs, now, cap)
  {
    var ws := Windows(pkeys, sigs, now);
    var i: nat :| i < |ws| && Start(ws[i], cap) != 0;
    var j: nat :| j < |ws| && Start(ws[j], cap) == 0;
    var a := WindowLast(pkeys, sigs, now, i);
    var b := WindowLast(pkeys, sigs, now, j);
    hide Windows, SinceFrom, UntilFrom, Proper, IsMin, Since, Until, Start;
    WindowsPermute(pkeys, sigs, a, now);
    WindowsPermute(pkeys, sigs, b, now);
    FromUnset(Windows(pkeys, a, now), cap);
    FromUnset(Windows(pkeys, b, now), cap);
    PermutedStart(ws, Windows(pkeys, a, now), 0, cap);
    PermutedStart(ws, Windows(pkeys, b, now), 0, cap);
    assert SinceFrom(0, Windows(pkeys, a, now), cap) != SinceFrom(0, Windows(pkeys, b, now), cap);
  }

  /** Nor does the order decide whether the check succeeds. */
  lemma OutcomeIgnoresOrder(pkeys: Keys, verify: (string, Sig) -> bool, sigs: seq<Sig>, sigs': seq<Sig>, now: int)
    requires multiset(sigs) == multiset(sigs')
    ensures Kept(sigs, now) == [] <==> Kept(sigs', now) == []
    ensures (forall i :: 0 <= i < |sigs| ==> Good(pkeys, verify, now, sigs[i]))
       <==> (forall i :: 0 <= i < |sigs'| ==> Good(pkeys, verify, now, sigs'[i]))
  {
    hide Good, Kept;
    forall s ensures s in sigs <==> s in sigs' {
      assert s in sigs <==> s in multiset(sigs);
      assert s in sigs' <==> s in multiset(sigs');
    }
    KeptMembers(sigs, now);
    KeptMembers(sigs', now);
    if Kept(sigs, now) != [] { assert Kept(sigs, now)[0] in Kept(sigs', now); }
    if Kept(sigs', now) != [] { assert Kept(sigs', now)[0] in Kept(sigs, now); }
    forall i | 0 <= i < |sigs| ensures sigs[i] in sigs' { assert sigs[i] in sigs; }
    forall i | 0 <= i < |sigs'| ensures sigs'[i] in sigs { assert sigs'[i] in sigs'; }
  }
}
