/** The printer's loops, which append one object, signature or assertion after the other.
 */
module ZoneEncoder {
  import opened Names
  import opened ZoneWords
  import opened ZoneCodec

  lemma {:induction false} ObjectsGrow(os: seq<Object>, o: Object)
    ensures PrintObjects(os + [o]) == PrintObjects(os) + PrintObject(o)
  {
    hide PrintObject;
    if os == [] {
      assert [o][1..] == [] && PrintObjects([o]) == PrintObject(o) + PrintObjects([]);
    } else {
      assert (os + [o])[1..] == os[1..] + [o];
      ObjectsGrow(os[1..], o);
    }
  }

  lemma {:induction false} SigListGrows(ss: seq<Sig>, s: Sig)
    ensures PrintSigList(ss + [s]) == PrintSigList(ss) + PrintSig(s)
  {
    hide PrintSig;
    if ss == [] {
      assert [s][1..] == [] && PrintSigList([s]) == PrintSig(s) + PrintSigList([]);
    } else {
      assert (ss + [s])[1..] == ss[1..] + [s];
      SigListGrows(ss[1..], s);
    }
  }

  lemma {:induction false} ContentGrows(az: seq<Assertion>, a: Assertion)
    ensures PrintContent(az + [a]) == PrintContent(az) + PrintAssertion(a, false)
  {
    hide PrintAssertion;
    if az == [] {
      assert [a][1..] == [] && PrintContent([a]) == PrintAssertion(a, false) + PrintContent([]);
    } else {
      assert (az + [a])[1..] == az[1..] + [a];
      ContentGrows(az[1..], a);
    }
  }

  /** Nothing prints as nothing. */
  lemma NothingPrints()
    ensures PrintObjects([]) == [] && PrintSigList([]) == [] && PrintContent([]) == []
  {
  }

  lemma Takes<T>(s: seq<T>)
    ensures s[..0] == [] && s[..|s|] == s
    ensures forall i :: 0 <= i < |s| ==> s[..i + 1] == s[..i] + [s[i]]
  {
  }

  method EncodeObjects(os: seq<Object>) returns (ts: Tokens)
    ensures ts == PrintObjects(os)
  {
    hide *;
    NothingPrints();
    Takes(os);
    ts := [];
    for i := 0 to |os|
      invariant ts == PrintObjects(os[..i])
    {
      ObjectsGrow(os[..i], os[i]);
      ts := ts + PrintObject(os[i]);
    }
  }

  /** The loop over the signatures. */
  method EncodeSigList(ss: seq<Sig>) returns (ts: Tokens)
    ensures ts == PrintSigList(ss)
  {
    hide *;
    NothingPrints();
    Takes(ss);
    ts := [];
    for i := 0 to |ss|
      invariant ts == PrintSigList(ss[..i])
    {
      SigListGrows(ss[..i], ss[i]);
      ts := ts + PrintSig(ss[i]);
    }
  }

  method EncodeSigs(ss: seq<Sig>) returns (ts: Tokens)
    ensures ts == PrintSigs(ss)
  {
    hide PrintSigList;
    if ss == [] { return []; }
    ts := EncodeSigList(ss);
    ts := [Kw(LParen)] + (ts + [Kw(RParen)]);
  }

  method EncodeAssertion(a: Assertion, full: bool) returns (ts: Tokens)
    ensures ts == PrintAssertion(a, full)
  {
    hide PrintObjects, PrintSigs;
    var front := if full then [Kw(Keyword.Assertion), Id(a.name), Id(a.zone), Id(a.context), Kw(LBracket)]
      else [Kw(Keyword.Assertion), Id(a.name), Kw(LBracket)];
    var sigs := EncodeSigs(a.sigs);
    var objects := EncodeObjects(a.content);
    ts := front + (objects + ([Kw(RBracket)] + sigs));
  }

  method EncodeContent(az: seq<Assertion>) returns (ts: Tokens)
    ensures ts == PrintContent(az)
  {
    hide *;
    NothingPrints();
    Takes(az);
    ts := [];
    for i := 0 to |az|
      invariant ts == PrintContent(az[..i])
    {
      ContentGrows(az[..i], az[i]);
      var next := EncodeAssertion(az[i], false);
      ts := ts + next;
    }
  }

  /** A zone or a shard: a head, the assertions and the signatures. */
  method EncodeZoneOrShard(s: Section) returns (ts: Tokens)
    requires s.ZoneSec? || s.ShardSec?
    ensures ts == PrintSection(s)
  {
    hide PrintContent, PrintSigs;
    var content := EncodeContent(s.content);
    var sigs := EncodeSigs(s.sigs);
    var tail := content + ([Kw(RBracket)] + sigs);
    if s.ZoneSec? {
      ts := [Kw(Keyword.Zone), Id(s.zone), Id(s.context), Kw(LBracket)] + tail;
    } else {
      var rangeFrom, rangeTo := s.from, s.to;
      if rangeFrom == "" { rangeFrom := "<"; }
      if rangeTo == "" { rangeTo := ">"; }
      ts := [Kw(Keyword.Shard), Id(s.zone), Id(s.context), FromToken(rangeFrom), ToToken(rangeTo), Kw(LBracket)] + tail;
    }
  }
}
