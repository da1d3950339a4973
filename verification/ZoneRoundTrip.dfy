/** Parsing what was printed: every well-formed section comes back in normal form, and the normal form prints the
    same words.
 */
module ZoneRoundTrip {
  import opened Names
  import opened ZoneWords
  import opened ZoneCodec
  import opened ZoneParser

  // ---- normal form: what is not printed is reset, open range ends are spelled out ----

  function NormKey(k: Key): Key {
    Key(ED25519, RAINS, k.phase, 0, 0, k.data)
  }

  function NormObject(o: Object): Object {
    match o
    case DelegObj(k) => DelegObj(NormKey(k))
    case InfraObj(k) => InfraObj(NormKey(k))
    case ExtraObj(k) => ExtraObj(NormKey(k))
    case NextObj(k) => NextObj(NormKey(k).(since := k.since, until := k.until))
    case _ => o
  }

  function NormObjects(os: seq<Object>): seq<Object> {
    if os == [] then [] else [NormObject(os[0])] + NormObjects(os[1..])
  }

  function NormSig(s: Sig): Sig {
    s.(algo := ED25519, space := RAINS)
  }

  function NormSigs(ss: seq<Sig>): seq<Sig> {
    if ss == [] then [] else [NormSig(ss[0])] + NormSigs(ss[1..])
  }

  /** A contained assertion loses its zone and context. */
  function NormAssertion(a: Assertion, full: bool): Assertion {
    Assertion.Assertion(a.name, if full then a.zone else "", if full then a.context
      else "", NormObjects(a.content), NormSigs(a.sigs))
  }

  function NormContent(az: seq<Assertion>): seq<Assertion> {
    if az == [] then [] else [NormAssertion(az[0], false)] + NormContent(az[1..])
  }

  function NormFrom(from: string): string {
    if from == "" then "<" else from
  }

  function NormTo(to: string): string {
    if to == "" then ">" else to
  }

  function NormSection(s: Section): Section {
    match s
    case AssertionSec(a) => AssertionSec(NormAssertion(a, true))
    case ShardSec(zone, context, from, to, content, sigs) =>
      ShardSec(zone, context, NormFrom(from), NormTo(to), NormContent(content), NormSigs(sigs))
    case PshardSec(zone, context, from, to, algo, bhash, filter, sigs) =>
      PshardSec(zone, context, NormFrom(from), NormTo(to), algo, bhash, filter, NormSigs(sigs))
    case ZoneSec(zone, context, content, sigs) => ZoneSec(zone, context, NormContent(content), NormSigs(sigs))
  }

  function NormSections(ss: seq<Section>): seq<Section> {
    if ss == [] then [] else [NormSection(ss[0])] + NormSections(ss[1..])
  }

  // ---- well-formedness ----

  predicate TimesOk(since: int, until: int) {
    0 <= since <= MAX64 && 0 <= until <= MAX64
  }

  predicate KeyOk(k: Key) {
    Int64(k.phase) && |k.data| == 32
  }

  predicate ObjectOk(o: Object) {
    match o
    case NameObj(_, types) => types != []
    case DelegObj(k) => KeyOk(k)
    case NamesetObj(text) => text != []
    case CertObj(_, u, _, _) => u != CUZero
    case SrvObj(_, port, priority) => 0 <= port <= 65535 && 0 <= priority <= MAX64
    case RegrObj(text) => text != []
    case RegtObj(text) => text != []
    case InfraObj(k) => KeyOk(k)
    case ExtraObj(k) => KeyOk(k)
    case NextObj(k) => KeyOk(k) && TimesOk(k.since, k.until)
    case _ => true
  }

  predicate SigOk(s: Sig) {
    Int64(s.phase) && TimesOk(s.since, s.until)
  }

  predicate ObjectsOk(os: seq<Object>) {
    os == [] || (ObjectOk(os[0]) && ObjectsOk(os[1..]))
  }

  predicate SigsOk(ss: seq<Sig>) {
    ss == [] || (SigOk(ss[0]) && SigsOk(ss[1..]))
  }

  predicate AssertionOk(a: Assertion) {
    a.content != [] && ObjectsOk(a.content) && SigsOk(a.sigs)
  }

  predicate ContentOk(az: seq<Assertion>) {
    az == [] || (AssertionOk(az[0]) && ContentOk(az[1..]))
  }

  predicate SectionOk(s: Section) {
    match s
    case AssertionSec(a) => AssertionOk(a)
    case ShardSec(_, _, _, _, content, sigs) => ContentOk(content) && SigsOk(sigs)
    case PshardSec(_, _, _, _, _, bhash, _, sigs) => BloomHash(bhash) && SigsOk(sigs)
    case ZoneSec(_, _, content, sigs) => ContentOk(content) && SigsOk(sigs)
  }

  predicate SectionsOk(ss: seq<Section>) {
    ss == [] || (SectionOk(ss[0]) && SectionsOk(ss[1..]))
  }

  // ---- objects ----

  lemma TypeRound(t: OType)
    ensures KwType(TypeKw(t)) == Some(t)
  {
  }

  lemma ParsesType(ts: Tokens, t: OType)
    requires ts != [] && ts[0] == Kw(TypeKw(t))
    ensures ParseTypes(ts) == var more := ParseTypes(ts[1..]);
      if more == None then Some(([t], ts[1..])) else Some(([t] + more.value.0, more.value.1))
  {
    hide KwType, TypeKw;
    TypeRound(t);
  }

  lemma {:induction false} TypesRound(types: seq<OType>, rest: Tokens)
    requires types != [] && At(rest, 0, RBracket)
    ensures ParseTypes(PrintTypes(types) + rest) == Some((types, rest))
  {
    var ts := PrintTypes(types) + rest;
    var more := PrintTypes(types[1..]) + rest;
    assert ts[0] == Kw(TypeKw(types[0])) && ts[1..] == more;
    assert |types| == 1 ==> more == rest;
    hide KwType, TypeKw, ParseTypes, PrintTypes;
    ParsesType(ts, types[0]);
    assert types == [types[0]] + types[1..];
    if |types| > 1 {
      TypesRound(types[1..], rest);
    } else {
      Closing(rest);
      assert types == [types[0]];
    }
  }

  lemma Closing(rest: Tokens)
    requires At(rest, 0, RBracket)
    ensures ParseTypes(rest) == None
  {
  }

  lemma {:induction false} TextRound(text: seq<string>, rest: Tokens)
    requires text != [] && !IdAt(rest, 0)
    ensures ParseText(PrintText(text) + rest) == Some((text, rest))
  {
    var ts := PrintText(text) + rest;
    var more := PrintText(text[1..]) + rest;
    Associate([Id(text[0])], PrintText(text[1..]), rest);
    Front([Id(text[0])], more, ts);
    assert ts[0] == Id(text[0]) && ts[1..] == more;
    if |text| > 1 {
      TextRound(text[1..], rest);
      assert text == [text[0]] + text[1..];
    } else {
      assert PrintText(text[1..]) == [] && more == rest && text == [text[0]];
    }
  }

  /** Tokens at the front are found again, whatever follows. */
  lemma Front(front: Tokens, rest: Tokens, ts: Tokens)
    requires ts == front + rest
    ensures |ts| >= |front| && ts[|front|..] == rest && forall i :: 0 <= i < |front| ==> ts[i] == front[i]
  {
  }

  lemma KeyRound(k: Key)
    requires KeyOk(k)
    ensures DecodeKey(Show(k.phase), Hex(k.data)) == NormKey(k)
  {
    ShowRead(k.phase);
    HexRound(k.data);
    hide Show, Read, Hex, Unhex;
  }

  lemma TimesRound(since: int, until: int)
    requires TimesOk(since, until)
    ensures DecodeValidity(Show(since), Show(until)) == (since, until)
  {
    ShowRead(since);
    ShowRead(until);
    hide Show, Read;
  }

  lemma ParsesName(ts: Tokens, types: seq<OType>, rest: Tokens)
    requires At(ts, 0, NameType) && IdAt(ts, 1) && At(ts, 2, LBracket)
    requires ParseTypes(ts[3..]) == Some((types, [Kw(RBracket)] + rest))
    ensures ParseObject(ts) == Some((NameObj(ts[1].word, types), rest))
  {
    hide ParseTypes;
    assert ([Kw(RBracket)] + rest)[1..] == rest;
  }

  lemma NameRound(o: Object, rest: Tokens)
    requires o.NameObj? && ObjectOk(o)
    ensures ParseObject(PrintObject(o) + rest) == Some((o, rest))
  {
    hide ParseObject, ParseTypes, PrintTypes;
    var front := [Kw(NameType), Id(o.name), Kw(LBracket)];
    var ts := PrintObject(o) + rest;
    assert ts == front + (PrintTypes(o.types) + ([Kw(RBracket)] + rest));
    Front(front, PrintTypes(o.types) + ([Kw(RBracket)] + rest), ts);
    TypesRound(o.types, [Kw(RBracket)] + rest);
    ParsesName(ts, o.types, rest);
  }

  function TextObj(k: Keyword, text: seq<string>): Object {
    if k == NamesetType then NamesetObj(text) else if k == RegrType then RegrObj(text) else RegtObj(text)
  }

  lemma ParsesText(k: Keyword, ts: Tokens, text: seq<string>, rest: Tokens)
    requires k == NamesetType || k == RegrType || k == RegtType
    requires At(ts, 0, k) && ParseText(ts[1..]) == Some((text, rest))
    ensures ParseObject(ts) == Some((TextObj(k, text), rest))
  {
    hide ParseText;
  }

  lemma TextObjectRound(k: Keyword, text: seq<string>, rest: Tokens)
    requires (k == NamesetType || k == RegrType || k == RegtType) && text != [] && !IdAt(rest, 0)
    ensures ParseObject([Kw(k)] + PrintText(text) + rest) == Some((TextObj(k, text), rest))
  {
    hide ParseObject, ParseText, PrintText;
    var ts := [Kw(k)] + PrintText(text) + rest;
    assert ts == [Kw(k)] + (PrintText(text) + rest);
    Front([Kw(k)], PrintText(text) + rest, ts);
    TextRound(text, rest);
    ParsesText(k, ts, text, rest);
  }

  function KeyObj(k: Keyword, key: Key): Object {
    if k == DelegType then DelegObj(key) else if k == InfraType then InfraObj(key) else ExtraObj(key)
  }

  lemma ParsesKey(k: Keyword, ts: Tokens)
    requires (k == DelegType || k == InfraType || k == ExtraType) && At(ts, 0, k) && KeyAt(ts)
    ensures ParseObject(ts) == Some((KeyObj(k, DecodeKey(ts[2].word, ts[3].word)), ts[4..]))
  {
    hide DecodeKey;
  }

  lemma KeyObjectRound(k: Keyword, key: Key, rest: Tokens)
    requires (k == DelegType || k == InfraType || k == ExtraType) && KeyOk(key)
    ensures ParseObject([Kw(k)] + PrintKey(key) + rest) == Some((KeyObj(k, NormKey(key)), rest))
  {
    hide ParseObject, DecodeKey, Show, Hex;
    var front := [Kw(k), Kw(Ed25519), Num(key.phase), Id(Hex(key.data))];
    var ts := [Kw(k)] + PrintKey(key) + rest;
    assert ts == front + rest;
    Front(front, rest, ts);
    KeyRound(key);
    ParsesKey(k, ts);
  }

  lemma ParsesNext(ts: Tokens, since: int, until: int)
    requires At(ts, 0, NextType) && KeyAt(ts) && IdAt(ts, 4) && IdAt(ts, 5)
    requires DecodeValidity(ts[4].word, ts[5].word) == (since, until)
    ensures ParseObject(ts) ==
      Some((NextObj(DecodeKey(ts[2].word, ts[3].word).(since := since, until := until)), ts[6..]))
  {
    hide DecodeKey, DecodeValidity;
  }

  lemma NextRound(key: Key, rest: Tokens)
    requires KeyOk(key) && TimesOk(key.since, key.until)
    ensures ParseObject(PrintObject(NextObj(key)) + rest) ==
      Some((NextObj(NormKey(key).(since := key.since, until := key.until)), rest))
  {
    hide ParseObject, DecodeKey, DecodeValidity, Show, Hex;
    var front := [Kw(NextType), Kw(Ed25519), Num(key.phase), Id(Hex(key.data)), Num(key.since), Num(key.until)];
    var ts := PrintObject(NextObj(key)) + rest;
    assert ts == front + rest;
    Front(front, rest, ts);
    KeyRound(key);
    TimesRound(key.since, key.until);
    ParsesNext(ts, key.since, key.until);
  }

  lemma ParsesCert(ts: Tokens, p: Protocol, u: Usage, h: HashAlgo)
    requires |ts| >= 5 && ts[0] == Kw(CertType) && ts[4].Id? && UsageKw(u).Some?
    requires ts[1] == Kw(ProtocolKw(p)) && ts[2] == Kw(UsageKw(u).value) && ts[3] == Kw(HashKw(h))
    ensures ParseObject(ts) == Some((DecodeCert(p, u, h, ts[4].word), ts[5..]))
  {
    hide DecodeCert;
    assert KwProtocol(ProtocolKw(p)) == Some(p) && KwUsage(UsageKw(u).value) == Some(u) && KwHash(HashKw(h)) == Some(h);
    hide KwProtocol, ProtocolKw, KwUsage, UsageKw, KwHash, HashKw;
  }

  lemma CertRound(o: Object, rest: Tokens)
    requires o.CertObj? && ObjectOk(o)
    ensures ParseObject(PrintObject(o) + rest) == Some((o, rest))
  {
    hide ParseObject, Hex, Unhex;
    var front := [Kw(CertType), Kw(ProtocolKw(o.protocol)), Kw(UsageKw(o.usage).value), Kw(HashKw(o.hash)),
      Id(Hex(o.cert))];
    var ts := PrintObject(o) + rest;
    assert ts == front + rest;
    hide PrintObject, ProtocolKw, HashKw;
    Front(front, rest, ts);
    HexRound(o.cert);
    ParsesCert(ts, o.protocol, o.usage, o.hash);
  }

  lemma SrvRound(o: Object, rest: Tokens)
    requires o.SrvObj? && ObjectOk(o)
    ensures ParseObject(PrintObject(o) + rest) == Some((o, rest))
  {
    var ts := PrintObject(o) + rest;
    assert ts[4..] == rest;
    ShowRead(o.port);
    ShowRead(o.priority);
    hide Show, Read;
  }

  lemma WordRound(o: Object, rest: Tokens)
    requires o.Ip6Obj? || o.Ip4Obj? || o.ScionObj? || o.RedirObj?
    ensures ParseObject(PrintObject(o) + rest) == Some((o, rest))
  {
    var ts := PrintObject(o) + rest;
    assert ts[2..] == rest;
  }

  lemma ObjectRound(o: Object, rest: Tokens)
    requires ObjectOk(o) && !IdAt(rest, 0)
    ensures ParseObject(PrintObject(o) + rest) == Some((NormObject(o), rest))
  {
    hide ParseObject, PrintKey, PrintText;
    match o
    case NameObj(_, _) => NameRound(o, rest);
    case Ip6Obj(_) => WordRound(o, rest);
    case Ip4Obj(_) => WordRound(o, rest);
    case ScionObj(_) => WordRound(o, rest);
    case RedirObj(_) => WordRound(o, rest);
    case DelegObj(key) => KeyObjectRound(DelegType, key, rest);
    case NamesetObj(text) => TextObjectRound(NamesetType, text, rest);
    case CertObj(_, _, _, _) => CertRound(o, rest);
    case SrvObj(_, _, _) => SrvRound(o, rest);
    case RegrObj(text) => TextObjectRound(RegrType, text, rest);
    case RegtObj(text) => TextObjectRound(RegtType, text, rest);
    case InfraObj(key) => KeyObjectRound(InfraType, key, rest);
    case ExtraObj(key) => KeyObjectRound(ExtraType, key, rest);
    case NextObj(key) => NextRound(key, rest);
  }

  /** An object starts with the keyword of its type. */
  lemma ObjectStarts(o: Object)
    ensures PrintObject(o) != [] && PrintObject(o)[0].Kw? && PrintObject(o)[0].k != RBracket
  {
    hide PrintTypes, PrintText, PrintKey, Show, Hex;
  }

  lemma {:induction false} ObjectsRound(os: seq<Object>, rest: Tokens)
    requires os != [] && ObjectsOk(os)
    ensures ParseObjects(PrintObjects(os) + ([Kw(RBracket)] + rest)) == Some((NormObjects(os), rest))
  {
    var close := [Kw(RBracket)] + rest;
    var more := PrintObjects(os[1..]) + close;
    Associate(PrintObject(os[0]), PrintObjects(os[1..]), close);
    hide PrintObject, ParseObject, ObjectOk, NormObject;
    if |os| == 1 {
      assert os[1..] == [] && more == close && close[1..] == rest;
      ObjectRound(os[0], close);
      assert NormObjects(os) == [NormObject(os[0])] + NormObjects([]) == [NormObject(os[0])];
    } else {
      ObjectStarts(os[1]);
      assert more[0] == PrintObject(os[1])[0];
      ObjectRound(os[0], more);
      ObjectsRound(os[1..], rest);
    }
  }

  // ---- signatures ----

  lemma SigDecodes(s: Sig)
    requires SigOk(s)
    ensures DecodeSig(Show(s.phase), Show(s.since), Show(s.until), s.data) == NormSig(s)
  {
    ShowRead(s.phase);
    TimesRound(s.since, s.until);
    hide Show, Read, DecodeValidity;
  }

  lemma ParsesSig(ts: Tokens, phase: string, since: string, until: string)
    requires |ts| >= 6 && ts[0] == Kw(Signature) && ts[1] == Kw(Ed25519) && ts[2] == Kw(Rains)
    requires ts[3] == Id(phase) && ts[4] == Id(since) && ts[5] == Id(until)
    ensures IdAt(ts, 6) ==> ParseSig(ts) == Some((DecodeSig(phase, since, until, UnhexPrefix(ts[6].word)), ts[7..]))
    ensures !IdAt(ts, 6) ==> ParseSig(ts) == Some((DecodeSig(phase, since, until, []), ts[6..]))
  {
    hide DecodeSig, UnhexPrefix;
  }

  lemma BareTokens(s: Sig)
    requires s.data == []
    ensures PrintSig(s) == [Kw(Signature), Kw(Ed25519), Kw(Rains), Num(s.phase), Num(s.since), Num(s.until)]
  {
    hide Show, Hex;
  }

  lemma NextAfter(front: Tokens, rest: Tokens)
    ensures IdAt(front + rest, |front|) == IdAt(rest, 0)
  {
  }

  lemma BareSigRound(s: Sig, rest: Tokens)
    requires SigOk(s) && s.data == [] && !IdAt(rest, 0)
    ensures ParseSig(PrintSig(s) + rest) == Some((NormSig(s), rest))
  {
    hide DecodeSig, Show, NormSig, ParseSig, SigOk, PrintSig, IdAt;
    SigDecodes(s);
    BareTokens(s);
    var ts := PrintSig(s) + rest;
    Front(PrintSig(s), rest, ts);
    NextAfter(PrintSig(s), rest);
    ParsesSig(ts, Show(s.phase), Show(s.since), Show(s.until));
  }

  lemma SignedTokens(s: Sig)
    requires s.data != []
    ensures PrintSig(s)
         == [Kw(Signature), Kw(Ed25519), Kw(Rains), Num(s.phase), Num(s.since), Num(s.until), Id(Hex(s.data))]
  {
    hide Show, Hex;
  }

  lemma HexPrefix(bytes: seq<Byte>)
    ensures UnhexPrefix(Hex(bytes)) == bytes
  {
    HexRound(bytes);
    hide UnhexPrefix, Hex, Unhex;
    UnhexIsPrefix(Hex(bytes));
  }

  lemma SignedRound(s: Sig, rest: Tokens)
    requires SigOk(s) && s.data != []
    ensures ParseSig(PrintSig(s) + rest) == Some((NormSig(s), rest))
  {
    hide DecodeSig, Show, Hex, UnhexPrefix, NormSig, ParseSig, SigOk, PrintSig;
    SigDecodes(s);
    HexPrefix(s.data);
    SignedTokens(s);
    var ts := PrintSig(s) + rest;
    Front(PrintSig(s), rest, ts);
    ParsesSig(ts, Show(s.phase), Show(s.since), Show(s.until));
  }

  lemma SigRound(s: Sig, rest: Tokens)
    requires SigOk(s) && !IdAt(rest, 0)
    ensures ParseSig(PrintSig(s) + rest) == Some((NormSig(s), rest))
  {
    hide ParseSig, PrintSig, NormSig, SigOk;
    if s.data == [] { BareSigRound(s, rest); } else { SignedRound(s, rest); }
  }

  lemma {:induction false} SigListRound(ss: seq<Sig>, rest: Tokens)
    requires ss != [] && SigsOk(ss)
    ensures ParseSigList(PrintSigList(ss) + ([Kw(RParen)] + rest)) == Some((NormSigs(ss), rest))
  {
    var close := [Kw(RParen)] + rest;
    var more := PrintSigList(ss[1..]) + close;
    Associate(PrintSig(ss[0]), PrintSigList(ss[1..]), close);
    if |ss| > 1 { assert PrintSig(ss[1])[0] == Kw(Signature); }
    hide PrintSig, ParseSig, SigOk, NormSig;
    if |ss| == 1 {
      assert ss[1..] == [] && more == close && close[1..] == rest;
      SigRound(ss[0], close);
      assert NormSigs(ss) == [NormSig(ss[0])] + NormSigs([]) == [NormSig(ss[0])];
    } else {
      assert more[0] == PrintSig(ss[1])[0] by { SigNotEmpty(ss[1]); }
      SigRound(ss[0], more);
      SigListRound(ss[1..], rest);
    }
  }

  lemma SigNotEmpty(s: Sig)
    ensures PrintSig(s) != []
  {
  }

  lemma SigsRound(ss: seq<Sig>, rest: Tokens)
    requires SigsOk(ss) && !At(rest, 0, LParen)
    ensures ParseSigs(PrintSigs(ss) + rest) == Some((NormSigs(ss), rest))
  {
    hide PrintSigList, ParseSigList, SigOk;
    if ss == [] {
      assert [] + rest == rest;
    } else {
      var tail := PrintSigList(ss) + ([Kw(RParen)] + rest);
      assert PrintSigs(ss) + rest == [Kw(LParen)] + tail;
      Front([Kw(LParen)], tail, PrintSigs(ss) + rest);
      SigListRound(ss, rest);
    }
  }

  // ---- assertions and sections ----

  lemma BodyRound(a: Assertion, zone: string, context: string, rest: Tokens)
    requires AssertionOk(a) && !At(rest, 0, LParen)
    ensures FinishAssertion(a.name, zone, context, PrintObjects(a.content) +
      ([Kw(RBracket)] + (PrintSigs(a.sigs) + rest)))
      == Some((Assertion.Assertion(a.name, zone, context, NormObjects(a.content), NormSigs(a.sigs)), rest))
  {
    hide ParseObjects, PrintObjects, ParseSigs, PrintSigs, ObjectsOk, SigsOk, NormObjects, NormSigs;
    ObjectsRound(a.content, PrintSigs(a.sigs) + rest);
    SigsRound(a.sigs, rest);
  }

  lemma AssertionRound(a: Assertion, full: bool, rest: Tokens)
    requires AssertionOk(a) && !At(rest, 0, LParen)
    ensures ParseAssertion(PrintAssertion(a, full) + rest) == Some((NormAssertion(a, full), rest))
  {
    hide FinishAssertion, PrintObjects, PrintSigs, AssertionOk, NormObjects, NormSigs;
    var front := if full then [Kw(Keyword.Assertion), Id(a.name), Id(a.zone), Id(a.context), Kw(LBracket)]
      else [Kw(Keyword.Assertion), Id(a.name), Kw(LBracket)];
    var body := PrintObjects(a.content) + ([Kw(RBracket)] + (PrintSigs(a.sigs) + rest));
    var ts := PrintAssertion(a, full) + rest;
    assert ts == front + body;
    Front(front, body, ts);
    BodyRound(a, if full then a.zone else "", if full then a.context else "", rest);
  }

  lemma {:induction false} ContentRound(az: seq<Assertion>, rest: Tokens)
    requires ContentOk(az)
    ensures ParseContent(PrintContent(az) + ([Kw(RBracket)] + rest)) == Some((NormContent(az), rest))
  {
    var close := [Kw(RBracket)] + rest;
    if az == [] {
      assert PrintContent(az) + close == close && close[1..] == rest;
    } else {
      var more := PrintContent(az[1..]) + close;
      Associate(PrintAssertion(az[0], false), PrintContent(az[1..]), close);
      assert PrintAssertion(az[0], false)[0] == Kw(Keyword.Assertion);
      NoAnnotation(az[1..], close);
      hide PrintAssertion, ParseAssertion, AssertionOk, NormAssertion;
      AssertionRound(az[0], false, more);
      ContentRound(az[1..], rest);
    }
  }

  lemma NoAnnotation(az: seq<Assertion>, close: Tokens)
    requires At(close, 0, RBracket)
    ensures !At(PrintContent(az) + close, 0, LParen)
  {
    hide PrintObjects, PrintSigs;
    if az != [] {
      assert (PrintContent(az) + close)[0] == PrintAssertion(az[0], false)[0];
    }
  }

  lemma RangeRound(from: string, to: string)
    ensures ParseFrom(FromToken(from)) == Some(NormFrom(from)) && ParseTo(ToToken(to)) == Some(NormTo(to))
  {
  }

  lemma ShardRound(s: Section, rest: Tokens)
    requires s.ShardSec? && SectionOk(s) && !At(rest, 0, LParen)
    ensures ParseShard(PrintSection(s) + rest) == Some((NormSection(s), rest))
    ensures At(PrintSection(s) + rest, 0, Keyword.Shard)
  {
    hide ParseContent, PrintContent, ParseSigs, PrintSigs, ContentOk, SigsOk, NormContent, NormSigs;
    RangeRound(s.from, s.to);
    var front := [Kw(Keyword.Shard), Id(s.zone), Id(s.context), FromToken(s.from), ToToken(s.to), Kw(LBracket)];
    var body := PrintContent(s.content) + ([Kw(RBracket)] + (PrintSigs(s.sigs) + rest));
    var ts := PrintSection(s) + rest;
    assert ts == front + body;
    hide ParseFrom, ParseTo, FromToken, ToToken, NormFrom, NormTo;
    Front(front, body, ts);
    ContentRound(s.content, PrintSigs(s.sigs) + rest);
    SigsRound(s.sigs, rest);
  }

  lemma ZoneRound(s: Section, rest: Tokens)
    requires s.ZoneSec? && SectionOk(s) && !At(rest, 0, LParen)
    ensures ParseZone(PrintSection(s) + rest) == Some((NormSection(s), rest))
    ensures At(PrintSection(s) + rest, 0, Keyword.Zone)
  {
    hide ParseContent, PrintContent, ParseSigs, PrintSigs, ContentOk, SigsOk, NormContent, NormSigs;
    var front := [Kw(Keyword.Zone), Id(s.zone), Id(s.context), Kw(LBracket)];
    var body := PrintContent(s.content) + ([Kw(RBracket)] + (PrintSigs(s.sigs) + rest));
    var ts := PrintSection(s) + rest;
    assert ts == front + body;
    Front(front, body, ts);
    ContentRound(s.content, PrintSigs(s.sigs) + rest);
    SigsRound(s.sigs, rest);
  }

  lemma FilterRound(algo: BloomAlgo, h: HashAlgo, filter: seq<Byte>)
    ensures KwBloom(BloomKw(algo)) == Some(algo) && KwHash(HashKw(h)) == Some(h) && UnhexPrefix(Hex(filter)) == filter
  {
    HexRound(filter);
    UnhexIsPrefix(Hex(filter));
  }

  lemma PshardRound(s: Section, rest: Tokens)
    requires s.PshardSec? && SectionOk(s) && !At(rest, 0, LParen)
    ensures ParsePshard(PrintSection(s) + rest) == Some((NormSection(s), rest))
    ensures At(PrintSection(s) + rest, 0, Keyword.Pshard)
  {
    hide ParseSigs, PrintSigs, SigsOk, NormSigs, Hex, UnhexPrefix, KwBloom, BloomKw, KwHash, HashKw;
    RangeRound(s.from, s.to);
    FilterRound(s.algo, s.bhash, s.filter);
    var front := [Kw(Keyword.Pshard), Id(s.zone), Id(s.context), FromToken(s.from), ToToken(s.to), Kw(BloomKw(s.algo)),
      Kw(HashKw(s.bhash)), Id(Hex(s.filter))];
    var body := PrintSigs(s.sigs) + rest;
    var ts := PrintSection(s) + rest;
    assert ts == front + body;
    hide ParseFrom, ParseTo, FromToken, ToToken, NormFrom, NormTo;
    Front(front, body, ts);
    SigsRound(s.sigs, rest);
  }

  lemma SectionRound(s: Section, rest: Tokens)
    requires SectionOk(s) && !At(rest, 0, LParen)
    ensures ParseSection(PrintSection(s) + rest) == Some((NormSection(s), rest)) && PrintSection(s) != []
  {
    match s
    case AssertionSec(a) =>
      hide ParseAssertion, PrintObjects, PrintSigs, NormAssertion;
      AssertionRound(a, true, rest);
      assert PrintAssertion(a, true)[0] == Kw(Keyword.Assertion);
    case ShardSec(_, _, _, _, _, _) =>
      ShardRound(s, rest);
      hide ParseShard, NormSection, PrintContent, PrintSigs;
    case PshardSec(_, _, _, _, _, _, _, _) =>
      PshardRound(s, rest);
      hide ParsePshard, NormSection, PrintSigs;
    case ZoneSec(_, _, _, _) =>
      ZoneRound(s, rest);
      hide ParseZone, NormSection, PrintContent, PrintSigs;
  }

  lemma {:induction false} NoAnnotationNext(ss: seq<Section>)
    ensures !At(PrintSections(ss), 0, LParen)
  {
    if ss != [] {
      hide PrintObjects, PrintSigs, PrintContent;
      assert PrintSections(ss)[0] == PrintSection(ss[0])[0];
    }
  }

  /** Decoding the printed tokens of well-formed sections gives the sections in normal form. */
  lemma {:induction false} SectionsRound(ss: seq<Section>)
    requires SectionsOk(ss)
    ensures ParseSections(PrintSections(ss)) == Some(NormSections(ss))
  {
    if ss != [] {
      NoAnnotationNext(ss[1..]);
      hide ParseSection, PrintSection, NormSection, SectionOk;
      SectionRound(ss[0], PrintSections(ss[1..]));
      SectionsRound(ss[1..]);
    }
  }

  // ---- printing the normal form again ----

  lemma ObjectPrintsTheSame(o: Object)
    ensures PrintObject(NormObject(o)) == PrintObject(o)
  {
  }

  lemma {:induction false} ObjectsPrintTheSame(os: seq<Object>)
    ensures PrintObjects(NormObjects(os)) == PrintObjects(os)
  {
    if os != [] {
      ObjectPrintsTheSame(os[0]);
      ObjectsPrintTheSame(os[1..]);
      hide PrintObject, NormObject;
      assert NormObjects(os)[1..] == NormObjects(os[1..]);
    }
  }

  lemma {:induction false} SigListPrintsTheSame(ss: seq<Sig>)
    ensures PrintSigList(NormSigs(ss)) == PrintSigList(ss) && (NormSigs(ss) == [] <==> ss == [])
  {
    if ss != [] {
      SigListPrintsTheSame(ss[1..]);
      assert PrintSig(NormSig(ss[0])) == PrintSig(ss[0]);
      assert NormSigs(ss)[1..] == NormSigs(ss[1..]);
    }
  }

  lemma AssertionPrintsTheSame(a: Assertion, full: bool)
    ensures PrintAssertion(NormAssertion(a, full), full) == PrintAssertion(a, full)
  {
    ObjectsPrintTheSame(a.content);
    SigListPrintsTheSame(a.sigs);
    hide PrintObjects, PrintSigList, NormObjects, NormSigs;
  }

  lemma {:induction false} ContentPrintsTheSame(az: seq<Assertion>)
    ensures PrintContent(NormContent(az)) == PrintContent(az)
  {
    if az != [] {
      AssertionPrintsTheSame(az[0], false);
      ContentPrintsTheSame(az[1..]);
      hide PrintAssertion, NormAssertion;
      assert NormContent(az)[1..] == NormContent(az[1..]);
    }
  }

  lemma SectionPrintsTheSame(s: Section)
    ensures PrintSection(NormSection(s)) == PrintSection(s)
  {
    match s
    case AssertionSec(a) =>
      AssertionPrintsTheSame(a, true);
      hide PrintAssertion, NormAssertion;
    case ShardSec(_, _, _, _, content, sigs) =>
      ContentPrintsTheSame(content);
      SigListPrintsTheSame(sigs);
      hide PrintContent, NormContent, PrintSigList, NormSigs;
    case PshardSec(_, _, _, _, _, _, _, sigs) =>
      SigListPrintsTheSame(sigs);
      hide PrintSigList, NormSigs;
    case ZoneSec(_, _, content, sigs) =>
      ContentPrintsTheSame(content);
      SigListPrintsTheSame(sigs);
      hide PrintContent, NormContent, PrintSigList, NormSigs;
  }

  /** The normal form prints the same tokens. */
  lemma {:induction false} SectionsPrintTheSame(ss: seq<Section>)
    ensures PrintSections(NormSections(ss)) == PrintSections(ss)
  {
    if ss != [] {
      SectionPrintsTheSame(ss[0]);
      SectionsPrintTheSame(ss[1..]);
      hide PrintSection, NormSection;
      assert NormSections(ss)[1..] == NormSections(ss[1..]);
    }
  }

  // ---- words ----

  function Word(t: Token): string {
    match t case Kw(k) => Spell(k) case Id(w) => w
  }

  function Words(ts: Tokens): seq<string> {
    if ts == [] then [] else [Word(ts[0])] + Words(ts[1..])
  }

  function LexAll(ws: seq<string>): Tokens {
    if ws == [] then [] else [Lex(ws[0])] + LexAll(ws[1..])
  }

  /** Every identifier is a plain word. */
  ghost predicate PlainWords(ts: Tokens) {
    forall i :: 0 <= i < |ts| && ts[i].Id? ==> Plain(ts[i].word)
  }

  lemma {:induction false} LexWords(ts: Tokens)
    requires PlainWords(ts)
    ensures LexAll(Words(ts)) == ts
  {
    if ts != [] {
      hide Spell, Unspell, Plain, Lex;
      LexWords(ts[1..]);
      assert Words(ts)[0] == Word(ts[0]) && Words(ts)[1..] == Words(ts[1..]);
      match ts[0]
      case Kw(k) => LexSpell(k);
      case Id(w) => LexPlain(w);
    }
  }

  // ---- numbers and byte strings are plain words ----

  predicate HarmlessChar(c: char) {
    '0' <= c <= '9' || 'a' <= c <= 'f' || c == '-'
  }

  predicate Harmless(s: string) {
    forall i :: 0 <= i < |s| ==> HarmlessChar(s[i])
  }

  lemma SignsAreNotHarmless(c: char)
    requires Sign(c)
    ensures !HarmlessChar(c)
  {
  }

  lemma HarmlessIsWhole(s: string)
    requires s != "" && Harmless(s)
    ensures Whole(s)
  {
  }

  lemma HarmlessIsPlain(s: string)
    requires s != "" && Harmless(s)
    ensures Plain(s)
  {
    assert HarmlessChar(s[0]);
    HarmlessIsWhole(s);
    hide Spell, HarmlessChar, Sign, Harmless;
    forall k: Keyword ensures Spell(k) != s {
      SpellSigned(k);
      SignsAreNotHarmless(Spell(k)[0]);
    }
  }

  lemma {:induction false} NatIsHarmless(n: nat)
    ensures Harmless(ShowNat(n))
  {
    if n >= 10 { NatIsHarmless(n / 10); }
  }

  lemma NumberIsPlain(n: int)
    ensures Plain(Show(n))
  {
    NatIsHarmless(if n < 0 then -n else n);
    ShowReadNat(if n < 0 then -n else n);
    hide ShowNat, ReadNat, Plain;
    HarmlessIsPlain(Show(n));
  }

  lemma NibbleIsHarmless(d: nat)
    requires d < 16
    ensures HarmlessChar(Nibble(d))
  {
  }

  lemma {:induction false} HexIsHarmless(bytes: seq<Byte>)
    ensures Harmless(Hex(bytes)) && |Hex(bytes)| == 2 * |bytes|
  {
    hide Nibble, HarmlessChar;
    if bytes != [] {
      HexIsHarmless(bytes[1..]);
      var hi, lo := bytes[0] / 16, bytes[0] % 16;
      NibbleIsHarmless(hi);
      NibbleIsHarmless(lo);
      assert Hex(bytes) == [Nibble(hi), Nibble(lo)] + Hex(bytes[1..]);
    }
  }

  lemma HexIsPlain(bytes: seq<Byte>)
    requires bytes != []
    ensures Plain(Hex(bytes))
  {
    HexIsHarmless(bytes);
    hide Hex, Plain, Harmless;
    HarmlessIsPlain(Hex(bytes));
  }

  // ---- sections whose words are plain ----

  ghost predicate AllPlain(ws: seq<string>) {
    ws == [] || (Plain(ws[0]) && AllPlain(ws[1..]))
  }

  ghost predicate ObjectPlain(o: Object) {
    match o
    case NameObj(name, _) => Plain(name)
    case Ip6Obj(addr) => Plain(addr)
    case Ip4Obj(addr) => Plain(addr)
    case ScionObj(addr) => Plain(addr)
    case RedirObj(name) => Plain(name)
    case NamesetObj(text) => AllPlain(text)
    case RegrObj(text) => AllPlain(text)
    case RegtObj(text) => AllPlain(text)
    case CertObj(_, _, _, cert) => cert != []
    case SrvObj(name, _, _) => Plain(name)
    case _ => true
  }

  ghost predicate ObjectsPlain(os: seq<Object>) {
    os == [] || (ObjectPlain(os[0]) && ObjectsPlain(os[1..]))
  }

  ghost predicate AssertionPlain(a: Assertion, full: bool) {
    Plain(a.name) && (full ==> Plain(a.zone) && Plain(a.context)) && ObjectsPlain(a.content)
  }

  ghost predicate ContentPlain(az: seq<Assertion>) {
    az == [] || (AssertionPlain(az[0], false) && ContentPlain(az[1..]))
  }

  ghost predicate BoundsPlain(from: string, to: string) {
    (from == "" || from == "<" || Plain(from)) && (to == "" || to == ">" || Plain(to))
  }

  ghost predicate SectionPlain(s: Section) {
    match s
    case AssertionSec(a) => AssertionPlain(a, true)
    case ShardSec(zone, context, from, to, content, _) => Plain(zone) && Plain(context) && BoundsPlain(from, to) &&
      ContentPlain(content)
    case PshardSec(zone, context, from, to, _, _, filter, _) => Plain(zone) && Plain(context) &&
      BoundsPlain(from, to) && filter != []
    case ZoneSec(zone, context, content, _) => Plain(zone) && Plain(context) && ContentPlain(content)
  }

  ghost predicate SectionsPlain(ss: seq<Section>) {
    ss == [] || (SectionPlain(ss[0]) && SectionsPlain(ss[1..]))
  }

  lemma PlainJoin(a: Tokens, b: Tokens)
    requires PlainWords(a) && PlainWords(b)
    ensures PlainWords(a + b)
  {
  }

  lemma {:induction false} TypesPrintPlain(types: seq<OType>)
    ensures PlainWords(PrintTypes(types))
  {
    if types != [] { TypesPrintPlain(types[1..]); }
  }

  lemma {:induction false} TextPrintsPlain(text: seq<string>)
    requires AllPlain(text)
    ensures PlainWords(PrintText(text))
  {
    hide Plain;
    if text != [] { TextPrintsPlain(text[1..]); }
  }

  lemma KeyPrintsPlain(k: Key)
    requires |k.data| == 32
    ensures PlainWords(PrintKey(k))
  {
    hide Plain, Show, Hex;
    NumberIsPlain(k.phase);
    HexIsPlain(k.data);
  }

  lemma ObjectPrintsPlain(o: Object)
    requires ObjectOk(o) && ObjectPlain(o)
    ensures PlainWords(PrintObject(o))
  {
    hide Plain, Show, Hex, PrintKey, PrintText, PrintTypes, AllPlain;
    match o
    case NameObj(_, types) => TypesPrintPlain(types);
    case DelegObj(k) => KeyPrintsPlain(k);
    case InfraObj(k) => KeyPrintsPlain(k);
    case ExtraObj(k) => KeyPrintsPlain(k);
    case NextObj(k) =>
      KeyPrintsPlain(k);
      NumberIsPlain(k.since);
      NumberIsPlain(k.until);
    case NamesetObj(text) => TextPrintsPlain(text);
    case RegrObj(text) => TextPrintsPlain(text);
    case RegtObj(text) => TextPrintsPlain(text);
    case CertObj(_, _, _, cert) => HexIsPlain(cert);
    case SrvObj(_, port, priority) =>
      NumberIsPlain(port);
      NumberIsPlain(priority);
    case _ =>
  }

  lemma {:induction false} ObjectsPrintPlain(os: seq<Object>)
    requires ObjectsOk(os) && ObjectsPlain(os)
    ensures PlainWords(PrintObjects(os))
  {
    hide PrintObject, ObjectOk, ObjectPlain, PlainWords;
    if os == [] {
      NothingIsPlain();
    } else {
      ObjectPrintsPlain(os[0]);
      ObjectsPrintPlain(os[1..]);
      PlainJoin(PrintObject(os[0]), PrintObjects(os[1..]));
    }
  }

  lemma NothingIsPlain()
    ensures PlainWords([])
  {
  }

  lemma SigPrintsPlain(s: Sig)
    ensures PlainWords(PrintSig(s))
  {
    hide Plain, Show, Hex;
    NumberIsPlain(s.phase);
    NumberIsPlain(s.since);
    NumberIsPlain(s.until);
    if s.data != [] { HexIsPlain(s.data); }
  }

  lemma {:induction false} SigListPrintsPlain(ss: seq<Sig>)
    ensures PlainWords(PrintSigList(ss))
  {
    hide PrintSig, PlainWords;
    if ss == [] {
      NothingIsPlain();
    } else {
      SigPrintsPlain(ss[0]);
      SigListPrintsPlain(ss[1..]);
      PlainJoin(PrintSig(ss[0]), PrintSigList(ss[1..]));
    }
  }

  /** Keywords and plain words around a plain middle. */
  lemma Enclosed(front: Tokens, middle: Tokens, sigs: seq<Sig>)
    requires PlainWords(front) && PlainWords(middle)
    ensures PlainWords(front + (middle + ([Kw(RBracket)] + PrintSigs(sigs)))) && PlainWords(front + PrintSigs(sigs))
  {
    hide Plain, PrintSigList;
    SigListPrintsPlain(sigs);
  }

  lemma AssertionPrintsPlain(a: Assertion, full: bool)
    requires AssertionOk(a) && AssertionPlain(a, full)
    ensures PlainWords(PrintAssertion(a, full))
  {
    hide Plain, PrintObjects, PrintSigs, ObjectsOk, ObjectsPlain;
    ObjectsPrintPlain(a.content);
    var front := if full then [Kw(Keyword.Assertion), Id(a.name), Id(a.zone), Id(a.context), Kw(LBracket)]
      else [Kw(Keyword.Assertion), Id(a.name), Kw(LBracket)];
    Enclosed(front, PrintObjects(a.content), a.sigs);
  }

  lemma {:induction false} ContentPrintsPlain(az: seq<Assertion>)
    requires ContentOk(az) && ContentPlain(az)
    ensures PlainWords(PrintContent(az))
  {
    hide PrintAssertion, AssertionOk, AssertionPlain, PlainWords;
    if az == [] {
      NothingIsPlain();
    } else {
      AssertionPrintsPlain(az[0], false);
      ContentPrintsPlain(az[1..]);
      PlainJoin(PrintAssertion(az[0], false), PrintContent(az[1..]));
    }
  }

  lemma SectionPrintsPlain(s: Section)
    requires SectionOk(s) && SectionPlain(s)
    ensures PlainWords(PrintSection(s))
  {
    hide Plain, PrintContent, PrintSigs, ContentOk, ContentPlain, PrintAssertion, AssertionOk, AssertionPlain, Hex;
    hide BloomKw, HashKw;
    match s
    case AssertionSec(a) => AssertionPrintsPlain(a, true);
    case ShardSec(zone, context, from, to, content, sigs) =>
      ContentPrintsPlain(content);
      Enclosed([Kw(Keyword.Shard), Id(zone), Id(context), FromToken(from), ToToken(to), Kw(LBracket)],
        PrintContent(content), sigs);
    case PshardSec(zone, context, from, to, algo, bhash, filter, sigs) =>
      HexIsPlain(filter);
      Enclosed([Kw(Keyword.Pshard), Id(zone), Id(context), FromToken(from), ToToken(to), Kw(BloomKw(algo)),
        Kw(HashKw(bhash)), Id(Hex(filter))], [], sigs);
    case ZoneSec(zone, context, content, sigs) =>
      ContentPrintsPlain(content);
      Enclosed([Kw(Keyword.Zone), Id(zone), Id(context), Kw(LBracket)], PrintContent(content), sigs);
  }

  lemma {:induction false} SectionsPrintPlain(ss: seq<Section>)
    requires SectionsOk(ss) && SectionsPlain(ss)
    ensures PlainWords(PrintSections(ss))
  {
    hide PrintSection, SectionOk, SectionPlain, PlainWords;
    if ss == [] {
      NothingIsPlain();
    } else {
      SectionPrintsPlain(ss[0]);
      SectionsPrintPlain(ss[1..]);
      PlainJoin(PrintSection(ss[0]), PrintSections(ss[1..]));
    }
  }

  /** The round trip on words: printing well-formed sections whose own words are plain, splitting into words, lexing
      and parsing gives the normal form, and printing that gives the same words. */
  lemma WordsRound(ss: seq<Section>)
    requires SectionsOk(ss) && SectionsPlain(ss)
    ensures ParseSections(LexAll(Words(PrintSections(ss)))) == Some(NormSections(ss))
    ensures Words(PrintSections(NormSections(ss))) == Words(PrintSections(ss))
  {
    SectionsPrintPlain(ss);
    LexWords(PrintSections(ss));
    SectionsRound(ss);
    SectionsPrintTheSame(ss);
    hide *;
  }
}
