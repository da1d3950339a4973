/** The grammar of zone files and its actions, as a parser that descends over the tokens. A value that cannot be
    decoded is replaced by its zero value and parsing goes on.
 */
module ZoneParser {
  import opened Names
  import opened ZoneWords
  import opened ZoneCodec

  type Result<T> = Option<(T, Tokens)>

  predicate At(ts: Tokens, i: nat, k: Keyword) {
    i < |ts| && ts[i] == Kw(k)
  }

  predicate IdAt(ts: Tokens, i: nat) {
    i < |ts| && ts[i].Id?
  }

  // ---- decoding words ----

  const ZERO_KEY := Key(0, 0, 0, 0, 0, [])

  function DecodeKey(phase: string, data: string): Key {
    if Read(phase) == None || Unhex(data) == None || |Unhex(data).value| != 32 then ZERO_KEY
    else Key(ED25519, RAINS, Read(phase).value, 0, 0, Unhex(data).value)
  }

  function DecodeValidity(since: string, until: string): (int, int) {
    if Read(since) == None || Read(since).value < 0 || Read(until) == None || Read(until).value < 0 then (0, 0)
    else (Read(since).value, Read(until).value)
  }

  /** A negative priority wraps when it is made unsigned. */
  function DecodeSrv(name: string, port: string, priority: string): Object {
    if Read(port) == None || Read(port).value < 0 || Read(port).value > 65535 ||
        Read(priority) == None then SrvObj("", 0, 0)
    else
      var p := Read(priority).value;
      SrvObj(name, Read(port).value, if p < 0 then p + 0x1_0000_0000_0000_0000 else p)
  }

  function DecodeCert(p: Protocol, u: Usage, h: HashAlgo, data: string): Object {
    if Unhex(data) == None then CertObj(PTUnspecified, CUZero, HNone, []) else CertObj(p, u, h, Unhex(data).value)
  }

  function DecodeSig(phase: string, since: string, until: string, data: seq<Byte>): Sig {
    var v := DecodeValidity(since, until);
    if Read(phase) == None then Sig(0, 0, 0, v.0, v.1, data) else Sig(ED25519, RAINS, Read(phase).value, v.0, v.1, data)
  }

  // ---- objects ----

  function ParseTypes(ts: Tokens): (r: Result<seq<OType>>)
    ensures r.Some? ==> |r.value.1| < |ts|
  {
    if ts == [] || !ts[0].Kw? || KwType(ts[0].k) == None then None
    else
      var t := KwType(ts[0].k).value;
      var more := ParseTypes(ts[1..]);
      if more == None then Some(([t], ts[1..])) else Some(([t] + more.value.0, more.value.1))
  }

  function ParseText(ts: Tokens): (r: Result<seq<string>>)
    ensures r.Some? ==> |r.value.1| < |ts|
  {
    if !IdAt(ts, 0) then None
    else
      var more := ParseText(ts[1..]);
      if more == None then Some(([ts[0].word], ts[1..])) else Some(([ts[0].word] + more.value.0, more.value.1))
  }

  function ParseName(ts: Tokens): (r: Result<Object>)
    ensures r.Some? ==> |r.value.1| < |ts|
  {
    if !(IdAt(ts, 1) && At(ts, 2, LBracket)) then None
    else
      var types := ParseTypes(ts[3..]);
      if types == None || !At(types.value.1, 0, RBracket) then None
      else Some((NameObj(ts[1].word, types.value.0), types.value.1[1..]))
  }

  predicate KeyAt(ts: Tokens) {
    At(ts, 1, Ed25519) && IdAt(ts, 2) && IdAt(ts, 3)
  }

  function ParseCert(ts: Tokens): (r: Result<Object>)
    ensures r.Some? ==> |r.value.1| < |ts|
  {
    if |ts| < 5 || !ts[1].Kw? || !ts[2].Kw? || !ts[3].Kw? || !ts[4].Id? then None
    else if KwProtocol(ts[1].k) == None || KwUsage(ts[2].k) == None || KwHash(ts[3].k) == None then None
    else Some((DecodeCert(KwProtocol(ts[1].k).value, KwUsage(ts[2].k).value, KwHash(ts[3].k).value, ts[4].word),
      ts[5..]))
  }

  function ParseNext(ts: Tokens): (r: Result<Object>)
    ensures r.Some? ==> |r.value.1| < |ts|
  {
    if !(KeyAt(ts) && IdAt(ts, 4) && IdAt(ts, 5)) then None
    else
      var v := DecodeValidity(ts[4].word, ts[5].word);
      Some((NextObj(DecodeKey(ts[2].word, ts[3].word).(since := v.0, until := v.1)), ts[6..]))
  }

  function ParseObject(ts: Tokens): (r: Result<Object>)
    ensures r.Some? ==> |r.value.1| < |ts|
  {
    if ts == [] || !ts[0].Kw? then None
    else match ts[0].k
      case NameType => ParseName(ts)
      case Ip6Type => if IdAt(ts, 1) then Some((Ip6Obj(ts[1].word), ts[2..])) else None
      case Ip4Type => if IdAt(ts, 1) then Some((Ip4Obj(ts[1].word), ts[2..])) else None
      case ScionType => if IdAt(ts, 1) then Some((ScionObj(ts[1].word), ts[2..])) else None
      case RedirType => if IdAt(ts, 1) then Some((RedirObj(ts[1].word), ts[2..])) else None
      case DelegType => if KeyAt(ts) then Some((DelegObj(DecodeKey(ts[2].word, ts[3].word)), ts[4..])) else None
      case NamesetType => (match ParseText(ts[1..]) case None => None
        case Some((t, rest)) => Some((NamesetObj(t), rest)))
      case CertType => ParseCert(ts)
      case SrvType =>
        if IdAt(ts, 1) && IdAt(ts, 2) && IdAt(ts, 3) then Some((DecodeSrv(ts[1].word, ts[2].word, ts[3].word), ts[4..]))
        else None
      case RegrType => (match ParseText(ts[1..]) case None => None case Some((t, rest)) => Some((RegrObj(t), rest)))
      case RegtType => (match ParseText(ts[1..]) case None => None case Some((t, rest)) => Some((RegtObj(t), rest)))
      case InfraType => if KeyAt(ts) then Some((InfraObj(DecodeKey(ts[2].word, ts[3].word)), ts[4..])) else None
      case ExtraType => if KeyAt(ts) then Some((ExtraObj(DecodeKey(ts[2].word, ts[3].word)), ts[4..])) else None
      case NextType => ParseNext(ts)
      case _ => None
  }

  /** At least one object, up to the closing bracket. */
  function ParseObjects(ts: Tokens): (r: Result<seq<Object>>)
    ensures r.Some? ==> |r.value.1| < |ts|
    decreases |ts|
  {
    var first := ParseObject(ts);
    if first == None then None
    else
      var (o, rest) := first.value;
      if At(rest, 0, RBracket) then Some(([o], rest[1..]))
      else
        var more := ParseObjects(rest);
        if more == None then None else Some(([o] + more.value.0, more.value.1))
  }

  // ---- signatures ----

  function ParseSig(ts: Tokens): (r: Result<Sig>)
    ensures r.Some? ==> |r.value.1| < |ts|
  {
    if !(At(ts, 0, Signature) && At(ts, 1, Ed25519) && At(ts, 2, Rains) && IdAt(ts, 3) && IdAt(ts, 4) && IdAt(ts, 5))
        then None
    else if IdAt(ts, 6) then Some((DecodeSig(ts[3].word, ts[4].word, ts[5].word, UnhexPrefix(ts[6].word)), ts[7..]))
    else Some((DecodeSig(ts[3].word, ts[4].word, ts[5].word, []), ts[6..]))
  }

  /** At least one signature, up to the closing parenthesis. */
  function ParseSigList(ts: Tokens): (r: Result<seq<Sig>>)
    ensures r.Some? ==> |r.value.1| < |ts|
    decreases |ts|
  {
    var first := ParseSig(ts);
    if first == None then None
    else
      var (s, rest) := first.value;
      if At(rest, 0, RParen) then Some(([s], rest[1..]))
      else
        var more := ParseSigList(rest);
        if more == None then None else Some(([s] + more.value.0, more.value.1))
  }

  /** An annotation may follow. */
  function ParseSigs(ts: Tokens): (r: Result<seq<Sig>>)
    ensures r.Some? ==> |r.value.1| <= |ts|
  {
    if At(ts, 0, LParen) then ParseSigList(ts[1..]) else Some(([], ts))
  }

  // ---- sections ----

  function ParseAssertion(ts: Tokens): (r: Result<Assertion>)
    ensures r.Some? ==> |r.value.1| < |ts|
  {
    if !(At(ts, 0, Keyword.Assertion) && IdAt(ts, 1)) then None
    else if At(ts, 2, LBracket) then FinishAssertion(ts[1].word, "", "", ts[3..])
    else if IdAt(ts, 2) && IdAt(ts, 3) &&
      At(ts, 4, LBracket) then FinishAssertion(ts[1].word, ts[2].word, ts[3].word, ts[5..])
    else None
  }

  function FinishAssertion(name: string, zone: string, context: string, ts: Tokens): (r: Result<Assertion>)
    ensures r.Some? ==> |r.value.1| < |ts|
  {
    var objects := ParseObjects(ts);
    if objects == None then None
    else
      var sigs := ParseSigs(objects.value.1);
      if sigs == None then None
      else Some((Assertion.Assertion(name, zone, context, objects.value.0, sigs.value.0), sigs.value.1))
  }

  /** Any number of assertions, up to the closing bracket. */
  function ParseContent(ts: Tokens): (r: Result<seq<Assertion>>)
    ensures r.Some? ==> |r.value.1| < |ts|
    decreases |ts|
  {
    if At(ts, 0, RBracket) then Some(([], ts[1..]))
    else
      var first := ParseAssertion(ts);
      if first == None then None
      else
        var more := ParseContent(first.value.1);
        if more == None then None else Some(([first.value.0] + more.value.0, more.value.1))
  }

  function ParseFrom(t: Token): Option<string> {
    if t == Kw(RangeBegin) then Some("<") else if t.Id? then Some(t.word) else None
  }

  function ParseTo(t: Token): Option<string> {
    if t == Kw(RangeEnd) then Some(">") else if t.Id? then Some(t.word) else None
  }

  predicate RangeAt(ts: Tokens) {
    |ts| > 5 && ts[1].Id? && ts[2].Id? && ParseFrom(ts[3]).Some? && ParseTo(ts[4]).Some?
  }

  function ParseShard(ts: Tokens): (r: Result<Section>)
    ensures r.Some? ==> |r.value.1| < |ts|
  {
    if !(RangeAt(ts) && At(ts, 5, LBracket)) then None
    else
      var content := ParseContent(ts[6..]);
      if content == None then None
      else
        var sigs := ParseSigs(content.value.1);
        if sigs == None then None
        else Some((ShardSec(ts[1].word, ts[2].word, ParseFrom(ts[3]).value, ParseTo(ts[4]).value, content.value.0,
          sigs.value.0), sigs.value.1))
  }

  function ParsePshard(ts: Tokens): (r: Result<Section>)
    ensures r.Some? ==> |r.value.1| < |ts|
  {
    if !RangeAt(ts) || |ts| < 8 || !ts[5].Kw? || !ts[6].Kw? || !ts[7].Id? then None
    else if KwBloom(ts[5].k) == None || KwHash(ts[6].k) == None || !BloomHash(KwHash(ts[6].k).value) then None
    else
      var sigs := ParseSigs(ts[8..]);
      if sigs == None then None
      else Some((PshardSec(ts[1].word, ts[2].word, ParseFrom(ts[3]).value, ParseTo(ts[4]).value, KwBloom(ts[5].k).value,
        KwHash(ts[6].k).value,
                           UnhexPrefix(ts[7].word), sigs.value.0), sigs.value.1))
  }

  function ParseZone(ts: Tokens): (r: Result<Section>)
    ensures r.Some? ==> |r.value.1| < |ts|
  {
    if !(IdAt(ts, 1) && IdAt(ts, 2) && At(ts, 3, LBracket)) then None
    else
      var content := ParseContent(ts[4..]);
      if content == None then None
      else
        var sigs := ParseSigs(content.value.1);
        if sigs == None then None
        else Some((ZoneSec(ts[1].word, ts[2].word, content.value.0, sigs.value.0), sigs.value.1))
  }

  function ParseSection(ts: Tokens): (r: Result<Section>)
    ensures r.Some? ==> |r.value.1| < |ts|
  {
    if At(ts, 0, Keyword.Assertion)
        then (match ParseAssertion(ts) case None => None case Some((a, rest)) => Some((AssertionSec(a), rest)))
    else if At(ts, 0, Keyword.Shard) then ParseShard(ts)
    else if At(ts, 0, Keyword.Pshard) then ParsePshard(ts)
    else if At(ts, 0, Keyword.Zone) then ParseZone(ts)
    else None
  }

  /** A whole file; nothing is returned for a file with a syntax error. */
  function ParseSections(ts: Tokens): Option<seq<Section>>
    decreases |ts|
  {
    if ts == [] then Some([])
    else
      var first := ParseSection(ts);
      if first == None then None
      else
        var more := ParseSections(first.value.1);
        if more == None then None else Some([first.value.0] + more.value)
  }
}
