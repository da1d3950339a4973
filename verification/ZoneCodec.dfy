/** The zone file printer and parser, between sections and words: printing, parsing, and the normal form in which
    a printed section comes back.
 */
module ZoneCodec {
  import opened Names
  import opened ZoneWords

  // ---- sections ----

  datatype OType = OTName | OTIp6 | OTIp4 | OTScion | OTRedir | OTDeleg | OTNameset | OTCert | OTSrv | OTRegr | OTRegt |
    OTInfra | OTExtra | OTNext

  const ED25519: int := 1
  const RAINS: int := 0

  datatype Key = Key(algo: int, space: int, phase: int, since: int, until: int, data: seq<Byte>)

  datatype Sig = Sig(algo: int, space: int, phase: int, since: int, until: int, data: seq<Byte>)

  datatype Protocol = PTUnspecified | PTTls | PTRhine
  /** `CUZero` is the zero value, which has no keyword. */
  datatype Usage = CUTrustAnchor | CUEndEntity | CUZoneAuth | CUZero
  datatype HashAlgo = HNone | HSha256 | HSha384 | HSha512 | HShake256 | HFnv64 | HFnv128
  datatype BloomAlgo = BKM12 | BKM16 | BKM20 | BKM24

  /** Addresses are words; free text is a list of words. */
  datatype Object =
    | NameObj(name: string, types: seq<OType>)
    | Ip6Obj(addr: string)
    | Ip4Obj(addr: string)
    | ScionObj(addr: string)
    | RedirObj(name: string)
    | DelegObj(key: Key)
    | NamesetObj(text: seq<string>)
    | CertObj(protocol: Protocol, usage: Usage, hash: HashAlgo, cert: seq<Byte>)
    | SrvObj(name: string, port: int, priority: int)
    | RegrObj(text: seq<string>)
    | RegtObj(text: seq<string>)
    | InfraObj(key: Key)
    | ExtraObj(key: Key)
    | NextObj(key: Key)

  datatype Assertion = Assertion(name: string, zone: string, context: string, content: seq<Object>, sigs: seq<Sig>)

  datatype Section =
    | AssertionSec(a: Assertion)
    | ShardSec(zone: string, context: string, from: string, to: string, content: seq<Assertion>, sigs: seq<Sig>)
    | PshardSec(zone: string, context: string, from: string, to: string, algo: BloomAlgo, bhash: HashAlgo,
      filter: seq<Byte>, sigs: seq<Sig>)
    | ZoneSec(zone: string, context: string, content: seq<Assertion>, sigs: seq<Sig>)

  type Tokens = seq<Token>

  // ---- keywords of enumerations ----

  function TypeKw(t: OType): Keyword {
    match t
    case OTName => NameType case OTIp6 => Ip6Type case OTIp4 => Ip4Type case OTScion => ScionType
      case OTRedir => RedirType
    case OTDeleg => DelegType case OTNameset => NamesetType case OTCert => CertType case OTSrv => SrvType
      case OTRegr => RegrType
    case OTRegt => RegtType case OTInfra => InfraType case OTExtra => ExtraType case OTNext => NextType
  }

  function KwType(k: Keyword): Option<OType> {
    match k
    case NameType => Some(OTName) case Ip6Type => Some(OTIp6) case Ip4Type => Some(OTIp4)
      case ScionType => Some(OTScion)
    case RedirType => Some(OTRedir) case DelegType => Some(OTDeleg) case NamesetType => Some(OTNameset)
      case CertType => Some(OTCert)
    case SrvType => Some(OTSrv) case RegrType => Some(OTRegr) case RegtType => Some(OTRegt)
      case InfraType => Some(OTInfra)
    case ExtraType => Some(OTExtra) case NextType => Some(OTNext) case _ => None
  }

  function ProtocolKw(p: Protocol): Keyword {
    match p case PTUnspecified => Unspecified case PTTls => Tls case PTRhine => Rhine
  }

  function KwProtocol(k: Keyword): Option<Protocol> {
    match k case Unspecified => Some(PTUnspecified) case Tls => Some(PTTls) case Rhine => Some(PTRhine) case _ => None
  }

  function UsageKw(u: Usage): Option<Keyword> {
    match u case CUTrustAnchor => Some(TrustAnchor) case CUEndEntity => Some(EndEntity)
      case CUZoneAuth => Some(ZoneAuth) case CUZero => None
  }

  function KwUsage(k: Keyword): Option<Usage> {
    match k case TrustAnchor => Some(CUTrustAnchor) case EndEntity => Some(CUEndEntity)
      case ZoneAuth => Some(CUZoneAuth) case _ => None
  }

  function HashKw(h: HashAlgo): Keyword {
    match h
    case HNone => NoHash case HSha256 => Sha256 case HSha384 => Sha384 case HSha512 => Sha512 case HShake256 => Shake256
    case HFnv64 => Fnv64 case HFnv128 => Fnv128
  }

  function KwHash(k: Keyword): Option<HashAlgo> {
    match k
    case NoHash => Some(HNone) case Sha256 => Some(HSha256) case Sha384 => Some(HSha384) case Sha512 => Some(HSha512)
    case Shake256 => Some(HShake256) case Fnv64 => Some(HFnv64) case Fnv128 => Some(HFnv128) case _ => None
  }

  /** The hash functions a Bloom filter may name. */
  predicate BloomHash(h: HashAlgo) {
    h.HShake256? || h.HFnv64? || h.HFnv128?
  }

  function BloomKw(b: BloomAlgo): Keyword {
    match b case BKM12 => KM12 case BKM16 => KM16 case BKM20 => KM20 case BKM24 => KM24
  }

  function KwBloom(k: Keyword): Option<BloomAlgo> {
    match k case KM12 => Some(BKM12) case KM16 => Some(BKM16) case KM20 => Some(BKM20) case KM24 => Some(BKM24)
      case _ => None
  }

  // ---- printing ----

  function Num(n: int): Token {
    Id(Show(n))
  }

  function PrintKey(k: Key): Tokens {
    [Kw(Ed25519), Num(k.phase), Id(Hex(k.data))]
  }

  function PrintTypes(ts: seq<OType>): Tokens {
    if ts == [] then [] else [Kw(TypeKw(ts[0]))] + PrintTypes(ts[1..])
  }

  function PrintText(ws: seq<string>): Tokens {
    if ws == [] then [] else [Id(ws[0])] + PrintText(ws[1..])
  }

  function PrintObject(o: Object): Tokens {
    match o
    case NameObj(name, types) => [Kw(NameType), Id(name), Kw(LBracket)] + (PrintTypes(types) + [Kw(RBracket)])
    case Ip6Obj(addr) => [Kw(Ip6Type), Id(addr)]
    case Ip4Obj(addr) => [Kw(Ip4Type), Id(addr)]
    case ScionObj(addr) => [Kw(ScionType), Id(addr)]
    case RedirObj(name) => [Kw(RedirType), Id(name)]
    case DelegObj(key) => [Kw(DelegType)] + PrintKey(key)
    case NamesetObj(text) => [Kw(NamesetType)] + PrintText(text)
    case CertObj(p, u, h, cert) =>
      if UsageKw(u) == None then [Kw(CertType)]
      else [Kw(CertType), Kw(ProtocolKw(p)), Kw(UsageKw(u).value), Kw(HashKw(h)), Id(Hex(cert))]
    case SrvObj(name, port, priority) => [Kw(SrvType), Id(name), Num(port), Num(priority)]
    case RegrObj(text) => [Kw(RegrType)] + PrintText(text)
    case RegtObj(text) => [Kw(RegtType)] + PrintText(text)
    case InfraObj(key) => [Kw(InfraType)] + PrintKey(key)
    case ExtraObj(key) => [Kw(ExtraType)] + PrintKey(key)
    case NextObj(key) => [Kw(NextType)] + PrintKey(key) + [Num(key.since), Num(key.until)]
  }

  function PrintObjects(os: seq<Object>): Tokens {
    if os == [] then [] else PrintObject(os[0]) + PrintObjects(os[1..])
  }

  function PrintSig(s: Sig): Tokens {
    [Kw(Signature), Kw(Ed25519), Kw(Rains), Num(s.phase), Num(s.since), Num(s.until)] + if s.data == [] then []
      else [Id(Hex(s.data))]
  }

  function PrintSigList(ss: seq<Sig>): Tokens {
    if ss == [] then [] else PrintSig(ss[0]) + PrintSigList(ss[1..])
  }

  /** No parentheses at all for a section without signatures. */
  function PrintSigs(ss: seq<Sig>): Tokens {
    if ss == [] then [] else [Kw(LParen)] + (PrintSigList(ss) + [Kw(RParen)])
  }

  function PrintAssertion(a: Assertion, full: bool): Tokens {
    (if full then [Kw(Keyword.Assertion), Id(a.name), Id(a.zone), Id(a.context), Kw(LBracket)]
      else [Kw(Keyword.Assertion), Id(a.name), Kw(LBracket)])
    + (PrintObjects(a.content) + ([Kw(RBracket)] + PrintSigs(a.sigs)))
  }

  function PrintContent(az: seq<Assertion>): Tokens {
    if az == [] then [] else PrintAssertion(az[0], false) + PrintContent(az[1..])
  }

  function FromToken(from: string): Token {
    if from == "" || from == "<" then Kw(RangeBegin) else Id(from)
  }

  function ToToken(to: string): Token {
    if to == "" || to == ">" then Kw(RangeEnd) else Id(to)
  }

  function PrintSection(s: Section): Tokens {
    match s
    case AssertionSec(a) => PrintAssertion(a, true)
    case ShardSec(zone, context, from, to, content, sigs) =>
      [Kw(Keyword.Shard), Id(zone), Id(context), FromToken(from), ToToken(to), Kw(LBracket)] +
        (PrintContent(content) + ([Kw(RBracket)] + PrintSigs(sigs)))
    case PshardSec(zone, context, from, to, algo, bhash, filter, sigs) =>
      [Kw(Keyword.Pshard), Id(zone), Id(context), FromToken(from), ToToken(to), Kw(BloomKw(algo)), Kw(HashKw(bhash)),
        Id(Hex(filter))] + PrintSigs(sigs)
    case ZoneSec(zone, context, content, sigs) =>
      [Kw(Keyword.Zone), Id(zone), Id(context), Kw(LBracket)] +
        (PrintContent(content) + ([Kw(RBracket)] + PrintSigs(sigs)))
  }

  function PrintSections(ss: seq<Section>): Tokens {
    if ss == [] then [] else PrintSection(ss[0]) + PrintSections(ss[1..])
  }
}
