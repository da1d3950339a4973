/** Words of a zone file: decimal numbers, hexadecimal strings, and the keywords with their spelling.
 */
module ZoneWords {
  import opened Names

  type Byte = x: int | 0 <= x < 256

  // ---- decimal numbers ----

  function Digit(d: nat): char
    requires d < 10
  {
    "0123456789"[d]
  }

  function Value(c: char): Option<nat> {
    if '0' <= c <= '9' then Some((c as int - '0' as int) as nat) else None
  }

  lemma DigitValue(d: nat)
    requires d < 10
    ensures Value(Digit(d)) == Some(d)
  {
  }

  function ShowNat(n: nat): string {
    if n < 10 then [Digit(n)] else ShowNat(n / 10) + [Digit(n % 10)]
  }

  function ReadNat(s: string): Option<nat> {
    if s == "" then None
    else
      var d := Value(s[|s| - 1]);
      if d == None then None
      else if |s| == 1 then d
      else
        var n := ReadNat(s[..|s| - 1]);
        if n == None then None else Some(10 * n.value + d.value)
  }

  lemma {:induction false} ShowReadNat(n: nat)
    ensures ShowNat(n) != "" && ReadNat(ShowNat(n)) == Some(n)
    ensures ShowNat(n)[0] != '-' && ShowNat(n)[0] != '+'
  {
    if n < 10 {
      DigitValue(n);
    } else {
      ShowReadNat(n / 10);
      DigitValue(n % 10);
      var s := ShowNat(n);
      assert s[..|s| - 1] == ShowNat(n / 10) && s[|s| - 1] == Digit(n % 10);
    }
  }

  function Show(n: int): string {
    if n < 0 then "-" + ShowNat(-n) else ShowNat(n)
  }

  /** A sign and digits, within 64 bits. */
  function Read(s: string): Option<int> {
    if s == "" then None
    else
      var n := if s[0] == '-' || s[0] == '+' then ReadNat(s[1..]) else ReadNat(s);
      if n == None then None
      else
        var m: int := n.value;
        var v := if s[0] == '-' then -m else m;
        if MIN64 <= v <= MAX64 then Some(v) else None
  }

  predicate Int64(n: int) {
    MIN64 <= n <= MAX64
  }

  lemma ShowRead(n: int)
    requires Int64(n)
    ensures Show(n) != "" && Read(Show(n)) == Some(n)
  {
    hide ShowNat, ReadNat;
    if n < 0 {
      ShowReadNat(-n);
      var s := Show(n);
      assert s[0] == '-' && s[1..] == ShowNat(-n);
    } else {
      ShowReadNat(n);
    }
  }

  // ---- hexadecimal strings ----

  function Nibble(d: nat): char
    requires d < 16
  {
    "0123456789abcdef"[d]
  }

  function NibbleValue(c: char): Option<nat> {
    if '0' <= c <= '9' then Some((c as int - '0' as int) as nat)
    else if 'a' <= c <= 'f' then Some((c as int - 'a' as int + 10) as nat)
    else if 'A' <= c <= 'F' then Some((c as int - 'A' as int + 10) as nat)
    else None
  }

  lemma NibbleRound(d: nat)
    requires d < 16
    ensures NibbleValue(Nibble(d)) == Some(d)
  {
  }

  lemma NibbleSmall(c: char)
    ensures NibbleValue(c).Some? ==> NibbleValue(c).value < 16
  {
  }

  function Hex(bytes: seq<Byte>): string {
    if bytes == [] then "" else [Nibble(bytes[0] / 16), Nibble(bytes[0] % 16)] + Hex(bytes[1..])
  }

  function Unhex(s: string): Option<seq<Byte>> {
    if s == "" then Some([])
    else if |s| == 1 || NibbleValue(s[0]) == None || NibbleValue(s[1]) == None then None
    else
      var rest := Unhex(s[2..]);
      NibbleSmall(s[0]);
      NibbleSmall(s[1]);
      if rest == None then None else Some([16 * NibbleValue(s[0]).value + NibbleValue(s[1]).value] + rest.value)
  }

  lemma {:induction false} HexRound(bytes: seq<Byte>)
    ensures Unhex(Hex(bytes)) == Some(bytes)
  {
    if bytes != [] {
      HexRound(bytes[1..]);
      var b := bytes[0];
      NibbleRound(b / 16);
      NibbleRound(b % 16);
      var h := Hex(bytes);
      assert h[2..] == Hex(bytes[1..]) && h[0] == Nibble(b / 16) && h[1] == Nibble(b % 16);
      assert 16 * (b / 16) + b % 16 == b && bytes == [b] + bytes[1..];
    }
  }

  /** The bytes decoded before the first fault, which is what callers that ignore the error are left with. */
  function UnhexPrefix(s: string): seq<Byte> {
    if |s| < 2 || NibbleValue(s[0]) == None || NibbleValue(s[1]) == None then []
    else
      NibbleSmall(s[0]);
      NibbleSmall(s[1]);
      [16 * NibbleValue(s[0]).value + NibbleValue(s[1]).value] + UnhexPrefix(s[2..])
  }

  lemma {:induction false} UnhexIsPrefix(s: string)
    requires Unhex(s).Some?
    ensures UnhexPrefix(s) == Unhex(s).value
  {
    if s != "" { UnhexIsPrefix(s[2..]); }
  }

  // ---- keywords ----

  datatype Keyword =
    | Assertion | Shard | Pshard | Zone | Signature | NameType | Ip6Type | Ip4Type
    | ScionType | RedirType | DelegType | NamesetType | CertType | SrvType | RegrType | RegtType
    | InfraType | ExtraType | NextType | Ed25519 | Unspecified | Tls | Rhine | TrustAnchor
    | EndEntity | ZoneAuth | NoHash | Sha256 | Sha384 | Sha512 | Shake256 | Fnv64
    | Fnv128 | KM12 | KM16 | KM20 | KM24 | Rains | RangeBegin | RangeEnd
    | LBracket | RBracket | LParen | RParen

  function Spell(k: Keyword): string {
    match k
    case Assertion => ":A:"
    case Shard => ":S:"
    case Pshard => ":P:"
    case Zone => ":Z:"
    case Signature => ":sig:"
    case NameType => ":name:"
    case Ip6Type => ":ip6:"
    case Ip4Type => ":ip4:"
    case ScionType => ":scion:"
    case RedirType => ":redir:"
    case DelegType => ":deleg:"
    case NamesetType => ":nameset:"
    case CertType => ":cert:"
    case SrvType => ":srv:"
    case RegrType => ":regr:"
    case RegtType => ":regt:"
    case InfraType => ":infra:"
    case ExtraType => ":extra:"
    case NextType => ":next:"
    case Ed25519 => ":ed25519:"
    case Unspecified => ":unspecified:"
    case Tls => ":tls:"
    case Rhine => ":rhine:"
    case TrustAnchor => ":trustAnchor:"
    case EndEntity => ":endEntity:"
    case ZoneAuth => ":zoneAuth:"
    case NoHash => ":noHash:"
    case Sha256 => ":sha256:"
    case Sha384 => ":sha384:"
    case Sha512 => ":sha512:"
    case Shake256 => ":shake256:"
    case Fnv64 => ":fnv64:"
    case Fnv128 => ":fnv128:"
    case KM12 => ":bloomKM12:"
    case KM16 => ":bloomKM16:"
    case KM20 => ":bloomKM20:"
    case KM24 => ":bloomKM24:"
    case Rains => ":rains:"
    case RangeBegin => "<"
    case RangeEnd => ">"
    case LBracket => "["
    case RBracket => "]"
    case LParen => "("
    case RParen => ")"
  }

  /** What the lexer makes of a word: a keyword, or an identifier. */
  datatype Token = Kw(k: Keyword) | Id(word: string)

  function Lex(word: string): Token {
    var k := Unspell(word);
    if Spell(k) == word then Kw(k) else Id(word)
  }

  /** The keyword with a given spelling, told by its length and a letter or two. */
  function Unspell(s: string): Keyword {
    if |s| == 1 then (if s[0] == '<' then RangeBegin else if s[0] == '>' then RangeEnd else if s[0] == '[' then LBracket
        else if s[0] == ']' then RBracket else if s[0] == '(' then LParen else RParen)
    else if |s| == 3
      then (if s[1] == 'A' then Assertion else if s[1] == 'S' then Shard else if s[1] == 'P' then Pshard else Zone)
    else if |s| == 5
      then (if s[3] == 'g' then Signature else if s[3] == '6' then Ip6Type else if s[3] == '4' then Ip4Type
      else if s[3] == 'v' then SrvType else Tls)
    else if |s| == 6
      then (if s[3] == 'm' then NameType else if s[3] == 'r' then CertType
      else if s[3] == 'g' then (if s[4] == 'r' then RegrType else RegtType) else NextType)
    else if |s| == 7
      then (if s[5] == 'n' then ScionType else if s[5] == 'r' then RedirType else if s[5] == 'g' then DelegType
      else if s[5] == 'a' then (if s[1] == 'i' then InfraType else ExtraType) else if s[5] == 'e' then Rhine
      else if s[5] == '4' then Fnv64 else Rains)
    else if |s| == 8
      then (if s[4] == 'a' then NoHash else if s[4] == '2' then Sha256 else if s[4] == '3' then Sha384
      else if s[4] == '5' then Sha512 else Fnv128)
    else if |s| == 9 then (if s[1] == 'n' then NamesetType else Ed25519)
    else if |s| == 10 then (if s[1] == 'z' then ZoneAuth else Shake256)
    else if |s| == 11
      then (if s[9] == 'y' then EndEntity else if s[9] == '2' then KM12 else if s[9] == '6' then KM16
      else if s[9] == '0' then KM20 else KM24)
    else if |s| == 13 then (if s[1] == 'u' then Unspecified else TrustAnchor)
    else Assertion
  }

  lemma UnspellPart1(k: Keyword)
    requires k.Assertion? || k.Shard? || k.Pshard? || k.Zone? || k.Signature? || k.NameType? || k.Ip6Type? ||
      k.Ip4Type? ||
      k.ScionType? || k.RedirType? || k.DelegType?
    ensures Unspell(Spell(k)) == k
  {
  }

  lemma UnspellPart2(k: Keyword)
    requires k.NamesetType? || k.CertType? || k.SrvType? || k.RegrType? || k.RegtType? || k.InfraType? ||
      k.ExtraType? ||
      k.NextType? || k.Ed25519? || k.Unspecified? || k.Tls?
    ensures Unspell(Spell(k)) == k
  {
  }

  lemma UnspellPart3(k: Keyword)
    requires k.Rhine? || k.TrustAnchor? || k.EndEntity? || k.ZoneAuth? || k.NoHash? || k.Sha256? || k.Sha384? ||
      k.Sha512?
      || k.Shake256? || k.Fnv64? || k.Fnv128?
    ensures Unspell(Spell(k)) == k
  {
  }

  lemma UnspellPart4(k: Keyword)
    requires k.KM12? || k.KM16? || k.KM20? || k.KM24? || k.Rains? || k.RangeBegin? || k.RangeEnd? || k.LBracket? ||
      k.RBracket? || k.LParen? || k.RParen?
    ensures Unspell(Spell(k)) == k
  {
  }

  lemma UnspellSpell(k: Keyword)
    ensures Unspell(Spell(k)) == k
  {
    hide Spell, Unspell;
    if k.Assertion? || k.Shard? || k.Pshard? || k.Zone? || k.Signature? || k.NameType? || k.Ip6Type? || k.Ip4Type? ||
      k.ScionType? || k.RedirType? || k.DelegType? {
      UnspellPart1(k);
    } else if k.NamesetType? || k.CertType? || k.SrvType? || k.RegrType? || k.RegtType? || k.InfraType? ||
        k.ExtraType? ||
      k.NextType? || k.Ed25519? || k.Unspecified? || k.Tls? {
      UnspellPart2(k);
    } else if k.Rhine? || k.TrustAnchor? || k.EndEntity? || k.ZoneAuth? || k.NoHash? || k.Sha256? || k.Sha384? ||
        k.Sha512?
      || k.Shake256? || k.Fnv64? || k.Fnv128? {
      UnspellPart3(k);
    } else {
      UnspellPart4(k);
    }
  }

  lemma LexSpell(k: Keyword)
    ensures Lex(Spell(k)) == Kw(k)
  {
    hide Spell, Unspell;
    UnspellSpell(k);
  }

  /** What separates words: the white space of ASCII. */
  predicate White(c: char) {
    c == ' ' || '\t' <= c <= '\r'
  }

  /** A string that is found again when the text around it is split into words, and does not start a comment. */
  predicate Whole(word: string) {
    word != "" && forall i :: 0 <= i < |word| ==> !White(word[i]) && word[i] != ';'
  }

  /** In addition the word is not a keyword. */
  ghost predicate Plain(word: string) {
    Whole(word) && forall k: Keyword :: Spell(k) != word
  }

  // ---- every keyword is a whole word, and starts with a sign ----

  predicate Sign(c: char) {
    c == ':' || c == '<' || c == '>' || c == '[' || c == ']' || c == '(' || c == ')'
  }

  predicate Signed(word: string) {
    Whole(word) && Sign(word[0])
  }

  lemma SpellSigned1(k: Keyword)
    requires k.Assertion? || k.Shard? || k.Pshard? || k.Zone? || k.Signature? || k.NameType? || k.Ip6Type? || k.Ip4Type?
    ensures Signed(Spell(k))
  {
  }

  lemma SpellSigned2(k: Keyword)
    requires k.ScionType? || k.RedirType? || k.DelegType? || k.NamesetType? || k.CertType? || k.SrvType? || k.RegrType?
    ensures Signed(Spell(k))
  {
  }

  lemma SpellSigned3(k: Keyword)
    requires k.RegtType? || k.InfraType? || k.ExtraType? || k.NextType? || k.Ed25519? || k.Unspecified?
    ensures Signed(Spell(k))
  {
  }

  lemma SpellSigned4(k: Keyword)
    requires k.Tls? || k.Rhine? || k.TrustAnchor? || k.EndEntity? || k.ZoneAuth?
    ensures Signed(Spell(k))
  {
  }

  lemma SpellSigned5(k: Keyword)
    requires k.NoHash? || k.Sha256? || k.Sha384? || k.Sha512?
    ensures Signed(Spell(k))
  {
  }

  lemma SpellSigned6(k: Keyword)
    requires k.Shake256? || k.Fnv64? || k.Fnv128?
    ensures Signed(Spell(k))
  {
  }

  lemma SpellSigned7(k: Keyword)
    requires k.KM12? || k.KM16? || k.KM20?
    ensures Signed(Spell(k))
  {
  }

  lemma SpellSigned8(k: Keyword)
    requires k.KM24? || k.Rains? || k.RangeBegin?
    ensures Signed(Spell(k))
  {
  }

  lemma SpellSigned9(k: Keyword)
    requires k.RangeEnd? || k.LBracket? || k.RBracket?
    ensures Signed(Spell(k))
  {
  }

  lemma SpellSigned10(k: Keyword)
    requires k.LParen? || k.RParen?
    ensures Signed(Spell(k))
  {
  }

  lemma SpellSigned(k: Keyword)
    ensures Signed(Spell(k))
  {
    hide Spell, Signed;
    if k.Assertion? || k.Shard? || k.Pshard? || k.Zone? || k.Signature? || k.NameType? || k.Ip6Type? || k.Ip4Type? {
      SpellSigned1(k);
    } else if k.ScionType? || k.RedirType? || k.DelegType? || k.NamesetType? || k.CertType? || k.SrvType?
              || k.RegrType? {
      SpellSigned2(k);
    } else if k.RegtType? || k.InfraType? || k.ExtraType? || k.NextType? || k.Ed25519? || k.Unspecified? {
      SpellSigned3(k);
    } else if k.Tls? || k.Rhine? || k.TrustAnchor? || k.EndEntity? || k.ZoneAuth? {
      SpellSigned4(k);
    } else if k.NoHash? || k.Sha256? || k.Sha384? || k.Sha512? {
      SpellSigned5(k);
    } else if k.Shake256? || k.Fnv64? || k.Fnv128? {
      SpellSigned6(k);
    } else if k.KM12? || k.KM16? || k.KM20? {
      SpellSigned7(k);
    } else if k.KM24? || k.Rains? || k.RangeBegin? {
      SpellSigned8(k);
    } else if k.RangeEnd? || k.LBracket? || k.RBracket? {
      SpellSigned9(k);
    } else {
      SpellSigned10(k);
    }
  }

  lemma LexPlain(word: string)
    requires Plain(word)
    ensures Lex(word) == Id(word)
  {
  }
}
