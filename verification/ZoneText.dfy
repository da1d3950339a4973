/** The text of a zone file, character by character: it spells the tokens that the printer prints, so the round trip
    holds from text to text.
 */
module ZoneText {
  import opened Names
  import opened ZoneWords
  import opened ZoneCodec
  import opened ZoneParser
  import opened ZoneRoundTrip
  import opened ZoneEncoder
  import opened ZoneSplit
  import opened ShardText
  import S = Shards

  // ---- printed values ----

  function TypeNumber(o: Object): int {
    match o
    case NameObj(_, _) => 1
    case Ip6Obj(_) => 2
    case Ip4Obj(_) => 3
    case RedirObj(_) => 4
    case DelegObj(_) => 5
    case NamesetObj(_) => 6
    case CertObj(_, _, _, _) => 7
    case SrvObj(_, _, _) => 8
    case RegrObj(_) => 9
    case RegtObj(_) => 10
    case InfraObj(_) => 11
    case ExtraObj(_) => 12
    case NextObj(_) => 13
    case ScionObj(_) => 14
  }

  function TypeTexts(types: seq<OType>): (ws: seq<string>)
    ensures |ws| == |types|
  {
    seq(|types|, i requires 0 <= i < |types| => Spell(TypeKw(types[i])))
  }

  function KeyText(k: Key): string {
    Then(":ed25519:", Then(Show(k.phase), Hex(k.data)))
  }

  function ValueText(o: Object): string {
    match o
    case NameObj(name, types) => Then(name, Then("[", Join(TypeTexts(types), " ") + " ]"))
    case Ip6Obj(addr) => addr
    case Ip4Obj(addr) => addr
    case ScionObj(addr) => addr
    case RedirObj(name) => name
    case DelegObj(key) => KeyText(key)
    case NamesetObj(text) => Join(text, " ")
    case CertObj(p, u, h, cert) =>
      if UsageKw(u) == None then ""
      else Then(Spell(ProtocolKw(p)), Then(Spell(UsageKw(u).value), Then(Spell(HashKw(h)), Hex(cert))))
    case SrvObj(name, port, priority) => Then(name, Then(Show(port), Show(priority)))
    case RegrObj(text) => Join(text, " ")
    case RegtObj(text) => Join(text, " ")
    case InfraObj(key) => KeyText(key)
    case ExtraObj(key) => KeyText(key)
    case NextObj(key) =>
      Then(":ed25519:", Then(Show(key.phase), Then(Hex(key.data), Then(Show(key.since), Show(key.until)))))
  }

  function SigText(s: Sig): string {
    Then(":sig:", Then(":ed25519:", Then(":rains:", Then(Show(s.phase), Then(Show(s.since),
      if s.data == [] then Show(s.until) else Then(Show(s.until), Hex(s.data)))))))
  }

  // ---- printed sections ----

  function Objs(os: seq<Object>): (r: seq<S.Obj>)
    ensures |r| == |os|
  {
    seq(|os|, i requires 0 <= i < |os| => S.Obj(TypeNumber(os[i]), ValueText(os[i])))
  }

  function SigTexts(ss: seq<Sig>): (r: seq<string>)
    ensures |r| == |ss|
  {
    seq(|ss|, i requires 0 <= i < |ss| => SigText(ss[i]))
  }

  function Annotation(ss: seq<Sig>): Option<seq<string>> {
    if ss == [] then None else Some(SigTexts(ss))
  }

  function Printed(a: Assertion): S.Assertion {
    S.Assertion(a.name, a.zone, a.context, Objs(a.content), Annotation(a.sigs))
  }

  function PrintedAll(az: seq<Assertion>): (r: seq<S.Assertion>)
    ensures |r| == |az|
  {
    seq(|az|, i requires 0 <= i < |az| => Printed(az[i]))
  }

  function FilterText(filter: seq<Byte>, sigs: seq<Sig>): string {
    Hex(filter) + if sigs == [] then "\n" else SigsText(SigTexts(sigs), "", "  )\n")
  }

  function SectionText(s: Section): string {
    match s
    case AssertionSec(a) => AssertionText(Printed(a), "", true)
    case ShardSec(zone, context, from, to, content, sigs) =>
      SignedText(S.Shard(zone, context, from, to, PrintedAll(content)), Annotation(sigs))
    case PshardSec(zone, context, from, to, algo, bhash, filter, sigs) =>
      Then(":P:", Then(zone, Then(context, Then(RangeWord(from, "<"), Then(RangeWord(to, ">"),
        Then(Spell(BloomKw(algo)), Then(Spell(HashKw(bhash)), FilterText(filter, sigs))))))))
    case ZoneSec(zone, context, content, sigs) =>
      Then(":Z:", Then(zone, Then(context, "[\n"))) + ContentText(PrintedAll(content)) + ClosingText(Annotation(sigs))
  }

  function SectionsText(ss: seq<Section>): string {
    Join(SectionTexts(ss), "\n")
  }

  // ---- every token is a whole word ----

  lemma NumWhole(n: int)
    ensures Whole(Show(n))
  {
    NumberIsPlain(n);
  }

  lemma HexWhole(bytes: seq<Byte>)
    requires bytes != []
    ensures Whole(Hex(bytes))
  {
    HexIsPlain(bytes);
  }

  lemma KeywordWhole(k: Keyword)
    ensures Whole(Word(Kw(k)))
  {
    hide Spell;
    SpellSigned(k);
  }

  /** The keywords written out in texts. */
  lemma SectionKeywords()
    ensures Spell(Keyword.Assertion) == ":A:" && Spell(Keyword.Shard) == ":S:" && Spell(Keyword.Pshard) == ":P:"
    ensures Spell(Keyword.Zone) == ":Z:"
  {
  }

  lemma SignatureKeywords()
    ensures Spell(Signature) == ":sig:" && Spell(Ed25519) == ":ed25519:" && Spell(Rains) == ":rains:"
  {
  }

  lemma RangeKeywords()
    ensures Spell(RangeBegin) == "<" && Spell(RangeEnd) == ">"
  {
  }

  lemma BracketKeywords()
    ensures Spell(LBracket) == "[" && Spell(RBracket) == "]" && Spell(LParen) == "(" && Spell(RParen) == ")"
  {
  }

  // ---- values spell ----

  /** A keyword and a space, then what follows. */
  lemma KwThen(k: Keyword, rest: string, ts: Tokens)
    requires Spells(rest, ts)
    ensures Spells(Then(Spell(k), rest), [Kw(k)] + ts)
  {
    hide Spells, Spell, Whole;
    KeywordWhole(k);
    ThenSpells(Kw(k), rest, ts);
  }

  lemma IdThen(w: string, rest: string, ts: Tokens)
    requires Whole(w) && Spells(rest, ts)
    ensures Spells(Then(w, rest), [Id(w)] + ts)
  {
    hide Spells, Whole;
    ThenSpells(Id(w), rest, ts);
  }

  lemma IdSpells(w: string)
    requires Whole(w)
    ensures Spells(w, [Id(w)])
  {
    hide Spells, Whole;
    TokenSpells(Id(w));
  }

  lemma {:induction false} TypesSpell(types: seq<OType>)
    ensures Spells(Join(TypeTexts(types), " "), PrintTypes(types))
  {
    hide Spells, Spell, PrintTypes, Whole;
    Nothing();
    if types != [] {
      var n := |types| - 1;
      var init, last := types[..n], types[n];
      assert types == init + [last];
      TypesSpell(init);
      TypesGrow(init, last);
      KeywordWhole(TypeKw(last));
      TokenSpells(Kw(TypeKw(last)));
      assert TypeTexts(types) == TypeTexts(init) + [Spell(TypeKw(last))];
      LineSpells(TypeTexts(init), Spell(TypeKw(last)), " ", PrintTypes(init), [Kw(TypeKw(last))]);
    }
  }

  /** Nothing prints as nothing. */
  lemma Nothing()
    ensures PrintTypes([]) == [] && PrintText([]) == [] && PrintObjects([]) == [] && PrintSigList([]) == []
    ensures PrintContent([]) == [] && PrintSections([]) == [] && PrintSigs([]) == [] && Spells("", [])
  {
    WhiteSpells("");
  }

  lemma {:induction false} TypesGrow(types: seq<OType>, t: OType)
    ensures PrintTypes(types + [t]) == PrintTypes(types) + [Kw(TypeKw(t))]
  {
    if types == [] {
      assert [t][1..] == [];
    } else {
      assert (types + [t])[1..] == types[1..] + [t];
      TypesGrow(types[1..], t);
    }
  }

  lemma {:induction false} TextGrows(text: seq<string>, w: string)
    ensures PrintText(text + [w]) == PrintText(text) + [Id(w)]
  {
    if text == [] {
      assert [w][1..] == [];
    } else {
      assert (text + [w])[1..] == text[1..] + [w];
      TextGrows(text[1..], w);
    }
  }

  ghost predicate WholeWords(text: seq<string>) {
    forall i :: 0 <= i < |text| ==> Whole(text[i])
  }

  lemma {:induction false} PlainAreWhole(text: seq<string>)
    requires AllPlain(text)
    ensures WholeWords(text)
  {
    if text != [] {
      PlainAreWhole(text[1..]);
      assert text == [text[0]] + text[1..];
    }
  }

  lemma {:induction false} TextSpells(text: seq<string>)
    requires WholeWords(text)
    ensures Spells(Join(text, " "), PrintText(text))
  {
    hide Spells, PrintText, Whole;
    Nothing();
    if text != [] {
      var n := |text| - 1;
      var init, last := text[..n], text[n];
      assert text == init + [last];
      TextSpells(init);
      TextGrows(init, last);
      IdSpells(last);
      LineSpells(init, last, " ", PrintText(init), [Id(last)]);
    }
  }

  lemma KeySpells(k: Key, rest: string, ts: Tokens)
    requires KeyOk(k) && Spells(rest, ts) && (rest == "" || White(rest[0]))
    ensures Spells(Then(":ed25519:", Then(Show(k.phase), Hex(k.data) + rest)), PrintKey(k) + ts)
  {
    NumWhole(k.phase);
    HexWhole(k.data);
    SignatureKeywords();
    hide Spells, Spell, Whole, Show, Hex, Then;
    FirstSpells(Id(Hex(k.data)), rest, ts);
    IdThen(Show(k.phase), Hex(k.data) + rest, [Id(Hex(k.data))] + ts);
    KwThen(Ed25519, Then(Show(k.phase), Hex(k.data) + rest), [Num(k.phase)] + ([Id(Hex(k.data))] + ts));
    assert PrintKey(k) + ts == [Kw(Ed25519)] + ([Num(k.phase)] + ([Id(Hex(k.data))] + ts));
  }

  lemma NameSpells(name: string, types: seq<OType>)
    requires Whole(name)
    ensures Spells(ValueText(NameObj(name, types)), [Id(name), Kw(LBracket)] + (PrintTypes(types) + [Kw(RBracket)]))
  {
    BracketKeywords();
    TypesSpell(types);
    KeywordWhole(RBracket);
    TokenSpells(Kw(RBracket));
    hide Spells, Spell, Whole, PrintTypes, Join, Then;
    IndentSpells(" ", "]", [Kw(RBracket)]);
    assert " " + "]" == " ]";
    var rest := Join(TypeTexts(types), " ") + " ]";
    JoinSpells(Join(TypeTexts(types), " "), PrintTypes(types), " ]", [Kw(RBracket)]);
    KwThen(LBracket, rest, PrintTypes(types) + [Kw(RBracket)]);
    IdThen(name, Then("[", rest), [Kw(LBracket)] + (PrintTypes(types) + [Kw(RBracket)]));
    assert [Id(name)] + ([Kw(LBracket)] + (PrintTypes(types) + [Kw(RBracket)]))
        == [Id(name), Kw(LBracket)] + (PrintTypes(types) + [Kw(RBracket)]);
  }

  lemma CertSpells(o: Object)
    requires o.CertObj? && o.usage != CUZero && o.cert != []
    ensures Spells(ValueText(o),
      [Kw(ProtocolKw(o.protocol)), Kw(UsageKw(o.usage).value), Kw(HashKw(o.hash)), Id(Hex(o.cert))])
  {
    HexWhole(o.cert);
    hide Spells, Spell, Whole, Hex, Then, ProtocolKw, HashKw;
    var p, u, h := ProtocolKw(o.protocol), UsageKw(o.usage).value, HashKw(o.hash);
    var data := Id(Hex(o.cert));
    IdSpells(Hex(o.cert));
    KwThen(h, Hex(o.cert), [data]);
    KwThen(u, Then(Spell(h), Hex(o.cert)), [Kw(h)] + [data]);
    KwThen(p, Then(Spell(u), Then(Spell(h), Hex(o.cert))), [Kw(u)] + ([Kw(h)] + [data]));
    assert [Kw(p)] + ([Kw(u)] + ([Kw(h)] + [data])) == [Kw(p), Kw(u), Kw(h), data];
  }

  lemma SrvSpells(name: string, port: int, priority: int)
    requires Whole(name)
    ensures Spells(ValueText(SrvObj(name, port, priority)), [Id(name), Num(port), Num(priority)])
  {
    NumWhole(port);
    NumWhole(priority);
    hide Spells, Whole, Show, Then;
    IdSpells(Show(priority));
    IdThen(Show(port), Show(priority), [Num(priority)]);
    IdThen(name, Then(Show(port), Show(priority)), [Num(port)] + [Num(priority)]);
    assert [Id(name)] + ([Num(port)] + [Num(priority)]) == [Id(name), Num(port), Num(priority)];
  }

  lemma KeyValueSpells(k: Key)
    requires KeyOk(k)
    ensures Spells(KeyText(k), PrintKey(k))
  {
    WhiteSpells("");
    hide Spells, Show, Hex, Then;
    KeySpells(k, "", []);
    assert Hex(k.data) + "" == Hex(k.data) && PrintKey(k) + [] == PrintKey(k);
  }

  lemma NextSpells(k: Key)
    requires KeyOk(k)
    ensures Spells(ValueText(NextObj(k)), PrintKey(k) + [Num(k.since), Num(k.until)])
  {
    NumWhole(k.since);
    NumWhole(k.until);
    var rest := Then(Show(k.since), Show(k.until));
    assert Then(Hex(k.data), rest) == Hex(k.data) + (" " + rest);
    hide Spells, Show, Hex, Then, Whole, PrintKey;
    IdSpells(Show(k.until));
    IdThen(Show(k.since), Show(k.until), [Num(k.until)]);
    assert [Num(k.since)] + [Num(k.until)] == [Num(k.since), Num(k.until)];
    IndentSpells(" ", rest, [Num(k.since), Num(k.until)]);
    KeySpells(k, " " + rest, [Num(k.since), Num(k.until)]);
  }

  // ---- objects spell ----

  /** The tokens behind the type. */
  function ValueTokens(o: Object): Tokens {
    if PrintObject(o) == [] then [] else PrintObject(o)[1..]
  }

  lemma TextValueSpells(text: seq<string>)
    requires AllPlain(text)
    ensures Spells(Join(text, " "), PrintText(text))
  {
    PlainAreWhole(text);
    TextSpells(text);
  }

  lemma ValueSpells(o: Object)
    requires ObjectOk(o) && ObjectPlain(o)
    ensures Spells(ValueText(o), ValueTokens(o))
  {
    hide Spells, PrintTypes, PrintText, PrintKey, Join, Then, Hex, Show, Spell, Whole, AllPlain, KeyText, TypeTexts;
    match o
    case NameObj(name, types) =>
      NameSpells(name, types);
      assert ValueTokens(o) == [Id(name), Kw(LBracket)] + (PrintTypes(types) + [Kw(RBracket)]);
    case Ip6Obj(addr) => IdSpells(addr); assert ValueTokens(o) == [Id(addr)];
    case Ip4Obj(addr) => IdSpells(addr); assert ValueTokens(o) == [Id(addr)];
    case ScionObj(addr) => IdSpells(addr); assert ValueTokens(o) == [Id(addr)];
    case RedirObj(name) => IdSpells(name); assert ValueTokens(o) == [Id(name)];
    case DelegObj(key) => KeyValueSpells(key); assert ValueTokens(o) == PrintKey(key);
    case InfraObj(key) => KeyValueSpells(key); assert ValueTokens(o) == PrintKey(key);
    case ExtraObj(key) => KeyValueSpells(key); assert ValueTokens(o) == PrintKey(key);
    case NamesetObj(text) => TextValueSpells(text); assert ValueTokens(o) == PrintText(text);
    case RegrObj(text) => TextValueSpells(text); assert ValueTokens(o) == PrintText(text);
    case RegtObj(text) => TextValueSpells(text); assert ValueTokens(o) == PrintText(text);
    case CertObj(_, _, _, _) => CertSpells(o);
    case SrvObj(name, port, priority) =>
      SrvSpells(name, port, priority);
      assert ValueTokens(o) == [Id(name), Num(port), Num(priority)];
    case NextObj(key) =>
      NextSpells(key);
      assert ValueTokens(o) == PrintKey(key) + [Num(key.since), Num(key.until)];
  }

  lemma TypeTokens(o: Object)
    ensures PrintObject(o) != [] && PrintObject(o)[0].Kw?
    ensures TypeWord(TypeNumber(o)) == Some(Spell(PrintObject(o)[0].k))
  {
    hide Spell, PrintKey, PrintText, PrintTypes;
  }

  lemma ObjectSpells(o: Object)
    requires ObjectOk(o) && ObjectPlain(o)
    ensures Printable(S.Obj(TypeNumber(o), ValueText(o)))
    ensures Spells(ObjectText(S.Obj(TypeNumber(o), ValueText(o))), PrintObject(o))
  {
    TypeTokens(o);
    ValueSpells(o);
    var t := PrintObject(o)[0];
    assert [t] + ValueTokens(o) == PrintObject(o);
    hide Spells, ValueText, PrintObject, Spell, ObjectOk, ObjectPlain, TypeNumber, Whole, TypeWord, ValueTokens;
    KeywordWhole(t.k);
    PaddedSpells(t, ValueText(o), ValueTokens(o));
  }

  lemma PaddedSpells(t: Token, value: string, ts: Tokens)
    requires Whole(Word(t)) && |Word(t)| < |INDENT12| && Spells(value, ts)
    ensures Spells(Word(t) + INDENT12[|Word(t)|..] + value, [t] + ts)
  {
    var pad := INDENT12[|Word(t)|..];
    assert AllWhite(pad) && pad != "" && White(pad[0]);
    hide Spells, Whole, Word, AllWhite;
    IndentSpells(pad, value, ts);
    assert White((pad + value)[0]);
    FirstSpells(t, pad + value, ts);
    assert Word(t) + pad + value == Word(t) + (pad + value);
  }

  lemma {:induction false} ObjectsPick(os: seq<Object>, i: nat)
    requires ObjectsOk(os) && ObjectsPlain(os) && i < |os|
    ensures ObjectOk(os[i]) && ObjectPlain(os[i])
  {
    if i > 0 { ObjectsPick(os[1..], i - 1); }
  }

  /** All objects are well formed and plain. */
  ghost predicate GoodObjects(os: seq<Object>) {
    forall i :: 0 <= i < |os| ==> ObjectOk(os[i]) && ObjectPlain(os[i])
  }

  lemma {:induction false} ObjectsSpell(os: seq<Object>, indent: string)
    requires GoodObjects(os) && AllWhite(indent)
    ensures Spells(ObjectsText(Objs(os), indent), PrintObjects(os))
  {
    hide ObjectOk, ObjectPlain, PrintObject, ValueText, TypeNumber, Spells, ObjectText, Printable, PrintObjects;
    Nothing();
    forall i | 0 <= i < |os| ensures Printable(Objs(os)[i]) {
      ObjectSpells(os[i]);
    }
    if os != [] {
      var n := |os| - 1;
      var init, last := os[..n], os[n];
      assert os == init + [last];
      ObjectsSpell(init, indent);
      ObjectsGrow(init, last);
      ObjectSpells(last);
      assert Objs(init) == Objs(os)[..n];
      var line := indent + ObjectText(Objs(os)[n]);
      IndentSpells(indent, ObjectText(Objs(os)[n]), PrintObject(last));
      assert ObjectLines(Objs(os), indent) == ObjectLines(Objs(init), indent) + [line];
      LineSpells(ObjectLines(Objs(init), indent), line, "\n", PrintObjects(init), PrintObject(last));
    }
  }

  // ---- signatures spell ----

  lemma SigEndSpells(s: Sig)
    ensures Spells(if s.data == [] then Show(s.until) else Then(Show(s.until), Hex(s.data)),
      [Num(s.until)] + if s.data == [] then [] else [Id(Hex(s.data))])
  {
    NumWhole(s.until);
    if s.data != [] { HexWhole(s.data); }
    hide Spells, Show, Hex, Then, Whole;
    if s.data == [] {
      IdSpells(Show(s.until));
      assert [Num(s.until)] + [] == [Num(s.until)];
    } else {
      IdSpells(Hex(s.data));
      IdThen(Show(s.until), Hex(s.data), [Id(Hex(s.data))]);
    }
  }

  lemma SigSpells(s: Sig)
    ensures Spells(SigText(s), PrintSig(s))
  {
    NumWhole(s.phase);
    NumWhole(s.since);
    SignatureKeywords();
    SigEndSpells(s);
    var end := if s.data == [] then Show(s.until) else Then(Show(s.until), Hex(s.data));
    var ts := [Num(s.until)] + if s.data == [] then [] else [Id(Hex(s.data))];
    hide Spells, Show, Hex, Then, Whole, Spell;
    IdThen(Show(s.since), end, ts);
    IdThen(Show(s.phase), Then(Show(s.since), end), [Num(s.since)] + ts);
    var three := Then(Show(s.phase), Then(Show(s.since), end));
    var us := [Num(s.phase)] + ([Num(s.since)] + ts);
    KwThen(Rains, three, us);
    KwThen(Ed25519, Then(":rains:", three), [Kw(Rains)] + us);
    KwThen(Signature, Then(":ed25519:", Then(":rains:", three)), [Kw(Ed25519)] + ([Kw(Rains)] + us));
    assert [Kw(Signature)] + ([Kw(Ed25519)] + ([Kw(Rains)] + us)) == PrintSig(s);
  }

  lemma {:induction false} SigLinesSpell(ss: seq<Sig>, sep: string)
    requires AllWhite(sep) && sep != ""
    ensures Spells(Join(SigTexts(ss), sep), PrintSigList(ss))
  {
    hide Spells, PrintSigList, PrintSig, SigText, AllWhite;
    Nothing();
    if ss != [] {
      var n := |ss| - 1;
      var init, last := ss[..n], ss[n];
      assert ss == init + [last];
      SigLinesSpell(init, sep);
      SigListGrows(init, last);
      SigSpells(last);
      assert SigTexts(ss) == SigTexts(init) + [SigText(last)];
      LineSpells(SigTexts(init), SigText(last), sep, PrintSigList(init), PrintSig(last));
    }
  }

  /** What comes behind the opening parenthesis spells the rest. */
  lemma OpenSpells(inner: string, ts: Tokens)
    requires Spells(inner, ts + [Kw(RParen)])
    ensures Spells(" " + Then("(", inner), [Kw(LParen)] + (ts + [Kw(RParen)]))
  {
    BracketKeywords();
    hide Spells, Then, Spell;
    KwThen(LParen, inner, ts + [Kw(RParen)]);
    IndentSpells(" ", Then("(", inner), [Kw(LParen)] + (ts + [Kw(RParen)]));
  }

  lemma CloseSpells(white: string, close: string)
    requires AllWhite(white) && (close == ")\n" || close == "  )\n")
    ensures Spells(white + close, [Kw(RParen)])
  {
    BracketKeywords();
    WhiteSpells("\n");
    KeywordWhole(RParen);
    FirstSpells(Kw(RParen), "\n", []);
    assert [Kw(RParen)] + [] == [Kw(RParen)] && ")" + "\n" == ")\n" && "  " + ")\n" == "  )\n";
    hide Spells, Spell, Whole;
    if close == "  )\n" { IndentSpells("  ", ")\n", [Kw(RParen)]); }
    IndentSpells(white, close, [Kw(RParen)]);
  }

  lemma OneSigSpells(sig: string, ts: Tokens)
    requires Spells(sig, ts)
    ensures Spells(" " + Then("(", Then(sig, ")\n")), [Kw(LParen)] + (ts + [Kw(RParen)]))
  {
    CloseSpells(" ", ")\n");
    assert Then(sig, ")\n") == sig + (" " + ")\n");
    hide Spells, Then;
    JoinSpells(sig, ts, " " + ")\n", [Kw(RParen)]);
    OpenSpells(Then(sig, ")\n"), ts);
  }

  lemma SigBlockSpells(lines: string, ts: Tokens, margin: string, indent: string, close: string)
    requires Spells(lines, ts) && AllWhite(margin) && AllWhite(indent) && (close == ")\n" || close == "  )\n")
    ensures Spells(" " + Then("(", "\n" + (margin + (lines + ("\n" + (indent + close))))),
      [Kw(LParen)] + (ts + [Kw(RParen)]))
  {
    CloseSpells("\n" + indent, close);
    assert ("\n" + indent) + close == "\n" + (indent + close);
    var tail := "\n" + (indent + close);
    hide Spells, Then;
    JoinSpells(lines, ts, tail, [Kw(RParen)]);
    IndentSpells(margin, lines + tail, ts + [Kw(RParen)]);
    IndentSpells("\n", margin + (lines + tail), ts + [Kw(RParen)]);
    OpenSpells("\n" + (margin + (lines + tail)), ts);
  }

  lemma SigsSpell(ss: seq<Sig>, indent: string, close: string)
    requires ss != [] && AllWhite(indent) && (close == ")\n" || close == "  )\n")
    ensures Spells(SigsText(SigTexts(ss), indent, close), PrintSigs(ss))
  {
    var margin := indent + INDENT4;
    SigLinesSpell(ss, "\n" + margin);
    var lines := Join(SigTexts(ss), "\n" + margin);
    assert |ss| == 1 ==> lines == SigTexts(ss)[0];
    hide Spells, PrintSigList, SigTexts, Join, Then;
    if |ss| == 1 {
      OneSigSpells(lines, PrintSigList(ss));
    } else {
      SigBlockSpells(lines, PrintSigList(ss), margin, indent, close);
    }
  }

  lemma AnnotationSpells(ss: seq<Sig>, indent: string, close: string)
    requires AllWhite(indent) && (close == ")\n" || close == "  )\n")
    ensures Spells(if ss == [] then "" else SigsText(SigTexts(ss), indent, close), PrintSigs(ss))
    ensures ss != [] ==> SigsText(SigTexts(ss), indent, close) != "" && SigsText(SigTexts(ss), indent, close)[0] == ' '
  {
    if ss == [] {
      WhiteSpells("");
    } else {
      SigsSpell(ss, indent, close);
    }
  }

  // ---- assertions spell ----

  lemma ObjectsAreGood(os: seq<Object>)
    requires ObjectsOk(os) && ObjectsPlain(os)
    ensures GoodObjects(os)
  {
    forall i | 0 <= i < |os| ensures ObjectOk(os[i]) && ObjectPlain(os[i]) {
      ObjectsPick(os, i);
    }
  }

  /** The objects between white space, and the closing bracket. */
  lemma EnclosedSpells(text: string, ts: Tokens, before: string, after: string)
    requires Spells(text, ts) && AllWhite(before) && AllWhite(after) && after != ""
    ensures Spells(before + (text + (after + "]")), ts + [Kw(RBracket)])
  {
    BracketKeywords();
    KeywordWhole(RBracket);
    TokenSpells(Kw(RBracket));
    hide Spells, Spell, Whole;
    IndentSpells(after, "]", [Kw(RBracket)]);
    JoinSpells(text, ts, after + "]", [Kw(RBracket)]);
    IndentSpells(before, text + (after + "]"), ts + [Kw(RBracket)]);
  }

  /** Between the brackets. */
  function InnerText(a: Assertion, indent: string): string {
    if |a.content| > 1 then "\n" + (ObjectsText(Objs(a.content), indent + INDENT4) + ("\n" + (indent + "]")))
    else " " + (ObjectsText(Objs(a.content), "") + " ]")
  }

  lemma BlockSpells(text: string, ts: Tokens, indent: string)
    requires Spells(text, ts) && AllWhite(indent)
    ensures Spells("\n" + (text + ("\n" + (indent + "]"))), ts + [Kw(RBracket)])
  {
    assert AllWhite("\n") && AllWhite("\n" + indent);
    assert ("\n" + indent) + "]" == "\n" + (indent + "]");
    hide Spells, AllWhite;
    EnclosedSpells(text, ts, "\n", "\n" + indent);
  }

  lemma LineBodySpells(text: string, ts: Tokens)
    requires Spells(text, ts)
    ensures Spells(" " + (text + " ]"), ts + [Kw(RBracket)])
  {
    assert AllWhite(" ") && " " + "]" == " ]";
    hide Spells, AllWhite;
    EnclosedSpells(text, ts, " ", " ");
  }

  lemma InnerSpells(a: Assertion, indent: string)
    requires GoodObjects(a.content) && AllWhite(indent)
    ensures Spells(InnerText(a, indent), PrintObjects(a.content) + [Kw(RBracket)])
  {
    assert AllWhite(indent + INDENT4) && AllWhite("");
    hide Spells, PrintObjects, ObjectsText, Objs, GoodObjects, AllWhite;
    if |a.content| > 1 {
      ObjectsSpell(a.content, indent + INDENT4);
      BlockSpells(ObjectsText(Objs(a.content), indent + INDENT4), PrintObjects(a.content), indent);
    } else {
      ObjectsSpell(a.content, "");
      LineBodySpells(ObjectsText(Objs(a.content), ""), PrintObjects(a.content));
    }
  }

  lemma BodySpells(a: Assertion, indent: string)
    requires GoodObjects(a.content) && AllWhite(indent)
    ensures Spells(BodyText(Printed(a), indent),
      [Kw(LBracket)] + (PrintObjects(a.content) + ([Kw(RBracket)] + PrintSigs(a.sigs))))
  {
    BracketKeywords();
    KeywordWhole(LBracket);
    AnnotationSpells(a.sigs, indent, ")\n");
    InnerSpells(a, indent);
    var inner, ts := InnerText(a, indent), PrintObjects(a.content) + [Kw(RBracket)];
    var sigs := if a.sigs == [] then "" else SigsText(SigTexts(a.sigs), indent, ")\n");
    assert White(inner[0]) && BodyText(Printed(a), indent) == "[" + (inner + sigs);
    hide Spells, Spell, Whole, PrintObjects, PrintSigs, SigsText, BodyText, SigTexts, InnerText, GoodObjects, Printed;
    JoinSpells(inner, ts, sigs, PrintSigs(a.sigs));
    FirstSpells(Kw(LBracket), inner + sigs, ts + PrintSigs(a.sigs));
    Associate(PrintObjects(a.content), [Kw(RBracket)], PrintSigs(a.sigs));
  }

  lemma AssertionSpells(a: Assertion, indent: string, full: bool)
    requires AssertionOk(a) && AssertionPlain(a, full) && AllWhite(indent)
    ensures Spells(AssertionText(Printed(a), indent, full), PrintAssertion(a, full))
  {
    SectionKeywords();
    ObjectsAreGood(a.content);
    BodySpells(a, indent);
    var body := BodyText(Printed(a), indent);
    var rest := PrintObjects(a.content) + ([Kw(RBracket)] + PrintSigs(a.sigs));
    var ts := [Kw(LBracket)] + rest;
    hide Spells, Spell, Whole, PrintObjects, PrintSigs, BodyText, Then, GoodObjects, ObjectsOk, ObjectsPlain, SigsOk;
    if full {
      IdThen(a.context, body, ts);
      IdThen(a.zone, Then(a.context, body), [Id(a.context)] + ts);
    }
    var named := if full then Then(a.zone, Then(a.context, body)) else body;
    var us := if full then [Id(a.zone)] + ([Id(a.context)] + ts) else ts;
    IdThen(a.name, named, us);
    KwThen(Keyword.Assertion, Then(a.name, named), [Id(a.name)] + us);
    IndentSpells(indent, Then(":A:", Then(a.name, named)), [Kw(Keyword.Assertion)] + ([Id(a.name)] + us));
    FrontTokens(a, full, rest);
  }

  lemma FrontTokens(a: Assertion, full: bool, rest: Tokens)
    ensures var ts := [Kw(LBracket)] + rest;
      [Kw(Keyword.Assertion)] + ([Id(a.name)] + if full then [Id(a.zone)] + ([Id(a.context)] + ts) else ts)
      == (if full then [Kw(Keyword.Assertion), Id(a.name), Id(a.zone), Id(a.context), Kw(LBracket)]
          else [Kw(Keyword.Assertion), Id(a.name), Kw(LBracket)]) + rest
  {
  }

  // ---- sections spell ----

  ghost predicate GoodContent(az: seq<Assertion>) {
    forall i :: 0 <= i < |az| ==> AssertionOk(az[i]) && AssertionPlain(az[i], false)
  }

  lemma {:induction false} ContentIsGood(az: seq<Assertion>)
    requires ContentOk(az) && ContentPlain(az)
    ensures GoodContent(az)
  {
    hide AssertionOk, AssertionPlain;
    if az != [] {
      ContentIsGood(az[1..]);
      assert az == [az[0]] + az[1..];
    }
  }

  lemma LineEnds(content: seq<S.Assertion>)
    ensures var text := ContentText(content); text == "" || text[|text| - 1] == '\n'
  {
    hide AssertionText;
  }

  lemma EntrySpells(front: string, ts: Tokens, line: string, us: Tokens)
    requires Spells(front, ts) && Spells(line, us) && (front == "" || front[|front| - 1] == '\n')
    ensures Spells(front + (line + "\n"), ts + us)
  {
    WhiteSpells("\n");
    hide Spells;
    JoinSpells(line, us, "\n", []);
    assert us + [] == us;
    JoinSpells(front, ts, line + "\n", us);
  }

  lemma {:induction false} ContentSpells(az: seq<Assertion>)
    requires GoodContent(az)
    ensures Spells(ContentText(PrintedAll(az)), PrintContent(az))
  {
    hide Spells, AssertionText, PrintAssertion, Printed, AssertionOk, AssertionPlain, PrintContent;
    Nothing();
    if az != [] {
      var n := |az| - 1;
      var init, last := az[..n], az[n];
      assert az == init + [last];
      ContentSpells(init);
      ZoneEncoder.ContentGrows(init, last);
      LineEnds(PrintedAll(init));
      AssertionSpells(last, INDENT4, false);
      assert PrintedAll(az)[..n] == PrintedAll(init) && PrintedAll(az)[n] == Printed(last);
      EntrySpells(ContentText(PrintedAll(init)), PrintContent(init),
        AssertionText(Printed(last), INDENT4, false), PrintAssertion(last, false));
    }
  }

  lemma ClosingSpells(ss: seq<Sig>)
    ensures Spells(ClosingText(Annotation(ss)), [Kw(RBracket)] + PrintSigs(ss))
  {
    BracketKeywords();
    KeywordWhole(RBracket);
    AnnotationSpells(ss, "", "  )\n");
    WhiteSpells("\n");
    var tail := if ss == [] then "\n" else SigsText(SigTexts(ss), "", "  )\n");
    hide Spells, Spell, Whole, SigsText, SigTexts;
    FirstSpells(Kw(RBracket), tail, PrintSigs(ss));
  }

  /** A head that ends its line, the assertions, and the closing line. */
  lemma FramedSpells(head: string, ts: Tokens, az: seq<Assertion>, ss: seq<Sig>)
    requires Spells(head, ts) && head != "" && White(head[|head| - 1]) && GoodContent(az)
    ensures Spells(head + ContentText(PrintedAll(az)) + ClosingText(Annotation(ss)),
      ts + (PrintContent(az) + ([Kw(RBracket)] + PrintSigs(ss))))
  {
    ContentSpells(az);
    ClosingSpells(ss);
    LineEnds(PrintedAll(az));
    var content, closing := ContentText(PrintedAll(az)), ClosingText(Annotation(ss));
    var us, vs := PrintContent(az), [Kw(RBracket)] + PrintSigs(ss);
    hide Spells, ContentText, ClosingText, PrintContent, PrintSigs, GoodContent, PrintedAll, Annotation;
    JoinSpells(head, ts, content, us);
    assert (head + content)[|head + content| - 1] == if content == "" then head[|head| - 1] else content[|content| - 1];
    JoinSpells(head + content, ts + us, closing, vs);
    Associate(ts, us, vs);
  }

  lemma BracketLineSpells()
    ensures Spells("[\n", [Kw(LBracket)])
  {
    BracketKeywords();
    KeywordWhole(LBracket);
    WhiteSpells("\n");
    FirstSpells(Kw(LBracket), "\n", []);
    assert "[" + "\n" == "[\n" && [Kw(LBracket)] + [] == [Kw(LBracket)];
  }

  /** A range end prints as its token. */
  lemma FromSpells(from: string, rest: string, ts: Tokens)
    requires (from == "" || from == "<" || Plain(from)) && Spells(rest, ts)
    ensures Spells(Then(RangeWord(from, "<"), rest), [FromToken(from)] + ts)
  {
    RangeKeywords();
    assert Plain(from) ==> Whole(from);
    hide Spells, Spell, Whole, Then, Plain;
    if from == "" || from == "<" { KwThen(RangeBegin, rest, ts); } else { IdThen(from, rest, ts); }
  }

  lemma ToSpells(to: string, rest: string, ts: Tokens)
    requires (to == "" || to == ">" || Plain(to)) && Spells(rest, ts)
    ensures Spells(Then(RangeWord(to, ">"), rest), [ToToken(to)] + ts)
  {
    RangeKeywords();
    assert Plain(to) ==> Whole(to);
    hide Spells, Spell, Whole, Then, Plain;
    if to == "" || to == ">" { KwThen(RangeEnd, rest, ts); } else { IdThen(to, rest, ts); }
  }

  /** A keyword, zone and context in front. */
  lemma PlaceSpells(k: Keyword, zone: string, context: string, rest: string, ts: Tokens)
    requires Plain(zone) && Plain(context) && Spells(rest, ts)
    ensures Spells(Then(Spell(k), Then(zone, Then(context, rest))), [Kw(k), Id(zone), Id(context)] + ts)
  {
    assert Whole(zone) && Whole(context);
    hide Spells, Spell, Whole, Then, Plain;
    IdThen(context, rest, ts);
    IdThen(zone, Then(context, rest), [Id(context)] + ts);
    KwThen(k, Then(zone, Then(context, rest)), [Id(zone)] + ([Id(context)] + ts));
    ThreeInFront(Kw(k), Id(zone), Id(context), ts);
  }

  lemma ThreeInFront(a: Token, b: Token, c: Token, ts: Tokens)
    ensures [a] + ([b] + ([c] + ts)) == [a, b, c] + ts
  {
  }

  /** The last character of a chain of words is that of its end. */
  lemma ThenEnds(word: string, rest: string)
    requires rest != "" && White(rest[|rest| - 1])
    ensures var text := Then(word, rest); text != "" && White(text[|text| - 1])
  {
  }

  lemma RangeSpells(from: string, to: string)
    requires BoundsPlain(from, to)
    ensures var text := Then(RangeWord(from, "<"), Then(RangeWord(to, ">"), "[\n"));
      && Spells(text, [FromToken(from), ToToken(to), Kw(LBracket)])
      && text != "" && White(text[|text| - 1])
  {
    BracketLineSpells();
    hide Spells, Plain, Then, RangeWord, FromToken, ToToken;
    var end := Then(RangeWord(to, ">"), "[\n");
    ToSpells(to, "[\n", [Kw(LBracket)]);
    ThenEnds(RangeWord(to, ">"), "[\n");
    FromSpells(from, end, [ToToken(to)] + [Kw(LBracket)]);
    ThenEnds(RangeWord(from, "<"), end);
    assert [FromToken(from)] + ([ToToken(to)] + [Kw(LBracket)]) == [FromToken(from), ToToken(to), Kw(LBracket)];
  }

  lemma HeaderSpells(s: S.Shard)
    requires Plain(s.zone) && Plain(s.context) && BoundsPlain(s.from, s.to)
    ensures Header(s) != "" && White(Header(s)[|Header(s)| - 1])
    ensures Spells(Header(s),
      [Kw(Keyword.Shard), Id(s.zone), Id(s.context), FromToken(s.from), ToToken(s.to), Kw(LBracket)])
  {
    SectionKeywords();
    hide Spells, Spell, Plain, Then, RangeWord, FromToken, ToToken;
    RangeSpells(s.from, s.to);
    var range := Then(RangeWord(s.from, "<"), Then(RangeWord(s.to, ">"), "[\n"));
    ThenEnds(s.context, range);
    ThenEnds(s.zone, Then(s.context, range));
    ThenEnds(":S:", Then(s.zone, Then(s.context, range)));
    var ts := [FromToken(s.from), ToToken(s.to), Kw(LBracket)];
    PlaceSpells(Keyword.Shard, s.zone, s.context, range, ts);
    assert [Kw(Keyword.Shard), Id(s.zone), Id(s.context)] + ts
        == [Kw(Keyword.Shard), Id(s.zone), Id(s.context), FromToken(s.from), ToToken(s.to), Kw(LBracket)];
  }

  lemma ShardSpells(s: Section)
    requires s.ShardSec? && SectionOk(s) && SectionPlain(s)
    ensures Spells(SectionText(s), PrintSection(s))
  {
    ContentIsGood(s.content);
    hide Spells, Plain, Header, FromToken, ToToken, ContentOk, ContentPlain, GoodContent, SigsOk, BoundsPlain;
    hide PrintContent, PrintSigs, ContentText, ClosingText, PrintedAll, Annotation;
    var shard := S.Shard(s.zone, s.context, s.from, s.to, PrintedAll(s.content));
    HeaderSpells(shard);
    var ts := [Kw(Keyword.Shard), Id(s.zone), Id(s.context), FromToken(s.from), ToToken(s.to), Kw(LBracket)];
    FramedSpells(Header(shard), ts, s.content, s.sigs);
  }

  lemma ZoneSpells(s: Section)
    requires s.ZoneSec? && SectionOk(s) && SectionPlain(s)
    ensures Spells(SectionText(s), PrintSection(s))
  {
    SectionKeywords();
    ContentIsGood(s.content);
    BracketLineSpells();
    hide Spells, Spell, Plain, Then, ContentOk, ContentPlain, GoodContent, SigsOk;
    ThenEnds(s.context, "[\n");
    ThenEnds(s.zone, Then(s.context, "[\n"));
    ThenEnds(":Z:", Then(s.zone, Then(s.context, "[\n")));
    PlaceSpells(Keyword.Zone, s.zone, s.context, "[\n", [Kw(LBracket)]);
    assert [Kw(Keyword.Zone), Id(s.zone), Id(s.context)] + [Kw(LBracket)]
        == [Kw(Keyword.Zone), Id(s.zone), Id(s.context), Kw(LBracket)];
    hide PrintContent, PrintSigs, ContentText, ClosingText, PrintedAll, Annotation;
    FramedSpells(Then(":Z:", Then(s.zone, Then(s.context, "[\n"))),
      [Kw(Keyword.Zone), Id(s.zone), Id(s.context), Kw(LBracket)], s.content, s.sigs);
  }

  lemma FilterSpells(s: Section)
    requires s.PshardSec? && s.filter != []
    ensures Spells(FilterText(s.filter, s.sigs), [Id(Hex(s.filter))] + PrintSigs(s.sigs))
  {
    HexWhole(s.filter);
    AnnotationSpells(s.sigs, "", "  )\n");
    Nothing();
    WhiteSpells("\n");
    var tail := if s.sigs == [] then "\n" else SigsText(SigTexts(s.sigs), "", "  )\n");
    hide Spells, SigsText, SigTexts, Hex, Whole, PrintSigs;
    FirstSpells(Id(Hex(s.filter)), tail, PrintSigs(s.sigs));
  }

  lemma PshardSpells(s: Section)
    requires s.PshardSec? && SectionOk(s) && SectionPlain(s)
    ensures Spells(SectionText(s), PrintSection(s))
  {
    SectionKeywords();
    FilterSpells(s);
    hide Spells, Spell, Plain, Then, RangeWord, FromToken, ToToken, FilterText, SigsOk, Hex, PrintSigs, BloomKw, HashKw;
    var t1, u1 := FilterText(s.filter, s.sigs), [Id(Hex(s.filter))] + PrintSigs(s.sigs);
    var t2, u2 := Then(Spell(HashKw(s.bhash)), t1), [Kw(HashKw(s.bhash))] + u1;
    KwThen(HashKw(s.bhash), t1, u1);
    var t3, u3 := Then(Spell(BloomKw(s.algo)), t2), [Kw(BloomKw(s.algo))] + u2;
    KwThen(BloomKw(s.algo), t2, u2);
    var t4, u4 := Then(RangeWord(s.to, ">"), t3), [ToToken(s.to)] + u3;
    ToSpells(s.to, t3, u3);
    FromSpells(s.from, t4, u4);
    PlaceSpells(Keyword.Pshard, s.zone, s.context, Then(RangeWord(s.from, "<"), t4), [FromToken(s.from)] + u4);
    PshardTokens(s);
  }

  lemma PshardTokens(s: Section)
    requires s.PshardSec?
    ensures [Kw(Keyword.Pshard), Id(s.zone), Id(s.context)] + ([FromToken(s.from)] + ([ToToken(s.to)]
      + ([Kw(BloomKw(s.algo))] + ([Kw(HashKw(s.bhash))] + ([Id(Hex(s.filter))] + PrintSigs(s.sigs))))))
      == PrintSection(s)
  {
    hide Hex, PrintSigs, FromToken, ToToken, BloomKw, HashKw;
  }

  lemma SectionSpells(s: Section)
    requires SectionOk(s) && SectionPlain(s)
    ensures Spells(SectionText(s), PrintSection(s))
  {
    hide Spells, AssertionText, PrintAssertion, AssertionOk, AssertionPlain, Printed;
    match s
    case AssertionSec(a) => AssertionSpells(a, "", true);
    case ShardSec(_, _, _, _, _, _) => ShardSpells(s);
    case PshardSec(_, _, _, _, _, _, _, _) => PshardSpells(s);
    case ZoneSec(_, _, _, _) => ZoneSpells(s);
  }

  lemma {:induction false} SectionsGrow(ss: seq<Section>, s: Section)
    ensures PrintSections(ss + [s]) == PrintSections(ss) + PrintSection(s)
  {
    hide PrintSection;
    if ss == [] {
      assert [s][1..] == [] && PrintSections([s]) == PrintSection(s) + PrintSections([]);
    } else {
      assert (ss + [s])[1..] == ss[1..] + [s];
      SectionsGrow(ss[1..], s);
    }
  }

  lemma {:induction false} SectionsPick(ss: seq<Section>, i: nat)
    requires SectionsOk(ss) && SectionsPlain(ss) && i < |ss|
    ensures SectionOk(ss[i]) && SectionPlain(ss[i])
  {
    if i > 0 { SectionsPick(ss[1..], i - 1); }
  }

  ghost predicate GoodSections(ss: seq<Section>) {
    forall i :: 0 <= i < |ss| ==> SectionOk(ss[i]) && SectionPlain(ss[i])
  }

  function SectionTexts(ss: seq<Section>): (r: seq<string>)
    ensures |r| == |ss|
  {
    seq(|ss|, i requires 0 <= i < |ss| => SectionText(ss[i]))
  }

  lemma {:induction false} SectionsSpell(ss: seq<Section>)
    requires GoodSections(ss)
    ensures Spells(Join(SectionTexts(ss), "\n"), PrintSections(ss))
  {
    hide Spells, SectionText, PrintSection, SectionOk, SectionPlain, PrintSections;
    Nothing();
    if ss != [] {
      var n := |ss| - 1;
      var init, last := ss[..n], ss[n];
      assert ss == init + [last];
      SectionsSpell(init);
      SectionsGrow(init, last);
      SectionSpells(last);
      assert SectionTexts(ss) == SectionTexts(init) + [SectionText(last)];
      LineSpells(SectionTexts(init), SectionText(last), "\n", PrintSections(init), PrintSection(last));
    }
  }

  // ---- printing the normal form again ----

  lemma ValueSame(o: Object)
    ensures TypeNumber(NormObject(o)) == TypeNumber(o) && ValueText(NormObject(o)) == ValueText(o)
  {
    hide Then, Join, Show, Hex, Spell, TypeTexts;
  }

  lemma {:induction false} ObjsSame(os: seq<Object>)
    ensures |NormObjects(os)| == |os| && Objs(NormObjects(os)) == Objs(os)
  {
    hide ValueText, TypeNumber, NormObject;
    if os != [] {
      ValueSame(os[0]);
      ObjsSame(os[1..]);
      assert Objs(os) == [Objs(os)[0]] + Objs(os[1..]);
      assert Objs(NormObjects(os)) == [Objs(NormObjects(os))[0]] + Objs(NormObjects(os[1..]));
    }
  }

  lemma SigTextSame(s: Sig)
    ensures SigText(NormSig(s)) == SigText(s)
  {
    hide Then, Show, Hex;
  }

  lemma {:induction false} SigTextsSame(ss: seq<Sig>)
    ensures |NormSigs(ss)| == |ss| && SigTexts(NormSigs(ss)) == SigTexts(ss)
    ensures Annotation(NormSigs(ss)) == Annotation(ss)
  {
    hide SigText, NormSig;
    if ss != [] {
      SigTextSame(ss[0]);
      SigTextsSame(ss[1..]);
      assert SigTexts(ss) == [SigTexts(ss)[0]] + SigTexts(ss[1..]);
      assert SigTexts(NormSigs(ss)) == [SigTexts(NormSigs(ss))[0]] + SigTexts(NormSigs(ss[1..]));
    }
  }

  lemma AssertionTextSame(a: Assertion, indent: string, full: bool)
    ensures AssertionText(Printed(NormAssertion(a, full)), indent, full) == AssertionText(Printed(a), indent, full)
  {
    ObjsSame(a.content);
    SigTextsSame(a.sigs);
    hide Objs, SigTexts, Annotation, NormObjects, NormSigs, ObjectsText, SigsText, Then;
  }

  lemma {:induction false} NormContentAt(az: seq<Assertion>, i: nat)
    requires i < |az|
    ensures |NormContent(az)| == |az| && NormContent(az)[i] == NormAssertion(az[i], false)
  {
    hide NormAssertion;
    if i > 0 {
      NormContentAt(az[1..], i - 1);
    } else if |az| > 1 {
      NormContentAt(az[1..], 0);
    }
  }

  lemma {:induction false} ContentTextSame(c: seq<S.Assertion>, d: seq<S.Assertion>)
    requires |c| == |d|
    requires forall i :: 0 <= i < |c| ==> AssertionText(c[i], INDENT4, false) == AssertionText(d[i], INDENT4, false)
    ensures ContentText(c) == ContentText(d)
  {
    hide AssertionText;
    if c != [] { ContentTextSame(c[..|c| - 1], d[..|d| - 1]); }
  }

  lemma PrintedSame(az: seq<Assertion>)
    ensures ContentText(PrintedAll(NormContent(az))) == ContentText(PrintedAll(az))
  {
    hide AssertionText, Printed, NormAssertion, ContentText;
    if az != [] { NormContentAt(az, 0); }
    var c, d := PrintedAll(NormContent(az)), PrintedAll(az);
    forall i | 0 <= i < |d|
      ensures |c| == |d| && AssertionText(c[i], INDENT4, false) == AssertionText(d[i], INDENT4, false)
    {
      NormContentAt(az, i);
      AssertionTextSame(az[i], INDENT4, false);
    }
    ContentTextSame(c, d);
  }

  lemma SectionTextSame(s: Section)
    ensures SectionText(NormSection(s)) == SectionText(s)
  {
    hide AssertionText, Printed, NormAssertion, ContentText, ClosingText, Annotation, PrintedAll, NormContent, NormSigs;
    hide Then, SigsText, SigTexts, Hex, Spell;
    match s
    case AssertionSec(a) => AssertionTextSame(a, "", true);
    case ShardSec(_, _, _, _, content, sigs) => PrintedSame(content); SigTextsSame(sigs);
    case PshardSec(_, _, _, _, _, _, _, sigs) => SigTextsSame(sigs);
    case ZoneSec(_, _, content, sigs) => PrintedSame(content); SigTextsSame(sigs);
  }

  lemma {:induction false} SectionsTextSame(ss: seq<Section>)
    ensures |NormSections(ss)| == |ss| && SectionTexts(NormSections(ss)) == SectionTexts(ss)
  {
    hide SectionText, NormSection;
    if ss != [] {
      SectionTextSame(ss[0]);
      SectionsTextSame(ss[1..]);
      var norm := NormSections(ss);
      assert SectionTexts(ss) == [SectionTexts(ss)[0]] + SectionTexts(ss[1..]);
      assert SectionTexts(norm) == [SectionTexts(norm)[0]] + SectionTexts(NormSections(ss[1..]));
    }
  }

  /** From text to text: encoding well-formed sections whose own words are plain, dropping comments, splitting into
      words, lexing and parsing gives the sections in normal form, and encoding those gives the same text. */
  lemma TextRound(ss: seq<Section>)
    requires SectionsOk(ss) && SectionsPlain(ss)
    ensures SplitWords(SectionsText(ss)) == Words(PrintSections(ss))
    ensures ParseSections(LexAll(SplitWords(SectionsText(ss)))) == Some(NormSections(ss))
    ensures SectionsText(NormSections(ss)) == SectionsText(ss)
  {
    forall i | 0 <= i < |ss| ensures SectionOk(ss[i]) && SectionPlain(ss[i]) {
      SectionsPick(ss, i);
    }
    SectionsSpell(ss);
    WordsRound(ss);
    SectionsTextSame(ss);
    hide SectionsOk, SectionsPlain, SectionTexts, SplitWords, LexAll, ParseSections, PrintSections, NormSections, Words;
    hide Join;
  }
}
