/** The text of a shard in a zone file, character by character: what the grouping by size measures.
 */
module ShardText {
  import opened Names
  import opened Shards
  import W = ZoneWords

  const INDENT4 := "    "
  const INDENT12 := "            "

  /** The word for an object's type, by its number in the protocol. */
  function TypeWord(kind: int): (word: Option<string>)
    ensures word.Some? <==> 1 <= kind <= 14
    ensures word.Some? ==> |word.value| < |INDENT12|
  {
    match kind
    case 1 => Some(W.Spell(W.NameType))
    case 2 => Some(W.Spell(W.Ip6Type))
    case 3 => Some(W.Spell(W.Ip4Type))
    case 4 => Some(W.Spell(W.RedirType))
    case 5 => Some(W.Spell(W.DelegType))
    case 6 => Some(W.Spell(W.NamesetType))
    case 7 => Some(W.Spell(W.CertType))
    case 8 => Some(W.Spell(W.SrvType))
    case 9 => Some(W.Spell(W.RegrType))
    case 10 => Some(W.Spell(W.RegtType))
    case 11 => Some(W.Spell(W.InfraType))
    case 12 => Some(W.Spell(W.ExtraType))
    case 13 => Some(W.Spell(W.NextType))
    case 14 => Some(W.Spell(W.ScionType))
    case _ => None
  }

  predicate Printable(o: Obj) {
    TypeWord(o.kind).Some?
  }

  /** The type, padded so that all values start in the same column, and the value. */
  function ObjectText(o: Obj): string
    requires Printable(o)
  {
    var word := TypeWord(o.kind).value;
    word + INDENT12[|word|..] + o.value
  }

  /** Lines with a separator between them. */
  function Join(lines: seq<string>, sep: string): string {
    if |lines| == 0 then ""
    else if |lines| == 1 then lines[0]
    else Join(lines[..|lines| - 1], sep) + sep + lines[|lines| - 1]
  }

  function ObjectLines(os: seq<Obj>, indent: string): (lines: seq<string>)
    requires forall i :: 0 <= i < |os| ==> Printable(os[i])
    ensures |lines| == |os|
  {
    seq(|os|, i requires 0 <= i < |os| => indent + ObjectText(os[i]))
  }

  /** One object of an unknown type makes the text of all of them empty. */
  function ObjectsText(os: seq<Obj>, indent: string): string {
    if forall i :: 0 <= i < |os| ==> Printable(os[i]) then Join(ObjectLines(os, indent), "\n") else ""
  }

  method EncodeObjects(os: seq<Obj>, indent: string) returns (text: string)
    ensures text == ObjectsText(os, indent)
  {
    hide ObjectText, Join, Printable, TypeWord;
    var objects: seq<string> := [];
    for i := 0 to |os|
      invariant forall j :: 0 <= j < i ==> Printable(os[j])
      invariant objects == ObjectLines(os[..i], indent)
    {
      if !Printable(os[i]) {
        return "";
      }
      objects := objects + [indent + ObjectText(os[i])];
    }
    assert os[..|os|] == os;
    text := Join(objects, "\n");
  }

  /** A word, a space, and what follows. */
  function Then(word: string, rest: string): string {
    word + (" " + rest)
  }

  /** A single signature stays on the line. */
  function SigsText(sigs: seq<string>, indent: string, close: string): string {
    if |sigs| == 1 then " " + Then("(", Then(sigs[0], ")\n"))
    else
      var margin := indent + INDENT4;
      " " + Then("(", "\n" + (margin + (Join(sigs, "\n" + margin) + ("\n" + (indent + close)))))
  }

  /** From the opening bracket on; more than one object takes lines of their own. */
  function BodyText(a: Assertion, indent: string): string {
    "[" +
    ((if |a.content| > 1 then "\n" + (ObjectsText(a.content, indent + INDENT4) + ("\n" + (indent + "]")))
      else " " + (ObjectsText(a.content, "") + " ]")) +
     if a.sigs == None then "" else SigsText(a.sigs.value, indent, ")\n"))
  }

  /** `full` adds zone and context. */
  function AssertionText(a: Assertion, indent: string, full: bool): string {
    indent + Then(":A:", Then(a.name,
      if full then Then(a.zone, Then(a.context, BodyText(a, indent))) else BodyText(a, indent)))
  }

  function ContentText(content: seq<Assertion>): string {
    if content == [] then ""
    else ContentText(content[..|content| - 1]) + (AssertionText(content[|content| - 1], INDENT4, false) + "\n")
  }

  function RangeWord(bound: string, open: string): string {
    if bound == "" then open else bound
  }

  function Header(s: Shard): string {
    Then(":S:", Then(s.zone, Then(s.context, Then(RangeWord(s.from, "<"), Then(RangeWord(s.to, ">"), "[\n")))))
  }

  /** The closing bracket of a zone or shard, and the signatures. */
  function ClosingText(sigs: Option<seq<string>>): string {
    "]" + if sigs == None then "\n" else SigsText(sigs.value, "", "  )\n")
  }

  function SignedText(s: Shard, sigs: Option<seq<string>>): string {
    Header(s) + ContentText(s.content) + ClosingText(sigs)
  }

  /** A shard that is not signed yet. */
  function Text(s: Shard): string {
    SignedText(s, None)
  }

  method EncodeShard(s: Shard, sigs: Option<seq<string>>) returns (text: string)
    ensures text == SignedText(s, sigs)
  {
    hide AssertionText, ContentText, ClosingText;
    var rangeFrom, rangeTo := s.from, s.to;
    if rangeFrom == "" {
      rangeFrom := "<";
    }
    if rangeTo == "" {
      rangeTo := ">";
    }
    var shard := Then(":S:", Then(s.zone, Then(s.context, Then(rangeFrom, Then(rangeTo, "[\n")))));
    NothingPrinted();
    assert shard == Header(s) + ContentText(s.content[..0]);
    hide Header, Then, RangeWord;
    for i := 0 to |s.content|
      invariant shard == Header(s) + ContentText(s.content[..i])
    {
      ContentGrows(s.content, i);
      shard := shard + (AssertionText(s.content[i], INDENT4, false) + "\n");
    }
    assert s.content[..|s.content|] == s.content;
    text := shard + ClosingText(sigs);
  }

  lemma NothingPrinted()
    ensures ContentText([]) == ""
  {
  }

  lemma ContentGrows(content: seq<Assertion>, i: nat)
    requires i < |content|
    ensures ContentText(content[..i + 1])
         == ContentText(content[..i]) + (AssertionText(content[i], INDENT4, false) + "\n")
  {
    assert content[..i + 1][..i] == content[..i];
  }

  lemma {:induction false} ContentJoins(c: seq<Assertion>, d: seq<Assertion>)
    ensures |ContentText(c + d)| == |ContentText(c)| + |ContentText(d)|
  {
    hide AssertionText;
    if d == [] {
      assert c + d == c;
    } else {
      var init := d[..|d| - 1];
      assert (c + d)[..|c + d| - 1] == c + init;
      ContentJoins(c, init);
    }
  }
}
