/** Splitting the text of a zone file into lines and words, and dropping comments; and when a text spells given tokens.
 */
module ZoneSplit {
  import opened Names
  import opened ZoneWords
  import opened ZoneCodec
  import opened ZoneRoundTrip
  import T = ShardText

  function Flush(word: string): seq<string> {
    if word == "" then [] else [word]
  }

  /** One pass: `word` has been read so far, and `comment` says that the rest of the line does not count. */
  function Scan(text: string, word: string, comment: bool): seq<string> {
    if text == "" then Flush(word)
    else if text[0] == '\n' then Flush(word) + Scan(text[1..], "", false)
    else if comment then Scan(text[1..], word, true)
    else if text[0] == ';' then Flush(word) + Scan(text[1..], "", true)
    else if White(text[0]) then Flush(word) + Scan(text[1..], "", false)
    else Scan(text[1..], word + [text[0]], false)
  }

  function SplitWords(text: string): seq<string> {
    Scan(text, "", false)
  }

  method RemoveComments(text: string) returns (words: seq<string>)
    ensures words == SplitWords(text)
  {
    words := [];
    var word, comment := "", false;
    for i := 0 to |text|
      invariant words + Scan(text[i..], word, comment) == SplitWords(text)
    {
      assert text[i..][1..] == text[i + 1..];
      if text[i] == '\n' {
        words, word, comment := words + Flush(word), "", false;
      } else if !comment {
        if text[i] == ';' {
          words, word, comment := words + Flush(word), "", true;
        } else if White(text[i]) {
          words, word := words + Flush(word), "";
        } else {
          word := word + [text[i]];
        }
      }
    }
    words := words + Flush(word);
  }

  // ---- texts that spell tokens ----

  predicate NoComment(text: string) {
    forall i :: 0 <= i < |text| ==> text[i] != ';'
  }

  predicate AllWhite(text: string) {
    forall i :: 0 <= i < |text| ==> White(text[i])
  }

  /** No word runs from the one text into the other. */
  predicate Break(a: string, b: string) {
    a == "" || b == "" || White(a[|a| - 1]) || White(b[0])
  }

  lemma {:induction false} ScanJoin(a: string, b: string, word: string)
    requires NoComment(a) && if a == "" then word == "" || b == "" || White(b[0]) else Break(a, b)
    ensures Scan(a + b, word, false) == Scan(a, word, false) + Scan(b, "", false)
    decreases a
  {
    if a == "" {
      assert a + b == b;
      ScanStarts(b, word);
    } else {
      assert (a + b)[1..] == a[1..] + b && (a + b)[0] == a[0];
      ScanJoin(a[1..], b, if White(a[0]) then "" else word + [a[0]]);
      hide White, Flush;
      Associate(Flush(word), Scan(a[1..], "", false), Scan(b, "", false));
    }
  }

  lemma ScanStarts(b: string, word: string)
    requires word == "" || b == "" || White(b[0])
    ensures Scan(b, word, false) == Flush(word) + Scan(b, "", false)
  {
  }

  lemma {:induction false} ScanWord(w: string, word: string)
    requires w == "" || Whole(w)
    ensures Scan(w, word, false) == Flush(word + w)
    decreases w
  {
    if w == "" {
      assert word + w == word;
    } else {
      assert word + w == word + [w[0]] + w[1..];
      ScanWord(w[1..], word + [w[0]]);
    }
  }

  lemma {:induction false} ScanWhite(text: string)
    requires AllWhite(text)
    ensures Scan(text, "", false) == [] && NoComment(text)
    decreases text
  {
    if text != "" { ScanWhite(text[1..]); }
  }

  ghost predicate Spells(text: string, ts: Tokens) {
    NoComment(text) && SplitWords(text) == Words(ts)
  }

  lemma {:induction false} WordsJoin(a: Tokens, b: Tokens)
    ensures Words(a + b) == Words(a) + Words(b)
  {
    hide Word;
    if a == [] {
      assert a + b == b;
    } else {
      assert (a + b)[1..] == a[1..] + b;
      WordsJoin(a[1..], b);
    }
  }

  lemma JoinSpells(a: string, ts: Tokens, b: string, us: Tokens)
    requires Spells(a, ts) && Spells(b, us) && Break(a, b)
    ensures Spells(a + b, ts + us)
  {
    hide Words;
    ScanJoin(a, b, "");
    WordsJoin(ts, us);
  }

  lemma WhiteSpells(text: string)
    requires AllWhite(text)
    ensures Spells(text, [])
  {
    ScanWhite(text);
  }

  /** White space in front. */
  lemma IndentSpells(white: string, text: string, ts: Tokens)
    requires AllWhite(white) && Spells(text, ts)
    ensures Spells(white + text, ts)
  {
    WhiteSpells(white);
    hide Spells;
    JoinSpells(white, [], text, ts);
    assert [] + ts == ts;
  }

  lemma TokenSpells(t: Token)
    requires Whole(Word(t))
    ensures Spells(Word(t), [t])
  {
    hide Word;
    ScanWord(Word(t), "");
    assert "" + Word(t) == Word(t);
    assert [t][1..] == [] && Words([t]) == [Word(t)];
  }

  /** A token in front of white space and what follows. */
  lemma FirstSpells(t: Token, rest: string, ts: Tokens)
    requires Whole(Word(t)) && Spells(rest, ts) && (rest == "" || White(rest[0]))
    ensures Spells(Word(t) + rest, [t] + ts)
  {
    TokenSpells(t);
    hide Spells, Word;
    JoinSpells(Word(t), [t], rest, ts);
  }

  lemma ThenSpells(t: Token, rest: string, ts: Tokens)
    requires Whole(Word(t)) && Spells(rest, ts)
    ensures Spells(T.Then(Word(t), rest), [t] + ts)
  {
    hide Spells, Word;
    IndentSpells(" ", rest, ts);
    FirstSpells(t, " " + rest, ts);
  }

  /** One more line behind a separator. */
  lemma LineSpells(lines: seq<string>, line: string, sep: string, ts: Tokens, us: Tokens)
    requires Spells(T.Join(lines, sep), ts) && Spells(line, us)
    requires AllWhite(sep) && sep != "" && (lines == [] ==> ts == [])
    ensures Spells(T.Join(lines + [line], sep), ts + us)
  {
    hide Spells;
    if lines == [] {
      assert [] + us == us;
    } else {
      assert (lines + [line])[..|lines|] == lines;
      IndentSpells(sep, line, us);
      JoinSpells(T.Join(lines, sep), ts, sep + line, us);
      assert T.Join(lines, sep) + (sep + line) == T.Join(lines, sep) + sep + line;
    }
  }
}
