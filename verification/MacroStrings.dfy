/** What # makes of an argument (pkg/cpp/expand.go, stringify): its words with one blank between every two. */
module MacroStrings {
  import opened Values
  import opened Macros
  import opened MacroArguments

  // --- Escapes ---

  predicate NeedsEscape(c: char) {
    c == '"' || c == '\\'
  }

  function EscapedChar(c: char): string {
    if NeedsEscape(c) then ['\\', c] else [c]
  }

  /** A backslash before exactly the quotes and backslashes. */
  lemma {:induction false} EscapesEach(a: string, c: char, b: string)
    ensures Escape("") == "" && Escape(a + [c] + b) == Escape(a) + EscapedChar(c) + Escape(b)
    decreases |b|
  {
    var text := a + [c] + b;
    if b == "" {
      assert text[..|text| - 1] == a;
    } else {
      var n := |b| - 1;
      EscapesEach(a, c, b[..n]);
      assert text[..|text| - 1] == a + [c] + b[..n];
      Regroup(Escape(a) + EscapedChar(c), Escape(b[..n]), EscapedChar(b[n]));
    }
  }

  /** Reading an escaped text: a character after a backslash stands for itself. */
  function Unescape(s: string): string {
    if |s| <= 1 then s
    else if s[0] == '\\' then [s[1]] + Unescape(s[2..])
    else [s[0]] + Unescape(s[1..])
  }

  /** No quote ends the literal. */
  predicate IsQuotable(s: string) {
    if s == "" then true
    else if s[0] == '\\' then |s| > 1 && IsQuotable(s[2..])
    else s[0] != '"' && IsQuotable(s[1..])
  }

  lemma {:induction false} EscapeIsRead(text: string)
    ensures Unescape(Escape(text)) == text && IsQuotable(Escape(text))
  {
    if text != "" {
      var c, rest := text[0], text[1..];
      EscapesEach("", c, rest);
      assert "" + [c] + rest == text;
      EscapeIsRead(rest);
      var tail := Escape(rest);
      if NeedsEscape(c) {
        assert Escape(text) == ['\\', c] + tail && (['\\', c] + tail)[2..] == tail;
      } else {
        assert Escape(text) == [c] + tail && ([c] + tail)[1..] == tail;
      }
    }
  }

  lemma EscapeKeepsEnd(text: string)
    requires text != ""
    ensures Escape(text) != "" && Escape(text)[|Escape(text)| - 1] == text[|text| - 1]
  {
  }

  // --- Words ---

  predicate IsSpace(tok: Token) {
    tok.kind.Whitespace? || tok.kind.Newline?
  }

  predicate AllSpace(tokens: seq<Token>) {
    forall tok | tok in tokens :: IsSpace(tok)
  }

  predicate NoSpace(tokens: seq<Token>) {
    forall tok | tok in tokens :: !IsSpace(tok)
  }

  /** Tokens without white space between them, and the white space after them. */
  datatype Word = Word(tokens: seq<Token>, gap: seq<Token>)

  /** Two words have white space between them. */
  ghost predicate AreWords(words: seq<Word>) {
    forall i: nat :: i < |words| ==> IsWordAt(words, i)
  }

  ghost predicate IsWordAt(words: seq<Word>, i: nat)
    requires i < |words|
  {
    words[i].tokens != [] && NoSpace(words[i].tokens) && AllSpace(words[i].gap) && (i < |words| - 1 ==> words[i].gap != [])
  }

  function Flat(words: seq<Word>): seq<Token> {
    if words == [] then [] else words[0].tokens + (words[0].gap + Flat(words[1..]))
  }

  /** String literals and character constants are escaped. */
  function Spelling(tok: Token): string {
    if tok.kind.Str? || tok.kind.CharConst? then Escape(tok.text) else tok.text
  }

  function Spellings(tokens: seq<Token>): string {
    if tokens == [] then "" else Spelling(tokens[0]) + Spellings(tokens[1..])
  }

  function Text(words: seq<Word>): string {
    if words == [] then ""
    else if |words| == 1 then Spellings(words[0].tokens)
    else Spellings(words[0].tokens) + (" " + Text(words[1..]))
  }

  /** The spelling of a token does not end in a blank. */
  predicate EndsWell(tok: Token) {
    tok.text != "" && tok.text[|tok.text| - 1] != ' '
  }

  /** Every list of tokens is such a list of words, after some white space. */
  lemma {:induction false} HasWords(tokens: seq<Token>) returns (lead: seq<Token>, words: seq<Word>)
    ensures tokens == lead + Flat(words) && AllSpace(lead) && AreWords(words)
  {
    if tokens == [] {
      return [], [];
    }
    var tok := tokens[0];
    lead, words := HasWords(tokens[1..]);
    assert tokens == [tok] + (lead + Flat(words));
    if IsSpace(tok) {
      Regroup([tok], lead, Flat(words));
      lead := [tok] + lead;
    } else if lead == [] && words != [] {
      words := Longer(tok, words);
      lead := [];
    } else {
      words := Before(tok, lead, words);
      lead := [];
    }
  }

  lemma Longer(tok: Token, words: seq<Word>) returns (longer: seq<Word>)
    requires !IsSpace(tok) && words != [] && AreWords(words)
    ensures AreWords(longer) && [] + Flat(longer) == [tok] + ([] + Flat(words))
  {
    var w := words[0];
    assert IsWordAt(words, 0);
    longer := [Word([tok] + w.tokens, w.gap)] + words[1..];
    forall i: nat | i < |longer|
      ensures IsWordAt(longer, i)
    {
      assert IsWordAt(words, i);
    }
    Regroup([tok], w.tokens, w.gap + Flat(words[1..]));
    assert longer[1..] == words[1..];
  }

  lemma Before(tok: Token, lead: seq<Token>, words: seq<Word>) returns (more: seq<Word>)
    requires !IsSpace(tok) && AllSpace(lead) && (lead != [] || words == []) && AreWords(words)
    ensures AreWords(more) && [] + Flat(more) == [tok] + (lead + Flat(words))
  {
    more := [Word([tok], lead)] + words;
    forall i: nat | i < |more|
      ensures IsWordAt(more, i)
    {
      if i > 0 { assert IsWordAt(words, i - 1); }
    }
    assert more[1..] == words;
  }

  lemma {:induction false} SpellsGap(tokens: seq<Token>, i: nat, k: nat, sb: string, lastWasSpace: bool)
    requires i <= k <= |tokens| && AllSpace(tokens[i..k])
    ensures Spell(tokens, i, sb, lastWasSpace)
         == Spell(tokens, k, if i == k || lastWasSpace then sb else sb + " ", lastWasSpace || i < k)
    decreases k - i
  {
    if i < k {
      assert tokens[i] == tokens[i..k][0] && tokens[i] in tokens[i..k];
      assert tokens[i + 1..k] == tokens[i..k][1..];
      SpellsGap(tokens, i + 1, k, if lastWasSpace then sb else sb + " ", true);
    }
  }

  lemma {:induction false} SpellsWord(tokens: seq<Token>, i: nat, k: nat, sb: string, lastWasSpace: bool)
    requires i <= k <= |tokens| && NoSpace(tokens[i..k])
    ensures Spell(tokens, i, sb, lastWasSpace) == Spell(tokens, k, sb + Spellings(tokens[i..k]), lastWasSpace && i == k)
    decreases k - i
  {
    if i < k {
      assert tokens[i] == tokens[i..k][0] && tokens[i] in tokens[i..k];
      assert tokens[i + 1..k] == tokens[i..k][1..];
      SpellsWord(tokens, i + 1, k, sb + Spelling(tokens[i]), false);
      Regroup(sb, Spelling(tokens[i]), Spellings(tokens[i + 1..k]));
    } else {
      assert sb + "" == sb;
    }
  }

  lemma RestAreWords(words: seq<Word>)
    requires words != [] && AreWords(words)
    ensures AreWords(words[1..])
  {
    var rest := words[1..];
    forall j: nat | j < |rest|
      ensures IsWordAt(rest, j)
    {
      assert IsWordAt(words, j + 1);
    }
  }

  lemma SpellsFirst(tokens: seq<Token>, i: nat, sb: string, lastWasSpace: bool, words: seq<Word>) returns (n: nat)
    requires i <= |tokens| && words != [] && AreWords(words) && tokens[i..] == Flat(words)
    ensures n <= |tokens| && tokens[n..] == Flat(words[1..])
    ensures Spell(tokens, i, sb, lastWasSpace)
         == Spell(tokens, n, sb + Spellings(words[0].tokens) + if words[0].gap == [] then "" else " ", words[0].gap != [])
  {
    var w := words[0];
    var k := i + |w.tokens|;
    n := k + |w.gap|;
    assert IsWordAt(words, 0);
    FirstWord(tokens, i, words);
    var said := sb + Spellings(w.tokens);
    assert said + "" == said;
    SpellsWord(tokens, i, k, sb, lastWasSpace);
    SpellsGap(tokens, k, n, said, false);
  }

  /** Words and gaps, from position i on. */
  lemma {:induction false} SpellsWords(tokens: seq<Token>, i: nat, sb: string, lastWasSpace: bool, words: seq<Word>)
    requires i <= |tokens| && words != [] && AreWords(words) && tokens[i..] == Flat(words)
    ensures Spell(tokens, i, sb, lastWasSpace) == sb + Text(words) + if words[|words| - 1].gap == [] then "" else " "
    decreases |words|
  {
    var rest, first := words[1..], Spellings(words[0].tokens);
    var n := SpellsFirst(tokens, i, sb, lastWasSpace, words);
    if rest == [] {
      assert |tokens[n..]| == 0;
    } else {
      assert IsWordAt(words, 0);
      RestAreWords(words);
      SpellsWords(tokens, n, sb + first + " ", true, rest);
      WordsJoin(sb, first, Text(rest));
      assert Text(words) == first + (" " + Text(rest));
    }
  }

  lemma WordsJoin(sb: string, first: string, text: string)
    ensures sb + first + " " + text == sb + (first + (" " + text))
  {
  }

  lemma FirstWord(tokens: seq<Token>, i: nat, words: seq<Word>)
    requires i <= |tokens| && words != [] && tokens[i..] == Flat(words)
    ensures var k := i + |words[0].tokens|;
      var n := k + |words[0].gap|;
      n <= |tokens| && tokens[i..k] == words[0].tokens && tokens[k..n] == words[0].gap && tokens[n..] == Flat(words[1..])
  {
    var a, b, c := words[0].tokens, words[0].gap, Flat(words[1..]);
    var all := a + (b + c);
    assert tokens[i..] == all;
    var k, n := |a|, |a| + |b|;
    assert all[..k] == a && all[k..n] == b && all[n..] == c;
    assert tokens[i..i + k] == all[..k] && tokens[i + k..i + n] == all[k..n] && tokens[i + n..] == all[n..];
  }

  lemma {:induction false} SpellingsEnd(tokens: seq<Token>)
    requires tokens != [] && forall tok | tok in tokens :: EndsWell(tok)
    ensures Spellings(tokens) != "" && Spellings(tokens)[|Spellings(tokens)| - 1] != ' '
  {
    var tok := tokens[0];
    assert EndsWell(tok);
    EscapeKeepsEnd(tok.text);
    if |tokens| > 1 {
      SpellingsEnd(tokens[1..]);
    }
  }

  lemma {:induction false} TextEnds(words: seq<Word>)
    requires words != [] && AreWords(words) && forall tok | tok in Flat(words) && !IsSpace(tok) :: EndsWell(tok)
    ensures Text(words) != "" && Text(words)[|Text(words)| - 1] != ' '
  {
    assert IsWordAt(words, 0);
    if |words| == 1 {
      SpellingsEnd(words[0].tokens);
    } else {
      RestAreWords(words);
      TextEnds(words[1..]);
    }
  }

  /** The string has the words with a blank between every two, and nothing around them. */
  lemma StringifySpells(tokens: seq<Token>, lead: seq<Token>, words: seq<Word>)
    requires tokens == lead + Flat(words) && AllSpace(lead) && AreWords(words)
    requires forall tok | tok in tokens && !IsSpace(tok) :: EndsWell(tok)
    ensures Stringify(tokens) == Token(Str, "\"" + Text(words) + "\"")
  {
    var n := |lead|;
    assert tokens[0..n] == lead && tokens[n..] == Flat(words);
    SpellsGap(tokens, 0, n, "\"", true);
    if words == [] {
      assert n == |tokens|;
      assert "\"" + "" == "\"";
    } else {
      SpellsWords(tokens, n, "\"", true, words);
      TextEnds(words);
      DropsBlank("\"" + Text(words), words[|words| - 1].gap != []);
    }
  }

  lemma DropsBlank(text: string, blank: bool)
    requires text != "" && text[|text| - 1] != ' '
    ensures var s := text + if blank then " " else "";
      text == if s[|s| - 1] == ' ' then s[..|s| - 1] else s
  {
  }
}
