/** What a call of a function-like macro becomes (pkg/cpp/expand.go, expandFunctionMacro, stringify and handleTokenPasting),
    position by position. */
module MacroCalls {
  import opened Values
  import opened Macros
  import opened MacroProof
  import opened MacroArguments

  // --- Replacing parameters ---

  predicate IsParam(m: Macro, k: nat, tok: Token)
    requires m.Function?
  {
    k < |m.params| && tok == Token(Identifier, m.params[k])
  }

  predicate IsHash(tok: Token) {
    tok.Is("#") || tok.kind.Hash?
  }

  ghost predicate NoHash(tokens: seq<Token>) {
    forall tok | tok in tokens :: !IsHash(tok)
  }

  /** Distinct parameters, none called __VA_ARGS__, and an argument for each. */
  ghost predicate IsCall(m: Macro, args: seq<seq<Token>>) {
    m.Function? && Distinct(m.params) && CountOk(m, |args|) && (m.isVariadic ==> "__VA_ARGS__" !in m.params)
  }

  /** What a parameter is replaced by: its argument as it is next to ##, and otherwise what that expands to. */
  ghost predicate Replaces(t: Table, hidden: set<string>, pasted: bool, arg: seq<Token>, piece: seq<Token>) {
    if pasted then piece == arg else ExpandFrom(t, hidden, arg, 0, []) == Ok(piece)
  }

  /** What the token at position i of the replacement list becomes. */
  ghost predicate Becomes(t: Table, hidden: set<string>, m: Macro, args: seq<seq<Token>>, i: nat, piece: seq<Token>)
    requires IsCall(m, args) && i < |m.replacement|
  {
    var tok, pasted := m.replacement[i], NextToPaste(m.replacement, i);
    && (forall k: nat | IsParam(m, k, tok) :: Replaces(t, hidden, pasted, args[k], piece))
    && (m.isVariadic && tok == Token(Identifier, "__VA_ARGS__") ==>
          Replaces(t, hidden, pasted, if |args| == |m.params| then [] else Separated(Spaced(args[|m.params|..])), piece))
    && ((forall k: nat :: !IsParam(m, k, tok)) && !(m.isVariadic && tok == Token(Identifier, "__VA_ARGS__")) ==> piece == [tok])
  }

  /** The tokens from position i on, none of which is a #, become the pieces. */
  ghost predicate BecomeAll(t: Table, hidden: set<string>, m: Macro, args: seq<seq<Token>>, i: nat, pieces: seq<seq<Token>>)
    requires IsCall(m, args) && i + |pieces| <= |m.replacement|
  {
    forall j: nat | j < |pieces| :: BecomesAt(t, hidden, m, args, i, pieces, j)
  }

  ghost predicate BecomesAt(t: Table, hidden: set<string>, m: Macro, args: seq<seq<Token>>, i: nat, pieces: seq<seq<Token>>, j: nat)
    requires IsCall(m, args) && i + |pieces| <= |m.replacement| && j < |pieces|
  {
    !IsHash(m.replacement[i + j]) && Becomes(t, hidden, m, args, i + j, pieces[j])
  }

  function Concat(pieces: seq<seq<Token>>): seq<Token> {
    if pieces == [] then [] else pieces[0] + Concat(pieces[1..])
  }

  lemma NothingToString(params: ParamMap, replacement: seq<Token>, i: nat)
    requires i < |replacement| && !IsHash(replacement[i])
    ensures StringifiedParam(params, replacement, i) == None
  {
  }

  lemma BindsRest(m: Macro, args: seq<seq<Token>>)
    requires IsCall(m, args) && m.isVariadic
    ensures "__VA_ARGS__" in Bind(m, args)
    ensures Bind(m, args)["__VA_ARGS__"] == if |args| == |m.params| then [] else Separated(Spaced(args[|m.params|..]))
  {
    if |args| > |m.params| {
      JoinIs(args[|m.params|..]);
    }
  }

  lemma SubstitutesOne(t: Table, hidden: set<string>, m: Macro, args: seq<seq<Token>>, i: nat, result: seq<Token>, piece: seq<Token>)
    requires IsCall(m, args) && i < |m.replacement| && !IsHash(m.replacement[i]) && Becomes(t, hidden, m, args, i, piece)
    ensures Substitute(t, hidden, Bind(m, args), m.replacement, i, result)
         == Substitute(t, hidden, Bind(m, args), m.replacement, i + 1, result + piece)
  {
    var tok, params := m.replacement[i], Bind(m, args);
    NothingToString(params, m.replacement, i);
    BindsArguments(m, args);
    if tok.kind.Identifier? && tok.text in m.params {
      var k: nat :| k < |m.params| && m.params[k] == tok.text;
      assert IsParam(m, k, tok);
      assert Replaces(t, hidden, NextToPaste(m.replacement, i), args[k], piece);
    } else if m.isVariadic && tok == Token(Identifier, "__VA_ARGS__") {
      BindsRest(m, args);
    } else {
      assert forall k: nat :: !IsParam(m, k, tok);
    }
  }

  lemma {:induction false} SubstitutesRange(t: Table, hidden: set<string>, m: Macro, args: seq<seq<Token>>, i: nat, result: seq<Token>,
                                            pieces: seq<seq<Token>>)
    requires IsCall(m, args) && i + |pieces| <= |m.replacement| && BecomeAll(t, hidden, m, args, i, pieces)
    ensures Substitute(t, hidden, Bind(m, args), m.replacement, i, result)
         == Substitute(t, hidden, Bind(m, args), m.replacement, i + |pieces|, result + Concat(pieces))
    decreases |pieces|
  {
    if pieces != [] {
      assert BecomesAt(t, hidden, m, args, i, pieces, 0);
      SubstitutesOne(t, hidden, m, args, i, result, pieces[0]);
      var next, rest := i + 1, pieces[1..];
      forall j: nat | j < |rest|
        ensures BecomesAt(t, hidden, m, args, next, rest, j)
      {
        assert BecomesAt(t, hidden, m, args, i, pieces, j + 1);
      }
      SubstitutesRange(t, hidden, m, args, next, result + pieces[0], rest);
      Regroup(result, pieces[0], Concat(rest));
    } else {
      assert result + [] == result;
    }
  }

  /** Without #, the call becomes the pieces, in which ## is then carried out, and which are scanned again. */
  lemma CallReplaces(t: Table, hidden: set<string>, m: Macro, args: seq<seq<Token>>, pieces: seq<seq<Token>>)
    requires IsCall(m, args) && |pieces| == |m.replacement| && BecomeAll(t, hidden, m, args, 0, pieces)
    ensures ExpandCall(t, hidden, m, args) == ExpandPasted(t, hidden, Concat(pieces))
  {
    SubstitutesRange(t, hidden, m, args, 0, [], pieces);
    assert [] + Concat(pieces) == Concat(pieces);
  }

  /** A call fails with the first argument that does not expand. */
  lemma CallFails(t: Table, hidden: set<string>, m: Macro, args: seq<seq<Token>>, pieces: seq<seq<Token>>, k: nat, e: Error)
    requires IsCall(m, args) && |pieces| < |m.replacement| && BecomeAll(t, hidden, m, args, 0, pieces)
    requires IsParam(m, k, m.replacement[|pieces|]) && !NextToPaste(m.replacement, |pieces|)
    requires ExpandFrom(t, hidden, args[k], 0, []) == Err(e)
    ensures ExpandCall(t, hidden, m, args) == Err(e)
  {
    SubstitutesRange(t, hidden, m, args, 0, [], pieces);
    NothingToString(Bind(m, args), m.replacement, |pieces|);
    BindsArguments(m, args);
  }

  ghost predicate NoPlaceholders(tokens: seq<Token>) {
    forall tok | tok in tokens :: !tok.kind.Placeholder?
  }

  lemma {:induction false} NothingDropped(tokens: seq<Token>)
    requires NoPlaceholders(tokens)
    ensures WithoutPlaceholders(tokens) == tokens
    decreases |tokens|
  {
    if tokens != [] {
      var n := |tokens| - 1;
      assert tokens == tokens[..n] + [tokens[n]];
      assert tokens[n] in tokens;
      NothingDropped(tokens[..n]);
    }
  }

  /** In the simplest case, each parameter is replaced by its argument, and the result is scanned again. */
  lemma PlainCall(t: Table, hidden: set<string>, m: Macro, args: seq<seq<Token>>, pieces: seq<seq<Token>>)
    requires IsCall(m, args) && !m.isVariadic && NoHash(m.replacement) && PasteFree(m.replacement)
    requires forall a | a in args :: NoMacroNames(t, a)
    requires |pieces| == |m.replacement| && PasteFree(Concat(pieces)) && NoPlaceholders(Concat(pieces))
    requires forall i: nat, k: nat | i < |pieces| && IsParam(m, k, m.replacement[i]) :: pieces[i] == args[k]
    requires forall i | 0 <= i < |pieces| && (forall k: nat :: !IsParam(m, k, m.replacement[i])) :: pieces[i] == [m.replacement[i]]
    ensures ExpandCall(t, hidden, m, args) == ExpandFrom(t, hidden, Concat(pieces), 0, [])
  {
    forall i: nat | i < |m.replacement|
      ensures BecomesAt(t, hidden, m, args, 0, pieces, i)
    {
      assert m.replacement[i] in m.replacement;
      NotPasted(m.replacement, i);
      forall k: nat | IsParam(m, k, m.replacement[i])
        ensures ExpandFrom(t, hidden, args[k], 0, []) == Ok(pieces[i])
      {
        assert args[k] in args;
        NothingToExpand(t, hidden, args[k], 0, []);
        assert [] + args[k][0..] == args[k];
      }
    }
    CallReplaces(t, hidden, m, args, pieces);
    PastedIs(t, Concat(pieces));
    NothingDropped(Concat(pieces));
  }

  lemma NotPasted(replacement: seq<Token>, i: nat)
    requires PasteFree(replacement) && i < |replacement|
    ensures !NextToPaste(replacement, i)
  {
    assert i > 0 ==> replacement[i - 1] in replacement;
    assert i + 1 < |replacement| ==> replacement[i + 1] in replacement;
  }

  // --- Calls among other tokens ---

  /** The name of a function-like macro, with a parenthesis after it and some white space, is called with what is between the
      commas up to the closing parenthesis, and the expansion goes on behind that. */
  lemma CallAt(t: Table, hidden: set<string>, tokens: seq<Token>, i: nat, paren: nat, end: nat, pieces: seq<seq<Token>>,
               args: seq<seq<Token>>, result: seq<Token>)
    requires i < paren < |tokens| && IsMacroName(t, tokens[i]) && tokens[i].text !in hidden && t.macros[tokens[i].text].Function?
    requires AllWhite(tokens[i + 1..paren]) && tokens[paren].Is("(")
    requires ArePieces(tokens, paren + 1, end, pieces) && AreArguments(pieces, args) && CountOk(t.macros[tokens[i].text], |args|)
    ensures ExpandFrom(t, hidden, tokens, i, result) ==
      Resume(t, hidden, tokens, end + 1, result, ExpandCall(t, hidden + {tokens[i].text}, t.macros[tokens[i].text], args))
  {
    SkipsTo(tokens, i + 1, paren);
    Reads(t.macros[tokens[i].text], tokens, paren + 1, end, pieces, args);
    CallResumes(t, hidden, tokens, i, result, paren, args, end);
  }

  lemma CallResumes(t: Table, hidden: set<string>, tokens: seq<Token>, i: nat, result: seq<Token>, paren: nat, args: seq<seq<Token>>, end: nat)
    requires i < |tokens| && IsMacroName(t, tokens[i]) && tokens[i].text !in hidden && t.macros[tokens[i].text].Function?
    requires CallParen(tokens, i + 1) == Some(paren)
    requires ParseArguments(t.macros[tokens[i].text], tokens, paren + 1, 1, [], []) == Ok((args, end))
    ensures ExpandFrom(t, hidden, tokens, i, result) ==
      Resume(t, hidden, tokens, end + 1, result, ExpandCall(t, hidden + {tokens[i].text}, t.macros[tokens[i].text], args))
  {
    HidingShrinks(t, hidden, tokens[i].text);
  }

  lemma Reads(m: Macro, tokens: seq<Token>, start: nat, end: nat, pieces: seq<seq<Token>>, args: seq<seq<Token>>)
    requires m.Function? && start <= |tokens| && ArePieces(tokens, start, end, pieces) && AreArguments(pieces, args) && CountOk(m, |args|)
    ensures ParseArguments(m, tokens, start, 1, [], []) == Ok((args, end))
  {
    ArgumentsIff(m, tokens, start, args, end);
  }

  /** Without a parenthesis, it stays. */
  lemma NotCalledAt(t: Table, hidden: set<string>, tokens: seq<Token>, i: nat, next: nat, result: seq<Token>)
    requires i < next <= |tokens| && IsMacroName(t, tokens[i]) && t.macros[tokens[i].text].Function?
    requires AllWhite(tokens[i + 1..next]) && (next < |tokens| ==> !tokens[next].kind.Whitespace? && !tokens[next].Is("("))
    ensures ExpandFrom(t, hidden, tokens, i, result) == ExpandFrom(t, hidden, tokens, i + 1, result + [tokens[i]])
  {
    if tokens[i].text !in hidden { HidingShrinks(t, hidden, tokens[i].text); }
    SkipsTo(tokens, i + 1, next);
  }

  // --- # ---

  /** # and the parameter after it become the spelling of the argument. */
  lemma CallStringifies(t: Table, hidden: set<string>, m: Macro, args: seq<seq<Token>>, hash: nat, at: nat, k: nat,
                        before: seq<seq<Token>>, after: seq<seq<Token>>)
    requires IsCall(m, args) && hash < at < |m.replacement| && |before| == hash && |after| == |m.replacement| - at - 1
    requires IsHash(m.replacement[hash]) && AllWhite(m.replacement[hash + 1..at]) && IsParam(m, k, m.replacement[at])
    requires BecomeAll(t, hidden, m, args, 0, before) && BecomeAll(t, hidden, m, args, at + 1, after)
    ensures ExpandCall(t, hidden, m, args) == ExpandPasted(t, hidden, Concat(before) + [Stringify(args[k])] + Concat(after))
  {
    SubstitutesRange(t, hidden, m, args, 0, [], before);
    assert [] + Concat(before) == Concat(before);
    SubstitutesString(t, hidden, m, args, hash, at, k, Concat(before));
    SubstitutesRange(t, hidden, m, args, at + 1, Concat(before) + [Stringify(args[k])], after);
    assert Substitute(t, hidden, Bind(m, args), m.replacement, 0, []) == Ok(Concat(before) + [Stringify(args[k])] + Concat(after));
  }

  lemma SubstitutesString(t: Table, hidden: set<string>, m: Macro, args: seq<seq<Token>>, hash: nat, at: nat, k: nat, result: seq<Token>)
    requires IsCall(m, args) && hash < at < |m.replacement|
    requires IsHash(m.replacement[hash]) && AllWhite(m.replacement[hash + 1..at]) && IsParam(m, k, m.replacement[at])
    ensures Substitute(t, hidden, Bind(m, args), m.replacement, hash, result)
         == Substitute(t, hidden, Bind(m, args), m.replacement, at + 1, result + [Stringify(args[k])])
  {
    BindsArguments(m, args);
    SkipsTo(m.replacement, hash + 1, at);
    assert StringifiedParam(Bind(m, args), m.replacement, hash) == Some(at);
  }

  // --- ## ---

  /** What becomes of two operands: their spellings are read as tokens again; a placeholder is nothing. */
  ghost predicate IsGlued(t: Table, left: Token, right: Token, glued: seq<Token>) {
    var tokens := t.retokenize(left.text + right.text);
    && (left.kind.Placeholder? ==> glued == [right])
    && (!left.kind.Placeholder? && right.kind.Placeholder? ==> glued == [left])
    && (!left.kind.Placeholder? && !right.kind.Placeholder? ==> glued == if tokens == [] then [Token(Placeholder, "")] else tokens)
  }

  lemma {:induction false} SkipShifts(a: seq<Token>, i: nat, b: seq<Token>, j: nat)
    requires i <= |a| && j <= |b| && a[i..] == b[j..]
    ensures SkipWhitespace(a, i) - i == SkipWhitespace(b, j) - j
    decreases |a| - i
  {
    assert |a| - i == |b| - j;
    if i < |a| {
      assert a[i] == a[i..][0] == b[j];
      assert a[i + 1..] == a[i..][1..] == b[j..][1..] == b[j + 1..];
      SkipShifts(a, i + 1, b, j + 1);
    }
  }

  /** Pasting depends on what has been read and what is left. */
  lemma {:induction false} PasteShifts(t: Table, a: seq<Token>, i: nat, b: seq<Token>, j: nat, result: seq<Token>)
    requires i <= |a| && j <= |b| && a[i..] == b[j..]
    ensures PasteFrom(t, a, i, result) == PasteFrom(t, b, j, result)
    decreases |a| - i
  {
    assert |a| - i == |b| - j;
    if i < |a| {
      assert a[i] == a[i..][0] == b[j];
      TailsAgree(a, i, b, j, 1);
      if !a[i].kind.HashHash? {
        PasteShifts(t, a, i + 1, b, j + 1, result + [a[i]]);
      } else if result != [] {
        SkipShifts(a, i + 1, b, j + 1);
        var n := SkipWhitespace(a, i + 1) - i;
        if i + n < |a| {
          assert a[i + n] == a[i..][n] == b[j..][n] == b[j + n];
          TailsAgree(a, i, b, j, n + 1);
          var left := DropWhitespace(result, 0, |result|);
          if left > 0 {
            PasteShifts(t, a, i + n + 1, b, j + n + 1, result[..left - 1] + Pasted(t, result[left - 1], a[i + n]));
          }
        }
      }
    }
  }

  lemma TailsAgree(a: seq<Token>, i: nat, b: seq<Token>, j: nat, n: nat)
    requires i <= |a| && j <= |b| && a[i..] == b[j..] && i + n <= |a|
    ensures j + n <= |b| && a[i + n..] == b[j + n..]
  {
    assert |a| - i == |b| - j;
    assert a[i + n..] == a[i..][n..] && b[j + n..] == b[j..][n..];
  }

  /** Nothing happens up to the first ##. */
  lemma {:induction false} PastesUpTo(t: Table, tokens: seq<Token>, n: nat)
    requires n <= |tokens| && PasteFree(tokens[..n])
    ensures PasteFrom(t, tokens, 0, []) == PasteFrom(t, tokens, n, tokens[..n])
    decreases n
  {
    if n > 0 {
      assert tokens[..n - 1] == tokens[..n][..n - 1] && tokens[n - 1] == tokens[..n][n - 1];
      PastesUpTo(t, tokens, n - 1);
      assert tokens[..n - 1] + [tokens[n - 1]] == tokens[..n];
    } else {
      assert tokens[..0] == [];
    }
  }

  /** The first ## takes its operands, with the white space around it, and leaves what they are glued to; then the next one. */
  lemma FirstPaste(t: Table, tokens: seq<Token>, left: nat, op: nat, right: nat, glued: seq<Token>)
    requires left < op < right < |tokens| && tokens[op].kind.HashHash? && PasteFree(tokens[..op])
    requires !tokens[left].kind.Whitespace? && AllWhite(tokens[left + 1..op])
    requires !tokens[right].kind.Whitespace? && AllWhite(tokens[op + 1..right])
    requires IsGlued(t, tokens[left], tokens[right], glued) && PasteFree(glued)
    ensures HandlePasting(t, tokens) == HandlePasting(t, tokens[..left] + glued + tokens[right + 1..])
  {
    PastesUpTo(t, tokens, op);
    PastesAt(t, tokens, left, op, right, glued);
    var read, rest := tokens[..left] + glued, tokens[right + 1..];
    var next := read + rest;
    assert next[..|read|] == read && next[|read|..] == rest;
    ReadPasteFree(tokens, left, op, glued);
    PastesUpTo(t, next, |read|);
    PasteShifts(t, tokens, right + 1, next, |read|, read);
  }

  lemma PastesAt(t: Table, tokens: seq<Token>, left: nat, op: nat, right: nat, glued: seq<Token>)
    requires left < op < right < |tokens| && tokens[op].kind.HashHash?
    requires !tokens[left].kind.Whitespace? && AllWhite(tokens[left + 1..op])
    requires !tokens[right].kind.Whitespace? && AllWhite(tokens[op + 1..right])
    requires IsGlued(t, tokens[left], tokens[right], glued)
    ensures PasteFrom(t, tokens, op, tokens[..op]) == PasteFrom(t, tokens, right + 1, tokens[..left] + glued)
  {
    var done := tokens[..op];
    SkipsTo(tokens, op + 1, right);
    assert done[left + 1..op] == tokens[left + 1..op];
    DropsTo(done, 0, left + 1, op);
    assert done[left] == tokens[left] && done[..left] == tokens[..left];
    assert glued == Pasted(t, tokens[left], tokens[right]);
  }

  lemma ReadPasteFree(tokens: seq<Token>, left: nat, op: nat, glued: seq<Token>)
    requires left < op <= |tokens| && PasteFree(tokens[..op]) && PasteFree(glued)
    ensures PasteFree(tokens[..left] + glued)
  {
    forall tok | tok in tokens[..left] + glued
      ensures !tok.kind.HashHash?
    {
      assert tokens[..left] == tokens[..op][..left];
      assert tok in tokens[..op] || tok in glued;
    }
  }

  /** The first ## fails if an operand is missing. */
  lemma PasteFails(t: Table, tokens: seq<Token>, op: nat)
    requires op < |tokens| && tokens[op].kind.HashHash? && PasteFree(tokens[..op])
    ensures op == 0 || (AllWhite(tokens[..op]) && !AllWhite(tokens[op + 1..])) ==> HandlePasting(t, tokens) == Err(PasteAtStart)
    ensures op > 0 && AllWhite(tokens[op + 1..]) ==> HandlePasting(t, tokens) == Err(PasteAtEnd)
  {
    var done := tokens[..op];
    PastesUpTo(t, tokens, op);
    if op > 0 {
      if AllWhite(tokens[op + 1..]) {
        assert tokens[op + 1..|tokens|] == tokens[op + 1..];
        SkipsTo(tokens, op + 1, |tokens|);
      } else if AllWhite(done) {
        SkipsWhite(tokens, op + 1);
        assert tokens[op + 1..|tokens|] == tokens[op + 1..];
        assert done[0..op] == done;
        DropsTo(done, 0, 0, op);
      }
    }
  }

  // --- Where that is not what the standard says ---

  const PASTE: Token := Token(HashHash, "##")

  /** a##b. */
  function Paste(a: string, b: string): Macro {
    Function([a, b], false, [Token(Identifier, a), PASTE, Token(Identifier, b)])
  }

  lemma PasteBecomes(t: Table, hidden: set<string>, a: string, b: string, x: seq<Token>, y: seq<Token>)
    requires a != b
    ensures ExpandCall(t, hidden, Paste(a, b), [x, y]) == ExpandPasted(t, hidden, x + [PASTE] + y)
  {
    var m, pieces := Paste(a, b), [x, [PASTE], y];
    ConcatThree(x, [PASTE], y);
    forall j: nat | j < 3
      ensures BecomesAt(t, hidden, m, [x, y], 0, pieces, j)
    {
      assert IsParam(m, 0, m.replacement[0]) && IsParam(m, 1, m.replacement[2]);
    }
    CallReplaces(t, hidden, m, [x, y], pieces);
  }

  lemma ConcatThree(x: seq<Token>, y: seq<Token>, z: seq<Token>)
    ensures Concat([x, y, z]) == x + y + z
  {
    assert [x, y, z][1..] == [y, z] && [y, z][1..] == [z] && [z][1..] == [];
    assert Concat([z]) == z;
    assert Concat([y, z]) == y + z;
    Regroup(x, y, z);
  }

  /** An argument may be empty (section 6.10.3.3 of ISO/IEC 9899:2011 replaces it by a placemarker); a##b is an error then, and
      only then is an operand missing: otherwise the last token of the one and the first of the other are glued. */
  lemma EmptyOperandFails(t: Table, hidden: set<string>, a: string, b: string, x: seq<Token>, y: seq<Token>, glued: seq<Token>)
    requires a != b && PasteFree(x) && PasteFree(y) && IsTrimmed(x, x) && IsTrimmed(y, y)
    requires x != [] && y != [] ==> IsGlued(t, x[|x| - 1], y[0], glued) && PasteFree(glued)
    ensures ExpandCall(t, hidden, Paste(a, b), [x, y]) ==
      if x == [] then Err(PasteAtStart)
      else if y == [] then Err(PasteAtEnd)
      else ExpandFrom(t, hidden, WithoutPlaceholders(x[..|x| - 1] + glued + y[1..]), 0, [])
  {
    PasteBecomes(t, hidden, a, b, x, y);
    if x != [] && y != [] {
      BothOperands(t, x, y, glued);
    } else {
      var tokens, n := x + [PASTE] + y, |x|;
      assert tokens[..n] == x && tokens[n] == PASTE && tokens[n + 1..] == y;
      PasteFails(t, tokens, n);
    }
  }

  lemma BothOperands(t: Table, x: seq<Token>, y: seq<Token>, glued: seq<Token>)
    requires x != [] && y != [] && PasteFree(x) && PasteFree(y) && IsTrimmed(x, x) && IsTrimmed(y, y)
    requires IsGlued(t, x[|x| - 1], y[0], glued) && PasteFree(glued)
    ensures HandlePasting(t, x + [PASTE] + y) == Ok(WithoutPlaceholders(x[..|x| - 1] + glued + y[1..]))
  {
    var tokens, n := x + [PASTE] + y, |x|;
    TrimmedEnds(x);
    TrimmedEnds(y);
    AroundPaste(x, y);
    FirstPaste(t, tokens, n - 1, n, n + 1, glued);
    GluedPasteFree(x, glued, y);
    PastedIs(t, x[..n - 1] + glued + y[1..]);
  }

  lemma AroundPaste(x: seq<Token>, y: seq<Token>)
    requires x != [] && y != []
    ensures var tokens, n := x + [PASTE] + y, |x|;
      && tokens[..n] == x && tokens[n] == PASTE && tokens[n - 1] == x[n - 1] && tokens[n + 1] == y[0]
      && tokens[n..n] == [] && tokens[n + 1..n + 1] == [] && tokens[..n - 1] == x[..n - 1] && tokens[n + 2..] == y[1..]
  {
  }

  lemma TrimmedEnds(tokens: seq<Token>)
    requires IsTrimmed(tokens, tokens) && tokens != []
    ensures !tokens[0].kind.Whitespace? && !tokens[|tokens| - 1].kind.Whitespace?
  {
  }

  lemma GluedPasteFree(x: seq<Token>, glued: seq<Token>, y: seq<Token>)
    requires PasteFree(x) && PasteFree(glued) && PasteFree(y) && x != [] && y != []
    ensures PasteFree(x[..|x| - 1] + glued + y[1..])
  {
    var rest := x[..|x| - 1] + glued + y[1..];
    forall tok | tok in rest
      ensures !tok.kind.HashHash?
    {
      assert tok in x || tok in glued || tok in y;
    }
  }

  /** Next to ## with a blank between, an argument is expanded before it is pasted, which section 6.10.3.1 of ISO/IEC 9899:2011
      forbids: with N defined as 1, and C(a) as a ## 2, C(N) is read from "12" rather than from "N2". */
  lemma SpacedOperandIsExpanded(t: Table)
    requires "N" in t.macros && t.macros["N"] == Object([Token(Number, "1")])
    requires t.retokenize("12") == [Token(Number, "12")]
    ensures var m := Function(["a"], false, [Token(Identifier, "a"), SPACE, PASTE, SPACE, Token(Number, "2")]);
      ExpandCall(t, {"C"}, m, [[Token(Identifier, "N")]]) == Ok([Token(Number, "12")])
  {
    var one, two, twelve := Token(Number, "1"), Token(Number, "2"), Token(Number, "12");
    SpacedCall(t, one, two);
    assert one.text + two.text == "12";
    SpacedPaste(t, one, two, [twelve]);
    PastedIs(t, [twelve]);
    NothingDropped([twelve]);
    NothingToExpand(t, {"C"}, [twelve], 0, []);
  }

  lemma SpacedCall(t: Table, one: Token, two: Token)
    requires "N" in t.macros && t.macros["N"] == Object([one]) && one.kind.Number? && two.kind.Number?
    ensures ExpandCall(t, {"C"}, Function(["a"], false, [Token(Identifier, "a"), SPACE, PASTE, SPACE, two]), [[Token(Identifier, "N")]])
         == ExpandPasted(t, {"C"}, [one, SPACE, PASTE, SPACE, two])
  {
    var m := Function(["a"], false, [Token(Identifier, "a"), SPACE, PASTE, SPACE, two]);
    var args := [[Token(Identifier, "N")]];
    ObjectExpands(t, {"C"}, "N", [one]);
    var pieces := Singles([one, SPACE, PASTE, SPACE, two]);
    assert IsParam(m, 0, m.replacement[0]);
    forall j: nat | j < 5
      ensures BecomesAt(t, {"C"}, m, args, 0, pieces, j)
    {
    }
    CallReplaces(t, {"C"}, m, args, pieces);
    ConcatSingles([one, SPACE, PASTE, SPACE, two]);
  }

  function Singles(tokens: seq<Token>): seq<seq<Token>> {
    seq(|tokens|, i requires 0 <= i < |tokens| => [tokens[i]])
  }

  lemma {:induction false} ConcatSingles(tokens: seq<Token>)
    ensures Concat(Singles(tokens)) == tokens
  {
    if tokens != [] {
      ConcatSingles(tokens[1..]);
      assert Singles(tokens)[1..] == Singles(tokens[1..]);
    }
  }

  lemma SpacedPaste(t: Table, x: Token, y: Token, glued: seq<Token>)
    requires x.kind.Number? && y.kind.Number? && IsGlued(t, x, y, glued) && PasteFree(glued)
    ensures HandlePasting(t, [x, SPACE, PASTE, SPACE, y]) == HandlePasting(t, glued)
  {
    var tokens := [x, SPACE, PASTE, SPACE, y];
    assert tokens[1..2] == [SPACE] && tokens[3..4] == [SPACE] && tokens[..2] == [x, SPACE];
    FirstPaste(t, tokens, 0, 2, 4, glued);
    assert tokens[..0] + glued + tokens[5..] == glued;
  }

  lemma ObjectExpands(t: Table, hidden: set<string>, name: string, replacement: seq<Token>)
    requires name in t.macros && name !in hidden && t.macros[name] == Object(replacement)
    requires PasteFree(replacement) && NoPlaceholders(replacement) && NoMacroNames(t, replacement)
    ensures ExpandFrom(t, hidden, [Token(Identifier, name)], 0, []) == Ok(replacement)
  {
    PastedIs(t, replacement);
    NothingDropped(replacement);
    NothingToExpand(t, hidden + {name}, replacement, 0, []);
    assert [] + replacement[0..] == replacement && [] + replacement == replacement;
    assert ExpandPasted(t, hidden + {name}, replacement) == Ok(replacement);
    HidingShrinks(t, hidden, name);
    assert ExpandFrom(t, hidden, [Token(Identifier, name)], 1, replacement) == Ok(replacement);
  }
}
