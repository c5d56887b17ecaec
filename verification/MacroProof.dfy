/** Which macro names are left over after expansion: exactly those that are reached from themselves can be. */
module MacroProof {
  import opened Values
  import opened Macros

  // --- What leads to what ---

  /** Tokens without ##, whose identifiers are in s. */
  ghost predicate Clean(s: iset<string>, tokens: seq<Token>) {
    forall tok | tok in tokens :: IsClean(s, tok)
  }

  ghost predicate IsClean(s: iset<string>, tok: Token) {
    !tok.kind.HashHash? && (tok.kind.Identifier? ==> tok.text in s)
  }

  ghost predicate PasteFree(tokens: seq<Token>) {
    forall tok | tok in tokens :: !tok.kind.HashHash?
  }

  function ReplacementOf(m: Macro): seq<Token> {
    match m
    case Object(replacement) => replacement
    case Function(_, _, replacement) => replacement
    case Builtin(_) => []
  }

  /** No ## anywhere, and built-in macros yield no identifiers. */
  ghost predicate TableOk(t: Table) {
    && (forall m | m in t.macros :: PasteFree(ReplacementOf(t.macros[m])))
    && (forall m | m in t.macros && t.macros[m].Builtin? && t.macros[m].result.Some? :: Clean(iset{}, t.macros[m].result.value))
  }

  /** x is an identifier in the replacement of m. */
  ghost predicate Edge(t: Table, m: string, x: string) {
    m in t.macros && Token(Identifier, x) in ReplacementOf(t.macros[m])
  }

  ghost predicate ReachesIn(t: Table, m: string, x: string, n: nat)
    decreases n
  {
    if n == 0 then Edge(t, m, x) else exists y :: Edge(t, m, y) && ReachesIn(t, y, x, n - 1)
  }

  ghost predicate Reaches(t: Table, m: string, x: string) {
    exists n: nat :: ReachesIn(t, m, x, n)
  }

  lemma {:induction false} OneFurther(t: Table, m: string, x: string, y: string, n: nat)
    requires ReachesIn(t, m, x, n) && Edge(t, x, y)
    ensures ReachesIn(t, m, y, n + 1)
    decreases n
  {
    if n == 0 {
      assert ReachesIn(t, x, y, 0);
    } else {
      var z :| Edge(t, m, z) && ReachesIn(t, z, x, n - 1);
      OneFurther(t, z, x, y, n - 1);
    }
  }

  ghost function Reach(t: Table, m: string): iset<string> {
    iset x | Reaches(t, m, x)
  }

  ghost predicate Closed(t: Table, s: iset<string>) {
    forall m, x | m in s && Edge(t, m, x) :: x in s
  }

  lemma ReachIsClosed(t: Table, h: string)
    ensures Closed(t, Reach(t, h))
  {
    forall m, x | m in Reach(t, h) && Edge(t, m, x)
      ensures x in Reach(t, h)
    {
      var n: nat :| ReachesIn(t, h, m, n);
      OneFurther(t, h, m, x, n);
    }
  }

  /** The replacement of a macro in a closed set. */
  lemma ReplacementIsClean(t: Table, s: iset<string>, m: string)
    requires TableOk(t) && Closed(t, s) && m in t.macros && m in s
    ensures Clean(s, ReplacementOf(t.macros[m]))
  {
    forall tok | tok in ReplacementOf(t.macros[m])
      ensures IsClean(s, tok)
    {
      if tok.kind.Identifier? {
        assert tok == Token(Identifier, tok.text);
        assert Edge(t, m, tok.text);
      }
    }
  }

  // --- Nothing new comes from outside a closed set ---

  lemma TrimIsClean(s: iset<string>, tokens: seq<Token>)
    requires Clean(s, tokens)
    ensures Clean(s, Trim(tokens))
  {
  }

  ghost predicate AllClean(s: iset<string>, args: seq<seq<Token>>) {
    forall a | a in args :: Clean(s, a)
  }

  lemma {:induction false} ArgumentsAreClean(s: iset<string>, m: Macro, tokens: seq<Token>, i: nat, depth: nat, args: seq<seq<Token>>, current: seq<Token>)
    requires m.Function? && i <= |tokens| && depth >= 1 && Clean(s, tokens) && AllClean(s, args) && Clean(s, current)
    ensures var r := ParseArguments(m, tokens, i, depth, args, current); r.Ok? ==> AllClean(s, r.value.0)
    decreases |tokens| - i
  {
    if i < |tokens| {
      var tok := tokens[i];
      assert IsClean(s, tok);
      TrimIsClean(s, current);
      if tok.Is("(") {
        ArgumentsAreClean(s, m, tokens, i + 1, depth + 1, args, current + [tok]);
      } else if tok.Is(")") {
        if depth > 1 {
          ArgumentsAreClean(s, m, tokens, i + 1, depth - 1, args, current + [tok]);
        }
      } else if tok.Is(",") && depth == 1 {
        ArgumentsAreClean(s, m, tokens, i + 1, depth, args + [Trim(current)], []);
      } else {
        ArgumentsAreClean(s, m, tokens, i + 1, depth, args, current + [tok]);
      }
    }
  }

  lemma {:induction false} JoinIsClean(s: iset<string>, args: seq<seq<Token>>)
    requires AllClean(s, args)
    ensures Clean(s, Join(args))
    decreases |args|
  {
    if |args| >= 2 {
      JoinIsClean(s, args[..|args| - 1]);
      assert args[|args| - 1] in args;
    } else if |args| == 1 {
      assert args[0] in args;
    }
  }

  ghost predicate ParamsClean(s: iset<string>, params: ParamMap) {
    forall p | p in params :: Clean(s, params[p])
  }

  lemma {:induction false} BoundIsClean(s: iset<string>, names: seq<string>, args: seq<seq<Token>>, k: nat)
    requires k <= |names| && AllClean(s, args)
    ensures ParamsClean(s, BindParams(names, args, k))
    decreases k
  {
    if k > 0 {
      BoundIsClean(s, names, args, k - 1);
      if k - 1 < |args| { assert args[k - 1] in args; }
    }
  }

  lemma BindingIsClean(s: iset<string>, m: Macro, args: seq<seq<Token>>)
    requires m.Function? && AllClean(s, args)
    ensures ParamsClean(s, Bind(m, args))
  {
    BoundIsClean(s, m.params, args, |m.params|);
    if |args| > |m.params| {
      JoinIsClean(s, args[|m.params|..]);
    }
  }

  /** Without ##, pasting only drops placeholders. */
  lemma {:induction false} NothingPasted(t: Table, tokens: seq<Token>, i: nat, result: seq<Token>)
    requires i <= |tokens| && PasteFree(tokens)
    ensures PasteFrom(t, tokens, i, result) == Ok(result + tokens[i..])
    decreases |tokens| - i
  {
    if i < |tokens| {
      assert tokens[i] in tokens;
      NothingPasted(t, tokens, i + 1, result + [tokens[i]]);
      assert result + [tokens[i]] + tokens[i + 1..] == result + tokens[i..];
    } else {
      assert result + tokens[i..] == result;
    }
  }

  lemma {:induction false} PlaceholdersDropped(tokens: seq<Token>, tok: Token)
    ensures tok in WithoutPlaceholders(tokens) <==> tok in tokens && !tok.kind.Placeholder?
    decreases |tokens|
  {
    if tokens == [] {
    } else {
      PlaceholdersDropped(tokens[..|tokens| - 1], tok);
      assert tokens == tokens[..|tokens| - 1] + [tokens[|tokens| - 1]];
    }
  }

  lemma PastedIs(t: Table, tokens: seq<Token>)
    requires PasteFree(tokens)
    ensures HandlePasting(t, tokens) == Ok(WithoutPlaceholders(tokens))
  {
    NothingPasted(t, tokens, 0, []);
    assert [] + tokens[0..] == tokens;
  }

  lemma PastedIsClean(t: Table, s: iset<string>, tokens: seq<Token>)
    requires Clean(s, tokens)
    ensures HandlePasting(t, tokens) == Ok(WithoutPlaceholders(tokens)) && Clean(s, WithoutPlaceholders(tokens))
  {
    assert PasteFree(tokens) by {
      forall tok | tok in tokens
        ensures !tok.kind.HashHash?
      {
        assert IsClean(s, tok);
      }
    }
    PastedIs(t, tokens);
    forall tok | tok in WithoutPlaceholders(tokens)
      ensures IsClean(s, tok)
    {
      PlaceholdersDropped(tokens, tok);
    }
  }

  lemma {:induction false} ExpansionIsClean(t: Table, s: iset<string>, hidden: set<string>, tokens: seq<Token>, i: nat, result: seq<Token>)
    requires TableOk(t) && Closed(t, s) && i <= |tokens| && Clean(s, tokens) && Clean(s, result)
    ensures var r := ExpandFrom(t, hidden, tokens, i, result); r.Ok? ==> Clean(s, r.value)
    decreases Unhidden(t, hidden), 0, |tokens| - i
  {
    if i < |tokens| {
      var tok := tokens[i];
      assert IsClean(s, tok);
      if !IsMacroName(t, tok) || tok.text in hidden {
        ExpansionIsClean(t, s, hidden, tokens, i + 1, result + [tok]);
      } else {
        HidingShrinks(t, hidden, tok.text);
        match t.macros[tok.text] {
          case Builtin(r) =>
            if r.Some? {
              assert forall x | x in r.value :: IsClean(iset{}, x);
              ExpansionIsClean(t, s, hidden, tokens, i + 1, result + r.value);
            }
          case Object(replacement) =>
            ReplacementIsClean(t, s, tok.text);
            PastedExpansionIsClean(t, s, hidden + {tok.text}, replacement);
            var r := ExpandPasted(t, hidden + {tok.text}, replacement);
            if r.Ok? {
              ExpansionIsClean(t, s, hidden, tokens, i + 1, result + r.value);
            }
          case Function(_, _, _) => CallIsClean(t, s, hidden, tokens, i, result);
        }
      }
    }
  }

  lemma {:induction false} PastedExpansionIsClean(t: Table, s: iset<string>, hidden: set<string>, tokens: seq<Token>)
    requires TableOk(t) && Closed(t, s) && Clean(s, tokens)
    ensures var r := ExpandPasted(t, hidden, tokens); r.Ok? ==> Clean(s, r.value)
    decreases Unhidden(t, hidden), 2
  {
    PastedIsClean(t, s, tokens);
    ExpansionIsClean(t, s, hidden, WithoutPlaceholders(tokens), 0, []);
  }

  /** What the call of a macro with arguments is expanded to. */
  lemma CallUnrolls(t: Table, hidden: set<string>, tokens: seq<Token>, i: nat, result: seq<Token>, paren: nat)
    requires i < |tokens| && IsMacroName(t, tokens[i]) && tokens[i].text !in hidden && t.macros[tokens[i].text].Function?
    requires CallParen(tokens, i + 1) == Some(paren)
    ensures match ParseArguments(t.macros[tokens[i].text], tokens, paren + 1, 1, [], [])
      case Err(_) => ExpandFrom(t, hidden, tokens, i, result).Err?
      case Ok((args, last)) =>
        match ExpandCall(t, hidden + {tokens[i].text}, t.macros[tokens[i].text], args)
        case Err(_) => ExpandFrom(t, hidden, tokens, i, result).Err?
        case Ok(expanded) => ExpandFrom(t, hidden, tokens, i, result) == ExpandFrom(t, hidden, tokens, last + 1, result + expanded)
  {
  }

  lemma {:induction false} CallIsClean(t: Table, s: iset<string>, hidden: set<string>, tokens: seq<Token>, i: nat, result: seq<Token>)
    requires TableOk(t) && Closed(t, s) && i < |tokens| && Clean(s, tokens) && Clean(s, result)
    requires IsMacroName(t, tokens[i]) && tokens[i].text !in hidden && t.macros[tokens[i].text].Function?
    ensures var r := ExpandFrom(t, hidden, tokens, i, result); r.Ok? ==> Clean(s, r.value)
    decreases Unhidden(t, hidden), 0, |tokens| - i, 0
  {
    var tok := tokens[i];
    var m := t.macros[tok.text];
    assert IsClean(s, tok);
    HidingShrinks(t, hidden, tok.text);
    match CallParen(tokens, i + 1)
    case None => ExpansionIsClean(t, s, hidden, tokens, i + 1, result + [tok]);
    case Some(paren) =>
      CallUnrolls(t, hidden, tokens, i, result, paren);
      ArgumentsAreClean(s, m, tokens, paren + 1, 1, [], []);
      var arguments := ParseArguments(m, tokens, paren + 1, 1, [], []);
      if arguments.Ok? {
        ReplacementIsClean(t, s, tok.text);
        CalledIsClean(t, s, hidden + {tok.text}, m, arguments.value.0);
        var r := ExpandCall(t, hidden + {tok.text}, m, arguments.value.0);
        if r.Ok? {
          ExpansionIsClean(t, s, hidden, tokens, arguments.value.1 + 1, result + r.value);
        }
      }
  }

  lemma {:induction false} CalledIsClean(t: Table, s: iset<string>, hidden: set<string>, m: Macro, args: seq<seq<Token>>)
    requires TableOk(t) && Closed(t, s) && m.Function? && Clean(s, m.replacement) && AllClean(s, args)
    ensures var r := ExpandCall(t, hidden, m, args); r.Ok? ==> Clean(s, r.value)
    decreases Unhidden(t, hidden), 3
  {
    BindingIsClean(s, m, args);
    SubstitutionIsClean(t, s, hidden, Bind(m, args), m.replacement, 0, []);
    var r := Substitute(t, hidden, Bind(m, args), m.replacement, 0, []);
    if r.Ok? {
      PastedExpansionIsClean(t, s, hidden, r.value);
    }
  }

  lemma {:induction false} SubstitutionIsClean(t: Table, s: iset<string>, hidden: set<string>, params: ParamMap,
                                               replacement: seq<Token>, i: nat, result: seq<Token>)
    requires TableOk(t) && Closed(t, s) && i <= |replacement|
    requires Clean(s, replacement) && ParamsClean(s, params) && Clean(s, result)
    ensures var r := Substitute(t, hidden, params, replacement, i, result); r.Ok? ==> Clean(s, r.value)
    decreases Unhidden(t, hidden), 1, |replacement| - i
  {
    if i < |replacement| {
      var tok := replacement[i];
      assert IsClean(s, tok);
      match StringifiedParam(params, replacement, i)
      case Some(k) =>
        SubstitutionIsClean(t, s, hidden, params, replacement, k + 1, result + [Stringify(params[replacement[k].text])]);
      case None =>
        if tok.kind.Identifier? && tok.text in params {
          if NextToPaste(replacement, i) {
            SubstitutionIsClean(t, s, hidden, params, replacement, i + 1, result + params[tok.text]);
          } else {
            ExpansionIsClean(t, s, hidden, params[tok.text], 0, []);
            var r := ExpandFrom(t, hidden, params[tok.text], 0, []);
            if r.Ok? {
              SubstitutionIsClean(t, s, hidden, params, replacement, i + 1, result + r.value);
            }
          }
        } else {
          SubstitutionIsClean(t, s, hidden, params, replacement, i + 1, result + [tok]);
        }
    }
  }

  // --- What is left over ---

  /** Every hidden object-like macro leads to all names among the tokens. */
  ghost predicate FromHidden(t: Table, hidden: set<string>, tokens: seq<Token>) {
    forall h | h in hidden && h in t.macros && t.macros[h].Object? :: Clean(Reach(t, h), tokens)
  }

  /** The object-like macro names among the tokens lead to themselves. */
  ghost predicate OnCycles(t: Table, tokens: seq<Token>) {
    forall tok | tok in tokens && IsMacroName(t, tok) && t.macros[tok.text].Object? :: Reaches(t, tok.text, tok.text)
  }

  /** The replacement of a macro that is met comes from the hidden macros, and from itself. */
  lemma ReplacementFromHidden(t: Table, hidden: set<string>, tokens: seq<Token>, tok: Token)
    requires TableOk(t) && FromHidden(t, hidden, tokens) && tok in tokens && IsMacroName(t, tok)
    ensures FromHidden(t, hidden, ReplacementOf(t.macros[tok.text]))
    ensures FromHidden(t, hidden + {tok.text}, ReplacementOf(t.macros[tok.text]))
  {
    forall h | h in hidden + {tok.text} && h in t.macros && t.macros[h].Object?
      ensures Clean(Reach(t, h), ReplacementOf(t.macros[tok.text]))
    {
      if h in hidden {
        assert IsClean(Reach(t, h), tok);
        ReachIsClosed(t, h);
        ReplacementIsClean(t, Reach(t, h), tok.text);
      } else {
        OwnReplacement(t, h);
      }
    }
  }

  lemma OwnReplacement(t: Table, h: string)
    requires TableOk(t) && h in t.macros
    ensures Clean(Reach(t, h), ReplacementOf(t.macros[h]))
  {
    forall x | x in ReplacementOf(t.macros[h])
      ensures IsClean(Reach(t, h), x)
    {
      if x.kind.Identifier? {
        assert x == Token(Identifier, x.text);
        assert ReachesIn(t, h, x.text, 0);
      }
    }
  }

  lemma {:induction false} LeftoverIsOnCycle(t: Table, hidden: set<string>, tokens: seq<Token>, i: nat, result: seq<Token>)
    requires TableOk(t) && i <= |tokens| && PasteFree(tokens) && FromHidden(t, hidden, tokens) && OnCycles(t, result)
    ensures var r := ExpandFrom(t, hidden, tokens, i, result); r.Ok? ==> OnCycles(t, r.value)
    decreases Unhidden(t, hidden), 0, |tokens| - i
  {
    if i < |tokens| {
      var tok := tokens[i];
      assert tok in tokens;
      if !IsMacroName(t, tok) || tok.text in hidden {
        if IsMacroName(t, tok) && t.macros[tok.text].Object? {
          assert IsClean(Reach(t, tok.text), tok);
        }
        LeftoverIsOnCycle(t, hidden, tokens, i + 1, result + [tok]);
      } else {
        HidingShrinks(t, hidden, tok.text);
        match t.macros[tok.text] {
          case Builtin(r) =>
            if r.Some? {
              assert forall x | x in r.value :: IsClean(iset{}, x);
              LeftoverIsOnCycle(t, hidden, tokens, i + 1, result + r.value);
            }
          case Object(replacement) =>
            ReplacementFromHidden(t, hidden, tokens, tok);
            PastedLeftover(t, hidden + {tok.text}, replacement);
            var r := ExpandPasted(t, hidden + {tok.text}, replacement);
            if r.Ok? {
              LeftoverIsOnCycle(t, hidden, tokens, i + 1, result + r.value);
            }
          case Function(_, _, _) => CallLeftover(t, hidden, tokens, i, result);
        }
      }
    }
  }

  lemma {:induction false} PastedLeftover(t: Table, hidden: set<string>, tokens: seq<Token>)
    requires TableOk(t) && PasteFree(tokens) && FromHidden(t, hidden, tokens)
    ensures var r := ExpandPasted(t, hidden, tokens); r.Ok? ==> OnCycles(t, r.value)
    decreases Unhidden(t, hidden), 2
  {
    PastedIs(t, tokens);
    var pasted := WithoutPlaceholders(tokens);
    forall tok | tok in pasted
      ensures tok in tokens
    {
      PlaceholdersDropped(tokens, tok);
    }
    LeftoverIsOnCycle(t, hidden, pasted, 0, []);
  }

  lemma {:induction false} CallLeftover(t: Table, hidden: set<string>, tokens: seq<Token>, i: nat, result: seq<Token>)
    requires TableOk(t) && i < |tokens| && PasteFree(tokens) && FromHidden(t, hidden, tokens) && OnCycles(t, result)
    requires IsMacroName(t, tokens[i]) && tokens[i].text !in hidden && t.macros[tokens[i].text].Function?
    ensures var r := ExpandFrom(t, hidden, tokens, i, result); r.Ok? ==> OnCycles(t, r.value)
    decreases Unhidden(t, hidden), 0, |tokens| - i, 1
  {
    match CallParen(tokens, i + 1)
    case None =>
      assert ExpandFrom(t, hidden, tokens, i, result) == ExpandFrom(t, hidden, tokens, i + 1, result + [tokens[i]]);
      LeftoverIsOnCycle(t, hidden, tokens, i + 1, result + [tokens[i]]);
    case Some(paren) =>
      CallUnrolls(t, hidden, tokens, i, result, paren);
      if ParseArguments(t.macros[tokens[i].text], tokens, paren + 1, 1, [], []).Ok? {
        ArgumentsLeftover(t, hidden, tokens, i, result, paren);
      }
  }

  lemma {:induction false} ArgumentsLeftover(t: Table, hidden: set<string>, tokens: seq<Token>, i: nat, result: seq<Token>, paren: nat)
    requires TableOk(t) && i < |tokens| && PasteFree(tokens) && FromHidden(t, hidden, tokens) && OnCycles(t, result)
    requires IsMacroName(t, tokens[i]) && tokens[i].text !in hidden && t.macros[tokens[i].text].Function?
    requires CallParen(tokens, i + 1) == Some(paren) && ParseArguments(t.macros[tokens[i].text], tokens, paren + 1, 1, [], []).Ok?
    ensures var r := ExpandFrom(t, hidden, tokens, i, result); r.Ok? ==> OnCycles(t, r.value)
    decreases Unhidden(t, hidden), 0, |tokens| - i, 0
  {
    var tok := tokens[i];
    var m := t.macros[tok.text];
    var (args, last) := ParseArguments(m, tokens, paren + 1, 1, [], []).value;
    HidingShrinks(t, hidden, tok.text);
    CallUnrolls(t, hidden, tokens, i, result, paren);
    CalledLeftover(t, hidden, tokens, tok, m, paren + 1);
    var r := ExpandCall(t, hidden + {tok.text}, m, args);
    if r.Ok? {
      LeftoverIsOnCycle(t, hidden, tokens, last + 1, result + r.value);
    }
  }

  lemma {:induction false} CalledLeftover(t: Table, hidden: set<string>, tokens: seq<Token>, tok: Token, m: Macro, start: nat)
    requires TableOk(t) && start <= |tokens| && PasteFree(tokens) && FromHidden(t, hidden, tokens)
    requires tok in tokens && IsMacroName(t, tok) && tok.text !in hidden && m == t.macros[tok.text] && m.Function?
    requires ParseArguments(m, tokens, start, 1, [], []).Ok?
    ensures var r := ExpandCall(t, hidden + {tok.text}, m, ParseArguments(m, tokens, start, 1, [], []).value.0); r.Ok? ==> OnCycles(t, r.value)
    decreases Unhidden(t, hidden + {tok.text}), 3
  {
    var inner, args := hidden + {tok.text}, ParseArguments(m, tokens, start, 1, [], []).value.0;
    var r := Substitute(t, inner, Bind(m, args), m.replacement, 0, []);
    if r.Ok? {
      forall h | h in inner && h in t.macros && t.macros[h].Object?
        ensures Clean(Reach(t, h), r.value)
      {
        SubstitutedFromHidden(t, hidden, tokens, tok, m, start, inner, h);
      }
      SubstitutedPasteFree(t, tokens, tok, m, start, inner);
      PastedLeftover(t, inner, r.value);
    }
  }

  lemma SubstitutedFromHidden(t: Table, hidden: set<string>, tokens: seq<Token>, tok: Token, m: Macro, start: nat, inner: set<string>, h: string)
    requires TableOk(t) && start <= |tokens| && FromHidden(t, hidden, tokens)
    requires tok in tokens && IsMacroName(t, tok) && m == t.macros[tok.text] && m.Function?
    requires h in hidden && h in t.macros && t.macros[h].Object? && ParseArguments(m, tokens, start, 1, [], []).Ok?
    ensures var args := ParseArguments(m, tokens, start, 1, [], []).value.0;
      var r := Substitute(t, inner, Bind(m, args), m.replacement, 0, []);
      r.Ok? ==> Clean(Reach(t, h), r.value)
  {
    var s, args := Reach(t, h), ParseArguments(m, tokens, start, 1, [], []).value.0;
    ReachIsClosed(t, h);
    ReplacementFromHidden(t, hidden, tokens, tok);
    ArgumentsAreClean(s, m, tokens, start, 1, [], []);
    BindingIsClean(s, m, args);
    SubstitutionIsClean(t, s, inner, Bind(m, args), m.replacement, 0, []);
  }

  /** The identifiers among the tokens and in the replacements. */
  ghost function Mentioned(t: Table, tokens: seq<Token>): iset<string> {
    iset x | Token(Identifier, x) in tokens || exists m :: Edge(t, m, x)
  }

  lemma MentionedAreClean(t: Table, all: seq<Token>, tokens: seq<Token>)
    requires PasteFree(tokens)
    requires forall tok | tok in tokens && tok.kind.Identifier? :: tok.text in Mentioned(t, all)
    ensures Clean(Mentioned(t, all), tokens)
  {
  }

  lemma SubstitutedPasteFree(t: Table, tokens: seq<Token>, tok: Token, m: Macro, start: nat, inner: set<string>)
    requires TableOk(t) && start <= |tokens| && PasteFree(tokens)
    requires IsMacroName(t, tok) && m == t.macros[tok.text] && m.Function? && ParseArguments(m, tokens, start, 1, [], []).Ok?
    ensures var args := ParseArguments(m, tokens, start, 1, [], []).value.0;
      var r := Substitute(t, inner, Bind(m, args), m.replacement, 0, []);
      r.Ok? ==> PasteFree(r.value)
  {
    var all := Mentioned(t, tokens);
    var args := ParseArguments(m, tokens, start, 1, [], []).value.0;
    forall x | x in tokens && x.kind.Identifier?
      ensures x.text in all
    {
      assert x == Token(Identifier, x.text);
    }
    forall x | x in m.replacement && x.kind.Identifier?
      ensures x.text in all
    {
      assert x == Token(Identifier, x.text) && Edge(t, tok.text, x.text);
    }
    MentionedAreClean(t, tokens, tokens);
    MentionedAreClean(t, tokens, m.replacement);
    ArgumentsAreClean(all, m, tokens, start, 1, [], []);
    BindingIsClean(all, m, args);
    SubstitutionIsClean(t, all, inner, Bind(m, args), m.replacement, 0, []);
    var r := Substitute(t, inner, Bind(m, args), m.replacement, 0, []);
    if r.Ok? {
      assert forall x | x in r.value :: IsClean(all, x);
    }
  }

  /** After expansion, an object-like macro name can only be left over if its macro leads back to it. */
  lemma LeftoversAreOnCycles(t: Table, tokens: seq<Token>)
    requires TableOk(t) && PasteFree(tokens)
    ensures Expand(t, tokens).Ok? ==> OnCycles(t, Expand(t, tokens).value)
  {
    LeftoverIsOnCycle(t, {}, tokens, 0, []);
  }

  // --- Object-like macros ---

  /** Only object-like macros, without ##. */
  ghost predicate ObjectsOnly(t: Table) {
    TableOk(t) && forall m | m in t.macros :: t.macros[m].Object?
  }

  ghost predicate Acyclic(t: Table) {
    forall m | m in t.macros :: !Reaches(t, m, m)
  }

  ghost predicate NoMacroNames(t: Table, tokens: seq<Token>) {
    forall tok | tok in tokens :: !IsMacroName(t, tok)
  }

  /** Nothing can go wrong, and what was read stays. */
  lemma {:induction false} ObjectsExpand(t: Table, hidden: set<string>, tokens: seq<Token>, i: nat, result: seq<Token>)
    requires ObjectsOnly(t) && i <= |tokens|
    ensures ExpandFrom(t, hidden, tokens, i, result).Ok?
    ensures result <= ExpandFrom(t, hidden, tokens, i, result).value
    decreases Unhidden(t, hidden), 0, |tokens| - i
  {
    if i < |tokens| {
      var tok := tokens[i];
      if !IsMacroName(t, tok) || tok.text in hidden {
        ObjectsExpand(t, hidden, tokens, i + 1, result + [tok]);
      } else {
        HidingShrinks(t, hidden, tok.text);
        var replacement := ReplacementOf(t.macros[tok.text]);
        PastedIs(t, replacement);
        ObjectsExpand(t, hidden + {tok.text}, WithoutPlaceholders(replacement), 0, []);
        var expanded := ExpandPasted(t, hidden + {tok.text}, replacement).value;
        ObjectsExpand(t, hidden, tokens, i + 1, result + expanded);
      }
    }
  }

  /** Tokens without macro names stay as they are, whatever the macros. */
  lemma {:induction false} NothingToExpand(t: Table, hidden: set<string>, tokens: seq<Token>, i: nat, result: seq<Token>)
    requires i <= |tokens| && NoMacroNames(t, tokens)
    ensures ExpandFrom(t, hidden, tokens, i, result) == Ok(result + tokens[i..])
    decreases |tokens| - i
  {
    if i < |tokens| {
      assert tokens[i] in tokens;
      NothingToExpand(t, hidden, tokens, i + 1, result + [tokens[i]]);
      assert result + [tokens[i]] + tokens[i + 1..] == result + tokens[i..];
    } else {
      assert result + tokens[i..] == result;
    }
  }

  /** A name that leads to a hidden macro leaves a macro name behind. */
  lemma {:induction false} CycleStays(t: Table, hidden: set<string>, tokens: seq<Token>, i: nat, result: seq<Token>,
                                      k: nat, z: string, n: nat)
    requires ObjectsOnly(t) && i <= k < |tokens| && tokens[k].kind.Identifier? && tokens[k].text in t.macros && z in hidden && z in t.macros
    requires tokens[k].text in hidden || ReachesIn(t, tokens[k].text, z, n)
    ensures ExpandFrom(t, hidden, tokens, i, result).Ok? && !NoMacroNames(t, ExpandFrom(t, hidden, tokens, i, result).value)
    decreases Unhidden(t, hidden), 0, |tokens| - i
  {
    ObjectsExpand(t, hidden, tokens, i, result);
    var tok := tokens[i];
    if !IsMacroName(t, tok) || tok.text in hidden {
      if k == i {
        ObjectsExpand(t, hidden, tokens, i + 1, result + [tok]);
        Contains(t, result + [tok], ExpandFrom(t, hidden, tokens, i + 1, result + [tok]).value, tok);
      } else {
        CycleStays(t, hidden, tokens, i + 1, result + [tok], k, z, n);
      }
    } else {
      HidingShrinks(t, hidden, tok.text);
      var expanded := ExpandPasted(t, hidden + {tok.text}, ReplacementOf(t.macros[tok.text])).value;
      if k == i {
        CycleInReplacement(t, hidden, tok, z, n);
        ObjectsExpand(t, hidden, tokens, i + 1, result + expanded);
        var x :| x in expanded && IsMacroName(t, x);
        Contains(t, result + expanded, ExpandFrom(t, hidden, tokens, i + 1, result + expanded).value, x);
      } else {
        CycleStays(t, hidden, tokens, i + 1, result + expanded, k, z, n);
      }
    }
  }

  lemma Contains(t: Table, part: seq<Token>, whole: seq<Token>, x: Token)
    requires part <= whole && x in part && IsMacroName(t, x)
    ensures !NoMacroNames(t, whole)
  {
    assert x in whole;
  }

  lemma {:induction false} CycleInReplacement(t: Table, hidden: set<string>, tok: Token, z: string, n: nat)
    requires ObjectsOnly(t) && IsMacroName(t, tok) && tok.text !in hidden && ReachesIn(t, tok.text, z, n)
    requires z in hidden + {tok.text} && z in t.macros
    ensures ExpandPasted(t, hidden + {tok.text}, ReplacementOf(t.macros[tok.text])).Ok?
    ensures !NoMacroNames(t, ExpandPasted(t, hidden + {tok.text}, ReplacementOf(t.macros[tok.text])).value)
    decreases Unhidden(t, hidden + {tok.text}), 1
  {
    var inner, replacement := hidden + {tok.text}, ReplacementOf(t.macros[tok.text]);
    var x: string;
    if n == 0 {
      x := z;
    } else {
      x :| Edge(t, tok.text, x) && ReachesIn(t, x, z, n - 1);
      EdgeFromMacro(t, x, z, n - 1);
    }
    var pasted := WithoutPlaceholders(replacement);
    PastedIs(t, replacement);
    PlaceholdersDropped(replacement, Token(Identifier, x));
    var k :| 0 <= k < |pasted| && pasted[k] == Token(Identifier, x);
    CycleStays(t, inner, pasted, 0, [], k, z, if n == 0 then 0 else n - 1);
  }

  lemma EdgeFromMacro(t: Table, x: string, z: string, n: nat)
    requires ReachesIn(t, x, z, n)
    ensures x in t.macros
  {
    if n > 0 {
      var y :| Edge(t, x, y) && ReachesIn(t, y, z, n - 1);
    }
  }

  /** Everything is expanded to tokens without macro names. */
  ghost predicate AllVanish(t: Table) {
    forall tokens | PasteFree(tokens) :: Vanish(t, tokens)
  }

  ghost predicate Vanish(t: Table, tokens: seq<Token>) {
    Expand(t, tokens).Ok? && NoMacroNames(t, Expand(t, tokens).value)
  }

  /** Among object-like macros, no macro names are left over exactly if no macro leads back to itself. */
  lemma NamesVanishIffAcyclic(t: Table)
    requires ObjectsOnly(t)
    ensures AllVanish(t) <==> Acyclic(t)
  {
    if Acyclic(t) {
      forall tokens | PasteFree(tokens)
        ensures Vanish(t, tokens)
      {
        ObjectsExpand(t, {}, tokens, 0, []);
        LeftoversAreOnCycles(t, tokens);
      }
    } else {
      var m :| m in t.macros && Reaches(t, m, m);
      CyclicStays(t, m);
      assert PasteFree([Token(Identifier, m)]);
    }
  }

  /** A macro that leads back to itself leaves a name. */
  lemma CyclicStays(t: Table, m: string)
    requires ObjectsOnly(t) && m in t.macros && Reaches(t, m, m)
    ensures !Vanish(t, [Token(Identifier, m)])
  {
    var n: nat :| ReachesIn(t, m, m, n);
    var tokens := [Token(Identifier, m)];
    assert tokens[0] == Token(Identifier, m);
    CycleInReplacement(t, {}, tokens[0], m, n);
    var expanded := ExpandPasted(t, {} + {m}, ReplacementOf(t.macros[m])).value;
    assert ExpandFrom(t, {}, tokens, 0, []) == ExpandFrom(t, {}, tokens, 1, [] + expanded);
    assert ExpandFrom(t, {}, tokens, 1, [] + expanded) == Ok([] + expanded);
    assert [] + expanded == expanded;
  }

  /** Then expanding again changes nothing. */
  lemma ExpandingAgain(t: Table, tokens: seq<Token>)
    requires ObjectsOnly(t) && Acyclic(t) && PasteFree(tokens)
    ensures Expand(t, tokens).Ok? && Expand(t, Expand(t, tokens).value) == Expand(t, tokens)
  {
    NamesVanishIffAcyclic(t);
    assert Vanish(t, tokens);
    var out := Expand(t, tokens).value;
    NothingToExpand(t, {}, out, 0, []);
    assert [] + out[0..] == out;
  }
}
