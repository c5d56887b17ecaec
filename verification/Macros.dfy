/** Macro expansion (pkg/cpp/expand.go): argument substitution, stringification, token pasting and the hide set.
    What pasted text is as tokens, and what built-in macros yield, is up to the environment. */
module Macros {
  import opened Values

  datatype Kind =
    | Identifier | Number | CharConst | Str | Punctuator | Hash | HashHash | Newline | Whitespace | HeaderName | Placeholder

  datatype Token = Token(kind: Kind, text: string) {
    predicate Is(s: string) {
      kind.Punctuator? && text == s
    }
  }

  datatype Macro =
    | Object(replacement: seq<Token>)
    | Function(params: seq<string>, isVariadic: bool, replacement: seq<Token>)
    | Builtin(result: Option<seq<Token>>)  // None: no implementation

  /** The macros by name, and the lexer. */
  datatype Table = Table(macros: map<string, Macro>, retokenize: string -> seq<Token>)

  datatype Error = Unterminated | WrongArgCount | PasteAtStart | PasteAtEnd | NoImplementation

  datatype Result<T> = Ok(value: T) | Err(error: Error)

  // --- Tokens ---

  /** The first index from i on without white space. */
  function SkipWhitespace(tokens: seq<Token>, i: nat): (j: nat)
    requires i <= |tokens|
    ensures i <= j <= |tokens| && (j < |tokens| ==> !tokens[j].kind.Whitespace?)
    decreases |tokens| - i
  {
    if i < |tokens| && tokens[i].kind.Whitespace? then SkipWhitespace(tokens, i + 1) else i
  }

  /** The last index down to low that follows something else than white space. */
  function DropWhitespace(tokens: seq<Token>, low: nat, end: nat): (j: nat)
    requires low <= end <= |tokens|
    ensures low <= j <= end
    decreases end
  {
    if end > low && tokens[end - 1].kind.Whitespace? then DropWhitespace(tokens, low, end - 1) else end
  }

  function Trim(tokens: seq<Token>): seq<Token> {
    var start := SkipWhitespace(tokens, 0);
    tokens[start..DropWhitespace(tokens, start, |tokens|)]
  }

  // --- Arguments ---

  predicate CountOk(m: Macro, n: nat)
    requires m.Function?
  {
    if m.isVariadic then n >= |m.params| else n == |m.params|
  }

  /** The arguments, and the index of the closing parenthesis; args and current are those read so far. */
  function ParseArguments(m: Macro, tokens: seq<Token>, i: nat, depth: nat, args: seq<seq<Token>>, current: seq<Token>)
    : (r: Result<(seq<seq<Token>>, nat)>)
    requires m.Function? && i <= |tokens| && depth >= 1
    ensures r.Ok? ==> i <= r.value.1 < |tokens|
    decreases |tokens| - i
  {
    if i == |tokens| then Err(Unterminated)
    else
      var tok := tokens[i];
      if tok.Is("(") then ParseArguments(m, tokens, i + 1, depth + 1, args, current + [tok])
      else if tok.Is(")") && depth == 1 then
        var all := if current != [] || args != [] then args + [Trim(current)] else args;
        if CountOk(m, |all|) then Ok((all, i)) else Err(WrongArgCount)
      else if tok.Is(")") then ParseArguments(m, tokens, i + 1, depth - 1, args, current + [tok])
      else if tok.Is(",") && depth == 1 then ParseArguments(m, tokens, i + 1, depth, args + [Trim(current)], [])
      else ParseArguments(m, tokens, i + 1, depth, args, current + [tok])
  }

  const COMMA: Token := Token(Punctuator, ",")
  const SPACE: Token := Token(Whitespace, " ")

  /** The arguments joined by commas. */
  function Join(args: seq<seq<Token>>): seq<Token> {
    if args == [] then []
    else if |args| == 1 then args[0]
    else Join(args[..|args| - 1]) + [COMMA, SPACE] + args[|args| - 1]
  }

  type ParamMap = map<string, seq<Token>>

  /** What the first k parameters stand for; a missing argument is empty. */
  function BindParams(params: seq<string>, args: seq<seq<Token>>, k: nat): ParamMap
    requires k <= |params|
  {
    if k == 0 then map[]
    else BindParams(params, args, k - 1)[params[k - 1] := if k - 1 < |args| then args[k - 1] else []]
  }

  function Bind(m: Macro, args: seq<seq<Token>>): ParamMap
    requires m.Function?
  {
    var bound := BindParams(m.params, args, |m.params|);
    if m.isVariadic then bound["__VA_ARGS__" := if |args| <= |m.params| then [] else Join(args[|m.params|..])] else bound
  }

  // --- Stringification ---

  function Escape(text: string): string {
    if text == "" then ""
    else
      var c := text[|text| - 1];
      Escape(text[..|text| - 1]) + if c == '"' || c == '\\' then ['\\', c] else [c]
  }

  /** The text of tokens from i on, after sb; white space is one blank. */
  function Spell(tokens: seq<Token>, i: nat, sb: string, lastWasSpace: bool): string
    requires i <= |tokens|
    decreases |tokens| - i
  {
    if i == |tokens| then sb
    else if tokens[i].kind.Whitespace? || tokens[i].kind.Newline? then
      Spell(tokens, i + 1, if lastWasSpace then sb else sb + " ", true)
    else
      var text := tokens[i].text;
      Spell(tokens, i + 1, sb + if tokens[i].kind.Str? || tokens[i].kind.CharConst? then Escape(text) else text, false)
  }

  function Stringify(tokens: seq<Token>): Token {
    var s := Spell(tokens, 0, "\"", true);
    Token(Str, (if s != "" && s[|s| - 1] == ' ' then s[..|s| - 1] else s) + "\"")
  }

  // --- Pasting ---

  /** Tokens from i on, after result, with the operators ## carried out. */
  function PasteFrom(t: Table, tokens: seq<Token>, i: nat, result: seq<Token>): Result<seq<Token>>
    requires i <= |tokens|
    decreases |tokens| - i
  {
    if i == |tokens| then Ok(result)
    else if !tokens[i].kind.HashHash? then PasteFrom(t, tokens, i + 1, result + [tokens[i]])
    else if result == [] then Err(PasteAtStart)
    else
      var next := SkipWhitespace(tokens, i + 1);
      var left := DropWhitespace(result, 0, |result|);
      if next == |tokens| then Err(PasteAtEnd)
      else if left == 0 then Err(PasteAtStart)
      else PasteFrom(t, tokens, next + 1, result[..left - 1] + Pasted(t, result[left - 1], tokens[next]))
  }

  function Pasted(t: Table, left: Token, right: Token): seq<Token> {
    if left.kind.Placeholder? then [right]
    else if right.kind.Placeholder? then [left]
    else
      var tokens := t.retokenize(left.text + right.text);
      if tokens == [] then [Token(Placeholder, "")] else tokens
  }

  function WithoutPlaceholders(tokens: seq<Token>): seq<Token> {
    if tokens == [] then []
    else WithoutPlaceholders(tokens[..|tokens| - 1]) + if tokens[|tokens| - 1].kind.Placeholder? then [] else [tokens[|tokens| - 1]]
  }

  function HandlePasting(t: Table, tokens: seq<Token>): Result<seq<Token>> {
    match PasteFrom(t, tokens, 0, [])
    case Ok(pasted) => Ok(WithoutPlaceholders(pasted))
    case Err(e) => Err(e)
  }

  // --- Expansion ---

  /** How many macros are not hidden. */
  function Unhidden(t: Table, hidden: set<string>): nat {
    |t.macros.Keys - hidden|
  }

  lemma HidingShrinks(t: Table, hidden: set<string>, name: string)
    requires name in t.macros && name !in hidden
    ensures Unhidden(t, hidden + {name}) < Unhidden(t, hidden)
  {
    assert t.macros.Keys - (hidden + {name}) == t.macros.Keys - hidden - {name};
  }

  predicate IsMacroName(t: Table, tok: Token) {
    tok.kind.Identifier? && tok.text in t.macros
  }

  /** Whether a name followed by the tokens from i on is called. */
  function CallParen(tokens: seq<Token>, i: nat): Option<nat>
    requires i <= |tokens|
  {
    var paren := SkipWhitespace(tokens, i);
    if paren < |tokens| && tokens[paren].Is("(") then Some(paren) else None
  }

  /** Tokens from i on, expanded, after result. */
  function ExpandFrom(t: Table, hidden: set<string>, tokens: seq<Token>, i: nat, result: seq<Token>): Result<seq<Token>>
    requires i <= |tokens|
    decreases Unhidden(t, hidden), 0, |tokens| - i
  {
    if i == |tokens| then Ok(result)
    else
      var tok := tokens[i];
      if !IsMacroName(t, tok) || tok.text in hidden then ExpandFrom(t, hidden, tokens, i + 1, result + [tok])
      else
        HidingShrinks(t, hidden, tok.text);
        match t.macros[tok.text]
        case Builtin(r) =>
          (match r
           case Some(expanded) => ExpandFrom(t, hidden, tokens, i + 1, result + expanded)
           case None => Err(NoImplementation))
        case Object(replacement) =>
          (match ExpandPasted(t, hidden + {tok.text}, replacement)
           case Ok(expanded) => ExpandFrom(t, hidden, tokens, i + 1, result + expanded)
           case Err(e) => Err(e))
        case Function(_, _, _) =>
          match CallParen(tokens, i + 1)
          case None => ExpandFrom(t, hidden, tokens, i + 1, result + [tok])
          case Some(paren) =>
            match ParseArguments(t.macros[tok.text], tokens, paren + 1, 1, [], [])
            case Err(e) => Err(e)
            case Ok((args, end)) =>
              match ExpandCall(t, hidden + {tok.text}, t.macros[tok.text], args)
              case Ok(expanded) => ExpandFrom(t, hidden, tokens, end + 1, result + expanded)
              case Err(e) => Err(e)
  }

  /** Pasting, then expanding again. */
  function ExpandPasted(t: Table, hidden: set<string>, tokens: seq<Token>): Result<seq<Token>>
    decreases Unhidden(t, hidden), 2
  {
    match HandlePasting(t, tokens)
    case Ok(pasted) => ExpandFrom(t, hidden, pasted, 0, [])
    case Err(e) => Err(e)
  }

  function ExpandCall(t: Table, hidden: set<string>, m: Macro, args: seq<seq<Token>>): Result<seq<Token>>
    requires m.Function?
    decreases Unhidden(t, hidden), 3
  {
    match Substitute(t, hidden, Bind(m, args), m.replacement, 0, [])
    case Ok(tokens) => ExpandPasted(t, hidden, tokens)
    case Err(e) => Err(e)
  }

  function StringifiedParam(params: ParamMap, replacement: seq<Token>, i: nat): Option<nat>
    requires i < |replacement|
    ensures StringifiedParam(params, replacement, i).Some? ==>
      var k := StringifiedParam(params, replacement, i).value; i < k < |replacement| && replacement[k].text in params
  {
    if !replacement[i].Is("#") && !replacement[i].kind.Hash? then None
    else
      var next := SkipWhitespace(replacement, i + 1);
      if next < |replacement| && replacement[next].kind.Identifier? && replacement[next].text in params then Some(next) else None
  }

  predicate NextToPaste(replacement: seq<Token>, i: nat)
    requires i < |replacement|
  {
    (i > 0 && replacement[i - 1].kind.HashHash?) || (i + 1 < |replacement| && replacement[i + 1].kind.HashHash?)
  }

  /** The replacement from i on, after result, with parameters replaced. */
  function Substitute(t: Table, hidden: set<string>, params: ParamMap, replacement: seq<Token>, i: nat, result: seq<Token>)
    : Result<seq<Token>>
    requires i <= |replacement|
    decreases Unhidden(t, hidden), 1, |replacement| - i
  {
    if i == |replacement| then Ok(result)
    else
      var tok := replacement[i];
      match StringifiedParam(params, replacement, i)
      case Some(k) => Substitute(t, hidden, params, replacement, k + 1, result + [Stringify(params[replacement[k].text])])
      case None =>
        if tok.kind.Identifier? && tok.text in params then
          if NextToPaste(replacement, i) then Substitute(t, hidden, params, replacement, i + 1, result + params[tok.text])
          else
            match ExpandFrom(t, hidden, params[tok.text], 0, [])
            case Ok(expanded) => Substitute(t, hidden, params, replacement, i + 1, result + expanded)
            case Err(e) => Err(e)
        else
          Substitute(t, hidden, params, replacement, i + 1, result + [tok])
  }

  function Expand(t: Table, tokens: seq<Token>): Result<seq<Token>> {
    ExpandFrom(t, {}, tokens, 0, [])
  }

  /** Goes on behind an expansion. */
  function Resume(t: Table, hidden: set<string>, tokens: seq<Token>, next: nat, result: seq<Token>, expanded: Result<seq<Token>>)
    : Result<seq<Token>>
    requires next <= |tokens|
  {
    match expanded
    case Ok(more) => ExpandFrom(t, hidden, tokens, next, result + more)
    case Err(e) => Err(e)
  }

  // --- The expander ---

  /** Expands with a hide set that every expansion adds its macro to, and takes it out of again. */
  class Expander {
    const table: Table
    var hideset: set<string>

    constructor (table: Table)
      ensures this.table == table && hideset == {}
    {
      this.table := table;
      hideset := {};
    }

    method ExpandTokens(tokens: seq<Token>) returns (r: Result<seq<Token>>)
      modifies this
      ensures r == ExpandFrom(table, old(hideset), tokens, 0, []) && hideset == old(hideset)
      decreases Unhidden(table, hideset), 0
    {
      var result: seq<Token> := [];
      var i := 0;
      while i < |tokens|
        invariant i <= |tokens| && hideset == old(hideset)
        invariant ExpandFrom(table, hideset, tokens, 0, []) == ExpandFrom(table, hideset, tokens, i, result)
        decreases |tokens| - i
      {
        var tok := tokens[i];
        if !IsMacroName(table, tok) || tok.text in hideset {
          result := result + [tok];
          i := i + 1;
        } else {
          HidingShrinks(table, hideset, tok.text);
          var expanded, next := ExpandMacro(tokens, i);
          if expanded.Err? {
            return expanded;
          }
          result := result + expanded.value;
          i := next;
        }
      }
      r := Ok(result);
    }

    /** Expands the macro named by token i; the expansion goes on at next. */
    method ExpandMacro(tokens: seq<Token>, i: nat) returns (expanded: Result<seq<Token>>, next: nat)
      requires i < |tokens| && IsMacroName(table, tokens[i]) && tokens[i].text !in hideset
      requires Unhidden(table, hideset + {tokens[i].text}) < Unhidden(table, hideset)
      modifies this
      ensures hideset == old(hideset) && i < next <= |tokens|
      ensures forall result :: ExpandFrom(table, hideset, tokens, i, result) == Resume(table, hideset, tokens, next, result, expanded)
      decreases Unhidden(table, hideset + {tokens[i].text}), 5
    {
      var tok := tokens[i];
      next := i + 1;
      match table.macros[tok.text] {
        case Builtin(r) =>
          expanded := if r.Some? then Ok(r.value) else Err(NoImplementation);
        case Object(_) =>
          expanded := ExpandObjectMacro(tok.text);
        case Function(_, _, _) =>
          var paren := FindParen(tokens, i + 1);
          if paren == None {
            expanded := Ok([tok]);
          } else {
            var arguments := ReadArguments(table.macros[tok.text], tokens, paren.value + 1);
            if arguments.Err? {
              expanded := Err(arguments.error);
            } else {
              expanded := ExpandFunctionMacro(tok.text, arguments.value.0);
              next := arguments.value.1 + 1;
            }
          }
      }
    }

    method ExpandObjectMacro(name: string) returns (r: Result<seq<Token>>)
      requires name in table.macros && name !in hideset && table.macros[name].Object?
      modifies this
      ensures r == ExpandPasted(table, old(hideset) + {name}, table.macros[name].replacement) && hideset == old(hideset)
      decreases Unhidden(table, hideset + {name}), 4
    {
      hideset := hideset + {name};
      r := PasteAndExpand(table.macros[name].replacement);
      hideset := hideset - {name};
    }

    method ExpandFunctionMacro(name: string, args: seq<seq<Token>>) returns (r: Result<seq<Token>>)
      requires name in table.macros && name !in hideset && table.macros[name].Function?
      modifies this
      ensures r == ExpandCall(table, old(hideset) + {name}, table.macros[name], args) && hideset == old(hideset)
      decreases Unhidden(table, hideset + {name}), 4
    {
      hideset := hideset + {name};
      var m := table.macros[name];
      var params := BindAll(m, args);
      r := SubstituteParams(params, m.replacement);
      if r.Ok? {
        r := PasteAndExpand(r.value);
      }
      hideset := hideset - {name};
    }

    method PasteAndExpand(tokens: seq<Token>) returns (r: Result<seq<Token>>)
      modifies this
      ensures r == ExpandPasted(table, old(hideset), tokens) && hideset == old(hideset)
      decreases Unhidden(table, hideset), 3
    {
      r := PasteTokens(table, tokens);
      if r.Ok? {
        r := ExpandTokens(r.value);
      }
    }

    method SubstituteParams(params: ParamMap, replacement: seq<Token>) returns (r: Result<seq<Token>>)
      modifies this
      ensures r == Substitute(table, old(hideset), params, replacement, 0, []) && hideset == old(hideset)
      decreases Unhidden(table, hideset), 1
    {
      var result: seq<Token> := [];
      var i := 0;
      while i < |replacement|
        invariant i <= |replacement| && hideset == old(hideset)
        invariant Substitute(table, hideset, params, replacement, 0, []) == Substitute(table, hideset, params, replacement, i, result)
        decreases |replacement| - i
      {
        var tok := replacement[i];
        var stringified := StringifiedParam(params, replacement, i);
        if stringified.Some? {
          result := result + [Stringify(params[replacement[stringified.value].text])];
          i := stringified.value + 1;
        } else if tok.kind.Identifier? && tok.text in params {
          if NextToPaste(replacement, i) {
            result := result + params[tok.text];
          } else {
            var expanded := ExpandTokens(params[tok.text]);
            if expanded.Err? {
              return expanded;
            }
            result := result + expanded.value;
          }
          i := i + 1;
        } else {
          result := result + [tok];
          i := i + 1;
        }
      }
      r := Ok(result);
    }
  }

  method FindParen(tokens: seq<Token>, i: nat) returns (paren: Option<nat>)
    requires i <= |tokens|
    ensures paren == CallParen(tokens, i)
  {
    var k := i;
    while k < |tokens| && tokens[k].kind.Whitespace?
      invariant i <= k <= |tokens| && SkipWhitespace(tokens, i) == SkipWhitespace(tokens, k)
    {
      k := k + 1;
    }
    paren := if k < |tokens| && tokens[k].Is("(") then Some(k) else None;
  }

  method ReadArguments(m: Macro, tokens: seq<Token>, start: nat) returns (r: Result<(seq<seq<Token>>, nat)>)
    requires m.Function? && start <= |tokens|
    ensures r == ParseArguments(m, tokens, start, 1, [], [])
  {
    var args: seq<seq<Token>>, current: seq<Token>, depth: nat := [], [], 1;
    var i := start;
    while i < |tokens|
      invariant start <= i <= |tokens| && depth >= 1
      invariant ParseArguments(m, tokens, start, 1, [], []) == ParseArguments(m, tokens, i, depth, args, current)
    {
      var tok := tokens[i];
      if tok.Is("(") {
        depth := depth + 1;
        current := current + [tok];
      } else if tok.Is(")") {
        if depth == 1 {
          if |current| > 0 || |args| > 0 {
            args := args + [Trim(current)];
          }
          return if CountOk(m, |args|) then Ok((args, i)) else Err(WrongArgCount);
        }
        depth := depth - 1;
        current := current + [tok];
      } else if tok.Is(",") && depth == 1 {
        args := args + [Trim(current)];
        current := [];
      } else {
        current := current + [tok];
      }
      i := i + 1;
    }
    r := Err(Unterminated);
  }

  method BindAll(m: Macro, args: seq<seq<Token>>) returns (params: ParamMap)
    requires m.Function?
    ensures params == Bind(m, args)
  {
    params := map[];
    for k := 0 to |m.params|
      invariant params == BindParams(m.params, args, k)
    {
      params := params[m.params[k] := if k < |args| then args[k] else []];
    }
    if m.isVariadic {
      var vaArgs := JoinArgs(if |args| <= |m.params| then [] else args[|m.params|..]);
      params := params["__VA_ARGS__" := vaArgs];
    }
  }

  method JoinArgs(args: seq<seq<Token>>) returns (result: seq<Token>)
    ensures result == Join(args)
  {
    result := [];
    for i := 0 to |args|
      invariant result == Join(args[..i])
    {
      assert args[..i + 1][..i] == args[..i];
      if i > 0 {
        result := result + [COMMA, SPACE];
      }
      result := result + args[i];
    }
    assert args[..|args|] == args;
  }

  method PasteTokens(t: Table, tokens: seq<Token>) returns (r: Result<seq<Token>>)
    ensures r == HandlePasting(t, tokens)
  {
    var result: seq<Token> := [];
    var i := 0;
    while i < |tokens|
      invariant i <= |tokens|
      invariant PasteFrom(t, tokens, 0, []) == PasteFrom(t, tokens, i, result)
    {
      if !tokens[i].kind.HashHash? {
        result := result + [tokens[i]];
        i := i + 1;
      } else {
        if |result| == 0 {
          return Err(PasteAtStart);
        }
        var next := SkipWhitespace(tokens, i + 1);
        if next == |tokens| {
          return Err(PasteAtEnd);
        }
        var left := DropWhitespace(result, 0, |result|);
        if left == 0 {
          return Err(PasteAtStart);
        }
        result := result[..left - 1] + Pasted(t, result[left - 1], tokens[next]);
        i := next + 1;
      }
    }
    r := Ok(WithoutPlaceholders(result));
  }

  method ExpandAll(t: Table, tokens: seq<Token>) returns (r: Result<seq<Token>>)
    ensures r == Expand(t, tokens)
  {
    var e := new Expander(t);
    r := e.ExpandTokens(tokens);
  }
}
