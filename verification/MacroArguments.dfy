/** What the arguments of a macro call are (pkg/cpp/expand.go, parseArguments and the start of expandFunctionMacro). */
module MacroArguments {
  import opened Values
  import opened Macros

  // --- White space around an argument ---

  predicate AllWhite(tokens: seq<Token>) {
    forall tok | tok in tokens :: tok.kind.Whitespace?
  }

  ghost predicate IsTrimmedBy(raw: seq<Token>, lead: seq<Token>, arg: seq<Token>, trail: seq<Token>) {
    && raw == lead + (arg + trail) && AllWhite(lead) && AllWhite(trail)
    && (arg != [] ==> !arg[0].kind.Whitespace? && !arg[|arg| - 1].kind.Whitespace?)
  }

  /** The argument is what is left without the white space at both ends. */
  ghost predicate IsTrimmed(raw: seq<Token>, arg: seq<Token>) {
    exists lead, trail :: IsTrimmedBy(raw, lead, arg, trail)
  }

  lemma {:induction false} SkipsTo(tokens: seq<Token>, i: nat, k: nat)
    requires i <= k <= |tokens| && AllWhite(tokens[i..k]) && (k < |tokens| ==> !tokens[k].kind.Whitespace?)
    ensures SkipWhitespace(tokens, i) == k
    decreases k - i
  {
    if i < k {
      assert tokens[i] == tokens[i..k][0];
      assert tokens[i + 1..k] == tokens[i..k][1..];
      SkipsTo(tokens, i + 1, k);
    }
  }

  lemma {:induction false} SkipsWhite(tokens: seq<Token>, i: nat)
    requires i <= |tokens|
    ensures AllWhite(tokens[i..SkipWhitespace(tokens, i)])
    decreases |tokens| - i
  {
    var j := SkipWhitespace(tokens, i);
    if i < j {
      SkipsWhite(tokens, i + 1);
      assert tokens[i..j] == [tokens[i]] + tokens[i + 1..j];
    }
  }

  lemma {:induction false} DropsTo(tokens: seq<Token>, low: nat, k: nat, end: nat)
    requires low <= k <= end <= |tokens| && AllWhite(tokens[k..end]) && (k > low ==> !tokens[k - 1].kind.Whitespace?)
    ensures DropWhitespace(tokens, low, end) == k
    decreases end
  {
    if k < end {
      assert tokens[end - 1] == tokens[k..end][end - 1 - k];
      assert tokens[k..end - 1] == tokens[k..end][..end - 1 - k];
      DropsTo(tokens, low, k, end - 1);
    }
  }

  lemma {:induction false} DropsWhite(tokens: seq<Token>, low: nat, end: nat)
    requires low <= end <= |tokens|
    ensures var j := DropWhitespace(tokens, low, end);
      AllWhite(tokens[j..end]) && (j > low ==> !tokens[j - 1].kind.Whitespace?)
    decreases end
  {
    var j := DropWhitespace(tokens, low, end);
    if j < end {
      DropsWhite(tokens, low, end - 1);
      assert tokens[j..end] == tokens[j..end - 1] + [tokens[end - 1]];
    }
  }

  /** Trimming yields exactly that. */
  lemma TrimIs(raw: seq<Token>, arg: seq<Token>)
    ensures IsTrimmed(raw, arg) <==> arg == Trim(raw)
  {
    if IsTrimmed(raw, arg) {
      var lead, trail :| IsTrimmedBy(raw, lead, arg, trail);
      TrimmedIsTrim(raw, lead, arg, trail);
    }
    TrimTrims(raw);
  }

  lemma InThree(raw: seq<Token>, start: nat, end: nat)
    requires start <= end <= |raw|
    ensures raw == raw[0..start] + (raw[start..end] + raw[end..|raw|])
  {
  }

  lemma TrimTrims(raw: seq<Token>)
    ensures IsTrimmed(raw, Trim(raw))
  {
    var start := SkipWhitespace(raw, 0);
    var end := DropWhitespace(raw, start, |raw|);
    SkipsWhite(raw, 0);
    DropsWhite(raw, start, |raw|);
    SliceIsTrimmed(raw, start, end);
  }

  lemma SliceIsTrimmed(raw: seq<Token>, start: nat, end: nat)
    requires start <= end <= |raw| && AllWhite(raw[0..start]) && AllWhite(raw[end..|raw|])
    requires start < end ==> !raw[start].kind.Whitespace? && !raw[end - 1].kind.Whitespace?
    ensures IsTrimmed(raw, raw[start..end])
  {
    var lead, arg, trail := raw[0..start], raw[start..end], raw[end..|raw|];
    InThree(raw, start, end);
    assert arg != [] ==> arg[0] == raw[start] && arg[|arg| - 1] == raw[end - 1];
    assert IsTrimmedBy(raw, lead, arg, trail);
  }

  lemma TrimmedIsTrim(raw: seq<Token>, lead: seq<Token>, arg: seq<Token>, trail: seq<Token>)
    requires IsTrimmedBy(raw, lead, arg, trail)
    ensures arg == Trim(raw)
  {
    var n, k := |lead|, |lead + arg|;
    assert raw[0..n] == lead && raw[n..k] == arg && raw[k..|raw|] == trail;
    if arg == [] {
      assert AllWhite(raw[0..|raw|]);
      SkipsTo(raw, 0, |raw|);
    } else {
      assert raw[n] == arg[0] && raw[k - 1] == arg[|arg| - 1];
      SkipsTo(raw, 0, n);
      DropsTo(raw, n, k, |raw|);
    }
  }

  // --- Arguments between commas ---

  /** The parentheses that are open after the tokens. */
  function Depth(tokens: seq<Token>): int {
    if tokens == [] then 0
    else
      var tok := tokens[|tokens| - 1];
      Depth(tokens[..|tokens| - 1]) + if tok.Is("(") then 1 else if tok.Is(")") then -1 else 0
  }

  /** Nothing is closed that was not opened, and commas are in parentheses. */
  ghost predicate IsInside(tokens: seq<Token>, k: nat)
    requires k < |tokens|
  {
    Depth(tokens[..k]) >= 0 && (tokens[k].Is(",") ==> Depth(tokens[..k]) > 0)
  }

  ghost predicate IsOpen(tokens: seq<Token>, depth: nat) {
    Depth(tokens) == depth && forall k: nat | k < |tokens| :: IsInside(tokens, k)
  }

  /** The tokens of one argument. */
  ghost predicate IsPiece(tokens: seq<Token>) {
    IsOpen(tokens, 0)
  }

  /** The pieces with a comma between every two. */
  function Separated(pieces: seq<seq<Token>>): seq<Token>
    requires pieces != []
  {
    if |pieces| == 1 then pieces[0] else pieces[0] + ([COMMA] + Separated(pieces[1..]))
  }

  /** The tokens from start to the closing parenthesis at end are the pieces, between commas. */
  ghost predicate ArePieces(tokens: seq<Token>, start: nat, end: nat, pieces: seq<seq<Token>>) {
    && start <= end < |tokens| && tokens[end].Is(")")
    && pieces != [] && (forall p | p in pieces :: IsPiece(p)) && Separated(pieces) == tokens[start..end]
  }

  function Trims(pieces: seq<seq<Token>>): seq<seq<Token>> {
    if pieces == [] then [] else [Trim(pieces[0])] + Trims(pieces[1..])
  }

  /** Nothing at all between the parentheses is no argument; otherwise the arguments are the trimmed pieces. */
  ghost predicate AreArguments(pieces: seq<seq<Token>>, args: seq<seq<Token>>) {
    if pieces == [[]] then args == []
    else |args| == |pieces| && forall i | 0 <= i < |pieces| :: IsTrimmed(pieces[i], args[i])
  }

  lemma DepthAppend(tokens: seq<Token>, tok: Token)
    ensures Depth(tokens + [tok]) == Depth(tokens) + if tok.Is("(") then 1 else if tok.Is(")") then -1 else 0
  {
    assert (tokens + [tok])[..|tokens|] == tokens;
  }

  /** One more token of the same argument. */
  lemma StaysOpen(current: seq<Token>, depth: nat, tok: Token)
    requires IsOpen(current, depth) && (tok.Is(",") ==> depth > 0) && (tok.Is(")") ==> depth > 0)
    ensures IsOpen(current + [tok], if tok.Is("(") then depth + 1 else if tok.Is(")") then depth - 1 else depth)
  {
    DepthAppend(current, tok);
    forall k: nat | k < |current + [tok]|
      ensures IsInside(current + [tok], k)
    {
      assert (current + [tok])[..k] == if k < |current| then current[..k] else current;
      if k < |current| { assert IsInside(current, k); }
    }
  }

  /** How the arguments read so far go on. */
  ghost predicate GoesOn(args0: seq<seq<Token>>, pieces: seq<seq<Token>>, args: seq<seq<Token>>) {
    args == if args0 == [] && pieces == [[]] then [] else args0 + Trims(pieces)
  }

  lemma Regroup<T>(a: seq<T>, b: seq<T>, c: seq<T>)
    ensures a + b + c == a + (b + c)
  {
  }

  lemma SeparatedBefore(piece: seq<Token>, rest: seq<seq<Token>>)
    requires rest != []
    ensures Separated([piece] + rest) == piece + ([COMMA] + Separated(rest))
  {
    assert ([piece] + rest)[1..] == rest;
  }

  lemma GoesOnBefore(args0: seq<seq<Token>>, piece: seq<Token>, rest: seq<seq<Token>>, args: seq<seq<Token>>)
    requires rest != [] && GoesOn(args0 + [Trim(piece)], rest, args)
    ensures GoesOn(args0, [piece] + rest, args)
  {
    assert ([piece] + rest)[1..] == rest;
    Regroup(args0, [Trim(piece)], Trims(rest));
  }

  lemma FirstOf(tokens: seq<Token>, i: nat, end: nat)
    requires i < end <= |tokens|
    ensures tokens[i..end] == [tokens[i]] + tokens[i + 1..end]
  {
  }

  lemma OnePiece(pieces: seq<seq<Token>>)
    requires |pieces| == 1
    ensures Trims(pieces) == [Trim(pieces[0])] && pieces == [pieces[0]]
  {
    assert pieces[1..] == [];
  }

  lemma NothingLeft(current: seq<Token>, rest: seq<Token>)
    requires current == current + rest
    ensures rest == []
  {
    assert |rest| == 0;
  }

  /** The rest of the call, after the arguments args0 and the tokens current, consists of the pieces. */
  ghost predicate HasPieces(m: Macro, tokens: seq<Token>, i: nat, end: nat, args0: seq<seq<Token>>, current: seq<Token>,
                            args: seq<seq<Token>>, pieces: seq<seq<Token>>)
    requires m.Function? && i <= end < |tokens|
  {
    && tokens[end].Is(")") && pieces != [] && (forall p | p in pieces :: IsPiece(p))
    && Separated(pieces) == current + tokens[i..end] && GoesOn(args0, pieces, args) && CountOk(m, |args|)
  }

  lemma OneTokenBefore(m: Macro, tokens: seq<Token>, i: nat, end: nat, args0: seq<seq<Token>>, current: seq<Token>,
                       args: seq<seq<Token>>, pieces: seq<seq<Token>>)
    requires m.Function? && i < end < |tokens| && HasPieces(m, tokens, i + 1, end, args0, current + [tokens[i]], args, pieces)
    ensures HasPieces(m, tokens, i, end, args0, current, args, pieces)
  {
    FirstOf(tokens, i, end);
    Regroup(current, [tokens[i]], tokens[i + 1..end]);
  }

  lemma OnePieceBefore(m: Macro, tokens: seq<Token>, i: nat, end: nat, args0: seq<seq<Token>>, current: seq<Token>,
                       args: seq<seq<Token>>, rest: seq<seq<Token>>)
    requires m.Function? && i < end < |tokens| && tokens[i] == COMMA && IsPiece(current)
    requires HasPieces(m, tokens, i + 1, end, args0 + [Trim(current)], [], args, rest)
    ensures HasPieces(m, tokens, i, end, args0, current, args, [current] + rest)
  {
    FirstOf(tokens, i, end);
    SeparatedBefore(current, rest);
    GoesOnBefore(args0, current, rest, args);
    assert [] + tokens[i + 1..end] == tokens[i + 1..end];
  }

  lemma {:induction false} ParsedHasPieces(m: Macro, tokens: seq<Token>, i: nat, depth: nat, args0: seq<seq<Token>>, current: seq<Token>)
    returns (pieces: seq<seq<Token>>)
    requires m.Function? && i <= |tokens| && depth >= 1 && IsOpen(current, depth - 1)
    requires ParseArguments(m, tokens, i, depth, args0, current).Ok?
    ensures var (args, end) := ParseArguments(m, tokens, i, depth, args0, current).value;
      HasPieces(m, tokens, i, end, args0, current, args, pieces)
    decreases |tokens| - i
  {
    var (args, end) := ParseArguments(m, tokens, i, depth, args0, current).value;
    var tok := tokens[i];
    if tok.Is(")") && depth == 1 {
      pieces := [current];
      OnePiece([current]);
      assert tokens[i..end] == [];
    } else if tok.Is(",") && depth == 1 {
      var rest := ParsedHasPieces(m, tokens, i + 1, depth, args0 + [Trim(current)], []);
      pieces := [current] + rest;
      OnePieceBefore(m, tokens, i, end, args0, current, args, rest);
    } else {
      StaysOpen(current, depth - 1, tok);
      var deeper := if tok.Is("(") then depth + 1 else if tok.Is(")") then depth - 1 else depth;
      assert ParseArguments(m, tokens, i, depth, args0, current) == ParseArguments(m, tokens, i + 1, deeper, args0, current + [tok]);
      pieces := ParsedHasPieces(m, tokens, i + 1, deeper, args0, current + [tok]);
      OneTokenBefore(m, tokens, i, end, args0, current, args, pieces);
    }
  }

  lemma {:induction false} PiecesAreParsed(m: Macro, tokens: seq<Token>, i: nat, depth: nat, args0: seq<seq<Token>>, current: seq<Token>,
                                           pieces: seq<seq<Token>>, end: nat)
    requires m.Function? && i <= end < |tokens| && tokens[end].Is(")") && depth >= 1 && IsOpen(current, depth - 1)
    requires pieces != [] && (forall p | p in pieces :: IsPiece(p)) && Separated(pieces) == current + tokens[i..end]
    requires current <= pieces[0]
    ensures var args := if args0 == [] && pieces == [[]] then [] else args0 + Trims(pieces);
      ParseArguments(m, tokens, i, depth, args0, current) == if CountOk(m, |args|) then Ok((args, end)) else Err(WrongArgCount)
    decreases end - i
  {
    assert pieces[0] in pieces;
    if |current| < |pieces[0]| {
      PieceGoesOn(tokens, i, depth, current, pieces, end);
      var tok := tokens[i];
      var deeper := if tok.Is("(") then depth + 1 else if tok.Is(")") then depth - 1 else depth;
      PiecesAreParsed(m, tokens, i + 1, deeper, args0, current + [tok], pieces, end);
    } else if |pieces| == 1 {
      assert current == pieces[0] && Separated(pieces) == pieces[0];
      OnePiece(pieces);
      NothingLeft(current, tokens[i..end]);
    } else {
      var rest := pieces[1..];
      CommaFollows(tokens, i, current, pieces, end);
      PiecesAreParsed(m, tokens, i + 1, depth, args0 + [Trim(current)], [], rest, end);
      Regroup(args0, [Trim(current)], Trims(rest));
    }
  }

  lemma PieceGoesOn(tokens: seq<Token>, i: nat, depth: nat, current: seq<Token>, pieces: seq<seq<Token>>, end: nat)
    requires i <= end < |tokens| && depth >= 1 && IsOpen(current, depth - 1)
    requires pieces != [] && IsPiece(pieces[0]) && Separated(pieces) == current + tokens[i..end]
    requires current <= pieces[0] && |current| < |pieces[0]|
    ensures i < end && current + [tokens[i]] <= pieces[0] && Separated(pieces) == current + [tokens[i]] + tokens[i + 1..end]
    ensures var tok := tokens[i];
      (tok.Is(",") || tok.Is(")") ==> depth > 1)
      && IsOpen(current + [tok], (if tok.Is("(") then depth + 1 else if tok.Is(")") then depth - 1 else depth) - 1)
  {
    var piece, n := pieces[0], |current|;
    assert piece[n] == Separated(pieces)[n] == tokens[i];
    assert piece[..n] == current && piece[..n + 1] == current + [tokens[i]];
    assert IsInside(piece, n);
    DepthAppend(current, tokens[i]);
    if n + 1 < |piece| {
      assert IsInside(piece, n + 1);
    } else {
      assert piece == current + [tokens[i]];
    }
    StaysOpen(current, depth - 1, tokens[i]);
    assert tokens[i..end] == [tokens[i]] + tokens[i + 1..end];
  }

  lemma CommaFollows(tokens: seq<Token>, i: nat, current: seq<Token>, pieces: seq<seq<Token>>, end: nat)
    requires i <= end < |tokens| && |pieces| > 1 && pieces[0] == current && Separated(pieces) == current + tokens[i..end]
    ensures i < end && tokens[i] == COMMA && Separated(pieces[1..]) == [] + tokens[i + 1..end]
  {
    var rest := [COMMA] + Separated(pieces[1..]);
    assert Separated(pieces)[|current|..] == rest && (current + tokens[i..end])[|current|..] == tokens[i..end];
    assert tokens[i..end][0] == COMMA;
    assert tokens[i + 1..end] == tokens[i..end][1..] == rest[1..];
  }

  /** The arguments of a call are exactly the pieces between the commas that are not in parentheses, without the white space at
      their ends; and there must be as many as there are parameters. */
  lemma ArgumentsIff(m: Macro, tokens: seq<Token>, start: nat, args: seq<seq<Token>>, end: nat)
    requires m.Function? && start <= |tokens|
    ensures ParseArguments(m, tokens, start, 1, [], []) == Ok((args, end))
      <==> CountOk(m, |args|) && exists pieces :: ArePieces(tokens, start, end, pieces) && AreArguments(pieces, args)
  {
    if ParseArguments(m, tokens, start, 1, [], []) == Ok((args, end)) {
      var pieces := ParsedHasPieces(m, tokens, start, 1, [], []);
      assert [] + tokens[start..end] == tokens[start..end];
      assert ArePieces(tokens, start, end, pieces);
      TrimsAreArguments(pieces, args);
      assert [] + Trims(pieces) == Trims(pieces);
    }
    if CountOk(m, |args|) && exists pieces :: ArePieces(tokens, start, end, pieces) && AreArguments(pieces, args) {
      var pieces :| ArePieces(tokens, start, end, pieces) && AreArguments(pieces, args);
      assert [] + tokens[start..end] == tokens[start..end];
      PiecesAreParsed(m, tokens, start, 1, [], [], pieces, end);
      TrimsAreArguments(pieces, args);
      assert [] + Trims(pieces) == Trims(pieces);
    }
  }

  lemma {:induction false} TrimsAt(pieces: seq<seq<Token>>)
    ensures |Trims(pieces)| == |pieces| && forall i | 0 <= i < |pieces| :: Trims(pieces)[i] == Trim(pieces[i])
  {
    if pieces != [] {
      TrimsAt(pieces[1..]);
    }
  }

  lemma TrimsAreArguments(pieces: seq<seq<Token>>, args: seq<seq<Token>>)
    ensures AreArguments(pieces, args) <==> args == if pieces == [[]] then [] else Trims(pieces)
  {
    TrimsAt(pieces);
    forall i | 0 <= i < |pieces| && i < |args|
      ensures IsTrimmed(pieces[i], args[i]) <==> args[i] == Trim(pieces[i])
    {
      TrimIs(pieces[i], args[i]);
    }
    if |args| == |pieces| && forall i | 0 <= i < |pieces| :: args[i] == Trim(pieces[i]) {
      assert args == Trims(pieces);
    }
  }

  // --- Parameters ---

  predicate Distinct(params: seq<string>) {
    forall i, j | 0 <= i < j < |params| :: params[i] != params[j]
  }

  lemma {:induction false} BindsNames(params: seq<string>, args: seq<seq<Token>>, k: nat)
    requires k <= |params|
    ensures forall x :: x in BindParams(params, args, k) <==> x in params[..k]
    decreases k
  {
    if k > 0 {
      BindsNames(params, args, k - 1);
      assert params[..k] == params[..k - 1] + [params[k - 1]];
    }
  }

  lemma {:induction false} BindsInOrder(params: seq<string>, args: seq<seq<Token>>, k: nat, i: nat)
    requires i < k <= |params| && Distinct(params) && |args| >= |params|
    ensures params[i] in BindParams(params, args, k) && BindParams(params, args, k)[params[i]] == args[i]
    decreases k
  {
    if i < k - 1 {
      BindsInOrder(params, args, k - 1, i);
    }
  }

  /** Each parameter stands for its argument, and nothing else stands for anything but __VA_ARGS__. */
  lemma BindsArguments(m: Macro, args: seq<seq<Token>>)
    requires m.Function? && Distinct(m.params) && CountOk(m, |args|) && (m.isVariadic ==> "__VA_ARGS__" !in m.params)
    ensures forall x :: x in Bind(m, args) <==> x in m.params || (m.isVariadic && x == "__VA_ARGS__")
    ensures forall i | 0 <= i < |m.params| :: Bind(m, args)[m.params[i]] == args[i]
  {
    BindsNames(m.params, args, |m.params|);
    assert m.params[..|m.params|] == m.params;
    forall i | 0 <= i < |m.params|
      ensures Bind(m, args)[m.params[i]] == args[i]
    {
      BindsInOrder(m.params, args, |m.params|, i);
    }
  }

  /** The pieces that __VA_ARGS__ consists of: the commas are followed by a blank. */
  function Spaced(args: seq<seq<Token>>): seq<seq<Token>>
    requires args != []
  {
    seq(|args|, i requires 0 <= i < |args| => if i == 0 then args[0] else [SPACE] + args[i])
  }

  lemma SeparatedAppend(pieces: seq<seq<Token>>, last: seq<Token>)
    requires pieces != []
    ensures Separated(pieces + [last]) == Separated(pieces) + ([COMMA] + last)
  {
    var all := pieces + [last];
    if |pieces| == 1 {
      assert all[1..] == [last];
    } else {
      SeparatedAppend(pieces[1..], last);
      assert all[1..] == pieces[1..] + [last];
      assert pieces[0] + ([COMMA] + (Separated(pieces[1..]) + ([COMMA] + last)))
          == pieces[0] + ([COMMA] + Separated(pieces[1..])) + ([COMMA] + last);
    }
  }

  lemma {:induction false} JoinIs(args: seq<seq<Token>>)
    requires args != []
    ensures Join(args) == Separated(Spaced(args))
    decreases |args|
  {
    if |args| > 1 {
      var front, last := args[..|args| - 1], args[|args| - 1];
      JoinIs(front);
      assert Spaced(args) == Spaced(front) + [[SPACE] + last];
      SeparatedAppend(Spaced(front), [SPACE] + last);
      assert Join(front) + [COMMA, SPACE] + last == Join(front) + ([COMMA] + ([SPACE] + last));
    }
  }

  lemma SpaceIsPiece(arg: seq<Token>)
    requires IsPiece(arg)
    ensures IsPiece([SPACE] + arg)
  {
    SpaceDepth(arg);
    forall k: nat | k < |[SPACE] + arg|
      ensures IsInside([SPACE] + arg, k)
    {
      if k > 0 {
        assert IsInside(arg, k - 1);
        assert ([SPACE] + arg)[..k] == [SPACE] + arg[..k - 1];
        SpaceDepth(arg[..k - 1]);
      }
    }
  }

  lemma {:induction false} SpaceDepth(tokens: seq<Token>)
    ensures Depth([SPACE] + tokens) == Depth(tokens)
    decreases |tokens|
  {
    if tokens == [] {
      assert [SPACE] + tokens == [SPACE] && [SPACE][..0] == [];
    } else {
      SpaceDepth(tokens[..|tokens| - 1]);
      assert ([SPACE] + tokens)[..|tokens|] == [SPACE] + tokens[..|tokens| - 1];
    }
  }

  lemma SpaceIsTrimmed(arg: seq<Token>)
    requires IsTrimmed(arg, arg)
    ensures IsTrimmed([SPACE] + arg, arg)
  {
    var lead, trail :| IsTrimmedBy(arg, lead, arg, trail);
    assert |lead| == 0 && |trail| == 0;
    assert [SPACE] + arg == [SPACE] + (arg + []);
    assert IsTrimmedBy([SPACE] + arg, [SPACE], arg, []);
  }

  /** What __VA_ARGS__ stands for: when it is passed on between parentheses, it is the further arguments again. */
  lemma VariadicPassesOn(m: Macro, args: seq<seq<Token>>, callee: Macro)
    requires m.Function? && m.isVariadic && |args| > |m.params| && callee.Function?
    requires forall a | a in args :: IsPiece(a) && IsTrimmed(a, a)
    ensures var further, passed := args[|m.params|..], Bind(m, args)["__VA_ARGS__"];
      further != [[]] && CountOk(callee, |further|) ==>
        ParseArguments(callee, passed + [Token(Punctuator, ")")], 0, 1, [], []) == Ok((further, |passed|))
  {
    var further, passed := args[|m.params|..], Bind(m, args)["__VA_ARGS__"];
    var pieces := Spaced(further);
    JoinIs(further);
    forall i | 0 <= i < |further|
      ensures IsPiece(pieces[i]) && IsTrimmed(pieces[i], further[i])
    {
      assert further[i] in args;
      SpaceIsPiece(further[i]);
      SpaceIsTrimmed(further[i]);
    }
    var tokens := passed + [Token(Punctuator, ")")];
    assert tokens[0..|passed|] == passed;
    if further != [[]] && CountOk(callee, |further|) {
      assert pieces == [[]] ==> further == [[]];
      assert ArePieces(tokens, 0, |passed|, pieces) && AreArguments(pieces, further);
      ArgumentsIff(callee, tokens, 0, further, |passed|);
    }
  }
}
