/** Conditional inclusion (pkg/cpp/conditional.go): a stack of states that decides line by line, against the reading
    of nested groups in section 6.10.1 of ISO/IEC 9899:2011. */
module Conditionals {
  import opened Values

  /** A condition of #if or #elif; what it evaluates to is up to the environment. */
  type Condition = nat

  datatype Test = Expr(c: Condition) | Defined(yes: bool)

  datatype Line = Text(text: string) | If(test: Test) | Elif(c: Condition) | Else | Endif

  /** Evaluation of conditions; None is an error in the expression. */
  type Evaluator = Condition -> Option<bool>

  datatype Error = BadCondition(c: Condition) | Misplaced | Unterminated

  datatype Result<T> = Ok(value: T) | Err(error: Error)

  // --- The processor ---

  datatype ConditionState = ConditionState(active: bool, seenElse: bool, anyActive: bool)

  predicate AllActive(stack: seq<ConditionState>) {
    forall i | 0 <= i < |stack| :: stack[i].active
  }

  class ConditionalProcessor {
    const evaluator: Evaluator
    var stack: seq<ConditionState>
    ghost var asked: seq<Condition>  // the conditions evaluated so far

    constructor (evaluator: Evaluator)
      ensures this.evaluator == evaluator && stack == [] && asked == []
    {
      this.evaluator := evaluator;
      stack, asked := [], [];
    }

    method IsActive() returns (active: bool)
      ensures active == AllActive(stack)
    {
      active := AreActive(|stack|);
    }

    /** The first n levels are active. */
    method AreActive(n: nat) returns (active: bool)
      requires n <= |stack|
      ensures active == AllActive(stack[..n])
    {
      for i := 0 to n
        invariant AllActive(stack[..i])
      {
        if !stack[i].active {
          assert stack[..n][i] == stack[i];
          return false;
        }
      }
      active := true;
    }

    ghost function Now(): Machine
      reads this
    {
      Machine(stack, [], asked)
    }

    method EvaluateCondition(c: Condition) returns (r: Option<bool>)
      modifies this`asked
      ensures r == evaluator(c) && asked == old(asked) + [c]
    {
      asked := asked + [c];
      r := evaluator(c);
    }

    method ProcessIf(c: Condition) returns (err: Option<Error>)
      modifies this
      ensures Does(StepIf(evaluator, old(Now()), Expr(c)), err)
    {
      var active := IsActive();
      if !active {
        stack := stack + [ConditionState(false, false, false)];
        return None;
      }
      var result := EvaluateCondition(c);
      if result == None {
        return Some(BadCondition(c));
      }
      stack := stack + [ConditionState(result.value, false, result.value)];
      err := None;
    }

    method ProcessIfdef(defined: bool) returns (err: Option<Error>)
      modifies this
      ensures Does(StepIf(evaluator, old(Now()), Defined(defined)), err)
    {
      var active := IsActive();
      stack := stack + [ConditionState(active && defined, false, active && defined)];
      err := None;
    }

    method ProcessElif(c: Condition) returns (err: Option<Error>)
      modifies this
      ensures Does(StepElif(evaluator, old(Now()), c), err)
    {
      if stack == [] {
        return Some(Misplaced);
      }
      var top := |stack| - 1;
      if stack[top].seenElse {
        return Some(Misplaced);
      }
      if stack[top].anyActive {
        stack := stack[top := stack[top].(active := false)];
        return None;
      }
      var parentActive := AreActive(top);
      if !parentActive {
        stack := stack[top := stack[top].(active := false)];
        return None;
      }
      var result := EvaluateCondition(c);
      if result == None {
        return Some(BadCondition(c));
      }
      stack := stack[top := stack[top].(active := result.value)];
      if result.value {
        stack := stack[top := stack[top].(anyActive := true)];
      }
      err := None;
    }

    method ProcessElse() returns (err: Option<Error>)
      modifies this
      ensures Does(StepElse(old(Now())), err)
    {
      if stack == [] {
        return Some(Misplaced);
      }
      var top := |stack| - 1;
      if stack[top].seenElse {
        return Some(Misplaced);
      }
      stack := stack[top := stack[top].(seenElse := true)];
      var parentActive := AreActive(top);
      stack := stack[top := stack[top].(active := parentActive && !stack[top].anyActive)];
      if stack[top].active {
        stack := stack[top := stack[top].(anyActive := true)];
      }
      err := None;
    }

    method ProcessEndif() returns (err: Option<Error>)
      modifies this
      ensures Does(StepEndif(old(Now())), err)
    {
      if stack == [] {
        return Some(Misplaced);
      }
      stack := stack[..|stack| - 1];
      err := None;
    }

    method CheckBalanced() returns (err: Option<Error>)
      ensures err == if stack == [] then None else Some(Unterminated)
    {
      err := if |stack| > 0 then Some(Unterminated) else None;
    }

    /** The new state is the one of the step, or its error is reported. */
    ghost predicate Does(r: Result<Machine>, err: Option<Error>)
      reads this
    {
      match r
      case Ok(m) => err == None && stack == m.stack && asked == m.asked
      case Err(e) => err == Some(e)
    }

    /** All lines; those that are kept. */
    method Process(lines: seq<Line>) returns (kept: seq<string>, err: Option<Error>)
      requires stack == [] && asked == []
      modifies this
      ensures match Preprocess(evaluator, lines)
        case Ok(m) => err == None && kept == m.kept && asked == m.asked
        case Err(e) => err == Some(e)
    {
      kept := [];
      var i := 0;
      while i < |lines|
        invariant i <= |lines|
        invariant Run(evaluator, Machine([], [], []), lines) == Run(evaluator, Machine(stack, kept, asked), lines[i..])
      {
        match lines[i] {
          case Text(text) =>
            var active := IsActive();
            err := None;
            if active {
              kept := kept + [text];
            }
          case If(test) =>
            match test {
              case Expr(c) => err := ProcessIf(c);
              case Defined(yes) => err := ProcessIfdef(yes);
            }
          case Elif(c) => err := ProcessElif(c);
          case Else => err := ProcessElse();
          case Endif => err := ProcessEndif();
        }
        assert lines[i..][1..] == lines[i + 1..];
        if err.Some? {
          return;
        }
        i := i + 1;
      }
      err := CheckBalanced();
    }
  }

  // --- What each directive does ---

  /** The stack, the lines kept and the conditions evaluated. */
  datatype Machine = Machine(stack: seq<ConditionState>, kept: seq<string>, asked: seq<Condition>) {
    function Push(active: bool): Machine {
      this.(stack := stack + [ConditionState(active, false, active)])
    }

    function Top(s: ConditionState): Machine
      requires stack != []
    {
      this.(stack := stack[|stack| - 1 := s])
    }

    predicate ParentsActive()
      requires stack != []
    {
      AllActive(stack[..|stack| - 1])
    }
  }

  function StepIf(evaluator: Evaluator, m: Machine, test: Test): Result<Machine> {
    match test
    case Defined(yes) => Ok(m.Push(AllActive(m.stack) && yes))
    case Expr(c) =>
      if !AllActive(m.stack) then Ok(m.Push(false))
      else
        match evaluator(c)
        case Some(b) => Ok(m.Push(b).(asked := m.asked + [c]))
        case None => Err(BadCondition(c))
  }

  function StepElif(evaluator: Evaluator, m: Machine, c: Condition): Result<Machine> {
    if m.stack == [] || m.stack[|m.stack| - 1].seenElse then Err(Misplaced)
    else
      var s := m.stack[|m.stack| - 1];
      if s.anyActive || !m.ParentsActive() then Ok(m.Top(s.(active := false)))
      else
        match evaluator(c)
        case Some(b) => Ok(m.Top(s.(active := b, anyActive := b)).(asked := m.asked + [c]))
        case None => Err(BadCondition(c))
  }

  function StepElse(m: Machine): Result<Machine> {
    if m.stack == [] || m.stack[|m.stack| - 1].seenElse then Err(Misplaced)
    else
      var s := m.stack[|m.stack| - 1];
      var active := m.ParentsActive() && !s.anyActive;
      Ok(m.Top(ConditionState(active, true, s.anyActive || active)))
  }

  function StepEndif(m: Machine): Result<Machine> {
    if m.stack == [] then Err(Misplaced) else Ok(m.(stack := m.stack[..|m.stack| - 1]))
  }

  function Step(evaluator: Evaluator, m: Machine, line: Line): Result<Machine> {
    match line
    case Text(text) => Ok(if AllActive(m.stack) then m.(kept := m.kept + [text]) else m)
    case If(test) => StepIf(evaluator, m, test)
    case Elif(c) => StepElif(evaluator, m, c)
    case Else => StepElse(m)
    case Endif => StepEndif(m)
  }

  function Run(evaluator: Evaluator, m: Machine, lines: seq<Line>): Result<Machine>
    decreases |lines|
  {
    if lines == [] then Ok(m)
    else
      match Step(evaluator, m, lines[0])
      case Ok(m') => Run(evaluator, m', lines[1..])
      case Err(e) => Err(e)
  }

  /** A whole file. */
  function Preprocess(evaluator: Evaluator, lines: seq<Line>): Result<Machine> {
    match Run(evaluator, Machine([], [], []), lines)
    case Ok(m) => if m.stack == [] then Ok(m) else Err(Unterminated)
    case Err(e) => Err(e)
  }

  // --- Nested groups ---

  /** A line of text, or a section: groups of which at most one is included. */
  datatype Item = Plain(text: string) | Section(test: Test, body: seq<Item>, more: More)

  datatype More = NoMore | ElseGroup(body: seq<Item>) | ElifGroup(c: Condition, body: seq<Item>, more: More)

  function Flatten(items: seq<Item>): seq<Line>
    decreases items
  {
    if items == [] then [] else FlattenItem(items[0]) + Flatten(items[1..])
  }

  function FlattenItem(item: Item): seq<Line>
    decreases item
  {
    match item
    case Plain(text) => [Text(text)]
    case Section(test, body, more) => [If(test)] + Flatten(body) + FlattenMore(more)
  }

  /** The rest of a section, with its #endif. */
  function FlattenMore(more: More): seq<Line>
    decreases more
  {
    match more
    case NoMore => [Endif]
    case ElseGroup(body) => [Else] + Flatten(body) + [Endif]
    case ElifGroup(c, body, rest) => [Elif(c)] + Flatten(body) + FlattenMore(rest)
  }

  /** The lines included, and the conditions that had to be evaluated. */
  datatype Included = Included(kept: seq<string>, asked: seq<Condition>)

  const NOTHING: Included := Included([], [])

  function Then(r: Result<Included>, s: Result<Included>): Result<Included> {
    match (r, s)
    case (Err(e), _) => Err(e)
    case (Ok(_), Err(e)) => Err(e)
    case (Ok(a), Ok(b)) => Ok(Included(a.kept + b.kept, a.asked + b.asked))
  }

  /** What items mean where they are included; items that are skipped mean nothing. */
  function Meaning(evaluator: Evaluator, items: seq<Item>): Result<Included>
    decreases items
  {
    if items == [] then Ok(NOTHING)
    else Then(ItemMeaning(evaluator, items[0]), Meaning(evaluator, items[1..]))
  }

  function ItemMeaning(evaluator: Evaluator, item: Item): Result<Included>
    decreases item
  {
    match item
    case Plain(text) => Ok(Included([text], []))
    case Section(test, body, more) =>
      match test
      case Defined(yes) => if yes then Meaning(evaluator, body) else MoreMeaning(evaluator, more)
      case Expr(c) =>
        match evaluator(c)
        case None => Err(BadCondition(c))
        case Some(b) =>
          Then(Ok(Included([], [c])), if b then Meaning(evaluator, body) else MoreMeaning(evaluator, more))
  }

  /** No group was included so far. */
  function MoreMeaning(evaluator: Evaluator, more: More): Result<Included>
    decreases more
  {
    match more
    case NoMore => Ok(NOTHING)
    case ElseGroup(body) => Meaning(evaluator, body)
    case ElifGroup(c, body, rest) =>
      match evaluator(c)
      case None => Err(BadCondition(c))
      case Some(b) =>
        Then(Ok(Included([], [c])), if b then Meaning(evaluator, body) else MoreMeaning(evaluator, rest))
  }

  // --- The stack machine reads nested groups ---

  function Plus(m: Machine, i: Included): Machine {
    m.(kept := m.kept + i.kept, asked := m.asked + i.asked)
  }

  /** After lines that mean r, the rest is read with the stack as it was. */
  function Continue(evaluator: Evaluator, m: Machine, r: Result<Included>, rest: seq<Line>): Result<Machine> {
    match r
    case Ok(i) => Run(evaluator, Plus(m, i), rest)
    case Err(e) => Err(e)
  }

  function MeaningIf(evaluator: Evaluator, active: bool, items: seq<Item>): Result<Included> {
    if active then Meaning(evaluator, items) else Ok(NOTHING)
  }

  lemma {:induction false} ItemsRun(evaluator: Evaluator, m: Machine, items: seq<Item>, rest: seq<Line>)
    ensures Run(evaluator, m, Flatten(items) + rest) == Continue(evaluator, m, MeaningIf(evaluator, AllActive(m.stack), items), rest)
    decreases items
  {
    if items == [] {
      assert Flatten(items) + rest == rest;
      assert Plus(m, NOTHING) == m;
    } else {
      var others := Flatten(items[1..]) + rest;
      assert Flatten(items) + rest == FlattenItem(items[0]) + others;
      ItemRuns(evaluator, m, items[0], others);
      if AllActive(m.stack) {
        match ItemMeaning(evaluator, items[0]) {
          case Err(_) =>
          case Ok(i) =>
            ItemsRun(evaluator, Plus(m, i), items[1..], rest);
            PlusThen(m, i, Meaning(evaluator, items[1..]));
        }
      } else {
        ItemsRun(evaluator, m, items[1..], rest);
        assert Plus(m, NOTHING) == m;
      }
    }
  }

  lemma PlusThen(m: Machine, i: Included, r: Result<Included>)
    ensures match r
      case Ok(j) => Plus(Plus(m, i), j) == Plus(m, Included(i.kept + j.kept, i.asked + j.asked))
      case Err(_) => true
  {
    if r.Ok? {
      assert m.kept + i.kept + r.value.kept == m.kept + (i.kept + r.value.kept);
      assert m.asked + i.asked + r.value.asked == m.asked + (i.asked + r.value.asked);
    }
  }

  lemma {:induction false} ItemRuns(evaluator: Evaluator, m: Machine, item: Item, rest: seq<Line>)
    ensures Run(evaluator, m, FlattenItem(item) + rest) ==
            Continue(evaluator, m, if AllActive(m.stack) then ItemMeaning(evaluator, item) else Ok(NOTHING), rest)
    decreases item
  {
    match item
    case Plain(text) =>
      assert ([Text(text)] + rest)[1..] == rest;
      assert Plus(m, NOTHING) == m && m.asked + [] == m.asked;
    case Section(test, body, more) =>
      SectionRuns(evaluator, m, item, rest);
  }

  lemma {:induction false} SectionRuns(evaluator: Evaluator, m: Machine, item: Item, rest: seq<Line>)
    requires item.Section?
    ensures Run(evaluator, m, FlattenItem(item) + rest) ==
            Continue(evaluator, m, if AllActive(m.stack) then ItemMeaning(evaluator, item) else Ok(NOTHING), rest)
    decreases item, 0
  {
    var inner := Flatten(item.body) + (FlattenMore(item.more) + rest);
    assert FlattenItem(item) + rest == [If(item.test)] + inner;
    assert ([If(item.test)] + inner)[1..] == inner;
    if StepIf(evaluator, m, item.test).Ok? {
      var m1 := StepIf(evaluator, m, item.test).value;
      var top := m1.stack[|m.stack|];
      assert m1.stack == m.stack + [top];
      LastActive(m.stack, top);
      ItemsRun(evaluator, m1, item.body, FlattenMore(item.more) + rest);
      var r := MeaningIf(evaluator, AllActive(m1.stack), item.body);
      if r.Ok? {
        MoreRuns(evaluator, Plus(m1, r.value), m.stack, top, item.more, rest);
        SectionAdds(evaluator, m, item, m1, r.value, MoreIf(evaluator, m.stack, top, item.more));
      }
    }
  }

  lemma LastActive(base: seq<ConditionState>, top: ConditionState)
    ensures AllActive(base + [top]) <==> AllActive(base) && top.active
    ensures (base + [top])[..|base|] == base
  {
    var stack := base + [top];
    assert stack[..|base|] == base && stack[|base|] == top;
    assert forall i | 0 <= i < |base| :: stack[i] == base[i];
  }

  /** What the rest of a section means, above the stack base, after the groups that made its state top. */
  function MoreIf(evaluator: Evaluator, base: seq<ConditionState>, top: ConditionState, more: More): Result<Included> {
    if AllActive(base) && !top.anyActive then MoreMeaning(evaluator, more) else Ok(NOTHING)
  }

  /** What the first group and the others add is what the section means. */
  lemma SectionAdds(evaluator: Evaluator, m: Machine, item: Item, m1: Machine, i: Included, r: Result<Included>)
    requires item.Section? && StepIf(evaluator, m, item.test) == Ok(m1) && m1.stack != [] && m1.stack[..|m1.stack| - 1] == m.stack
    requires MeaningIf(evaluator, AllActive(m1.stack), item.body) == Ok(i)
    requires r == MoreIf(evaluator, m.stack, m1.stack[|m1.stack| - 1], item.more)
    ensures match if AllActive(m.stack) then ItemMeaning(evaluator, item) else Ok(NOTHING)
      case Ok(x) => r.Ok? && Plus(Plus(m1, i).(stack := m.stack), r.value) == Plus(m, x)
      case Err(e) => r == Err(e)
  {
    var top := m1.stack[|m1.stack| - 1];
    assert m1.stack == m.stack + [top];
    LastActive(m.stack, top);
    if r.Ok? {
      var j := r.value;
      assert i == NOTHING || j == NOTHING;
      PlusTwice(m1, m.stack, i, j);
      NothingAdded(i);
      NothingAdded(j);
      if item.test.Expr? && AllActive(m.stack) {
        PlusAsked(m, item.test.c, if j == NOTHING then i else j);
      }
    }
  }

  lemma PlusTwice(m: Machine, base: seq<ConditionState>, i: Included, j: Included)
    ensures Plus(Plus(m, i).(stack := base), j) == Plus(m.(stack := base), Included(i.kept + j.kept, i.asked + j.asked))
  {
    assert m.kept + i.kept + j.kept == m.kept + (i.kept + j.kept);
    assert m.asked + i.asked + j.asked == m.asked + (i.asked + j.asked);
  }

  lemma NothingAdded(i: Included)
    ensures Included(i.kept + [], i.asked + []) == i == Included([] + i.kept, [] + i.asked)
  {
  }

  lemma PlusAsked(m: Machine, c: Condition, i: Included)
    ensures Plus(m.(asked := m.asked + [c]), i) == Plus(m, Included([] + i.kept, [c] + i.asked))
  {
    assert m.asked + [c] + i.asked == m.asked + ([c] + i.asked);
  }

  lemma {:induction false} MoreRuns(evaluator: Evaluator, m: Machine, base: seq<ConditionState>, top: ConditionState, more: More, rest: seq<Line>)
    requires m.stack == base + [top] && !top.seenElse
    ensures Run(evaluator, m, FlattenMore(more) + rest) ==
            Continue(evaluator, m.(stack := base), MoreIf(evaluator, base, top, more), rest)
    decreases more, 1
  {
    match more
    case NoMore => EndifRuns(evaluator, m, base, top, rest);
    case ElseGroup(body) => ElseRuns(evaluator, m, base, top, more, rest);
    case ElifGroup(c, body, others) => ElifRuns(evaluator, m, base, top, more, rest);
  }

  lemma EndifRuns(evaluator: Evaluator, m: Machine, base: seq<ConditionState>, top: ConditionState, rest: seq<Line>)
    requires m.stack == base + [top]
    ensures Run(evaluator, m, [Endif] + rest) == Run(evaluator, m.(stack := base), rest)
    ensures Plus(m.(stack := base), NOTHING) == m.(stack := base)
  {
    LastActive(base, top);
    assert ([Endif] + rest)[1..] == rest;
  }

  lemma {:induction false} ElseRuns(evaluator: Evaluator, m: Machine, base: seq<ConditionState>, top: ConditionState, more: More, rest: seq<Line>)
    requires m.stack == base + [top] && !top.seenElse && more.ElseGroup?
    ensures Run(evaluator, m, FlattenMore(more) + rest) ==
            Continue(evaluator, m.(stack := base), MoreIf(evaluator, base, top, more), rest)
    decreases more, 0
  {
    var inner := Flatten(more.body) + ([Endif] + rest);
    assert FlattenMore(more) + rest == [Else] + inner;
    assert ([Else] + inner)[1..] == inner;
    LastActive(base, top);
    var active := AllActive(base) && !top.anyActive;
    var top1 := ConditionState(active, true, top.anyActive || active);
    var m1 := m.(stack := base + [top1]);
    assert m.stack[|base| := top1] == base + [top1];
    assert StepElse(m) == Ok(m1);
    LastActive(base, top1);
    ItemsRun(evaluator, m1, more.body, [Endif] + rest);
    var r := MeaningIf(evaluator, active, more.body);
    if r.Ok? {
      EndifRuns(evaluator, Plus(m1, r.value), base, top1, rest);
      assert Plus(m1, r.value).(stack := base) == Plus(m.(stack := base), r.value);
    }
  }

  lemma {:induction false} ElifRuns(evaluator: Evaluator, m: Machine, base: seq<ConditionState>, top: ConditionState, more: More, rest: seq<Line>)
    requires m.stack == base + [top] && !top.seenElse && more.ElifGroup?
    ensures Run(evaluator, m, FlattenMore(more) + rest) ==
            Continue(evaluator, m.(stack := base), MoreIf(evaluator, base, top, more), rest)
    decreases more, 0
  {
    var after := FlattenMore(more.more) + rest;
    var inner := Flatten(more.body) + after;
    assert FlattenMore(more) + rest == [Elif(more.c)] + inner;
    assert ([Elif(more.c)] + inner)[1..] == inner;
    LastActive(base, top);
    var open := AllActive(base) && !top.anyActive;
    var b := evaluator(more.c);
    if !open || b.Some? {
      var top1 := if open then top.(active := b.value, anyActive := b.value) else top.(active := false);
      var m1 := Machine(base + [top1], m.kept, if open then m.asked + [more.c] else m.asked);
      assert m.stack[|base| := top1] == base + [top1];
      assert StepElif(evaluator, m, more.c) == Ok(m1);
      LastActive(base, top1);
      ItemsRun(evaluator, m1, more.body, after);
      var r := MeaningIf(evaluator, AllActive(m1.stack), more.body);
      if r.Ok? {
        MoreRuns(evaluator, Plus(m1, r.value), base, top1, more.more, rest);
        ElifAdds(evaluator, m, base, top, more, m1, top1, r.value);
      }
    }
  }

  lemma ElifAdds(evaluator: Evaluator, m: Machine, base: seq<ConditionState>, top: ConditionState, more: More,
                 m1: Machine, top1: ConditionState, i: Included)
    requires more.ElifGroup? && (AllActive(base) && !top.anyActive ==> evaluator(more.c).Some?)
    requires var open := AllActive(base) && !top.anyActive;
      && top1 == (if open then top.(active := evaluator(more.c).value, anyActive := evaluator(more.c).value) else top.(active := false))
      && m1 == Machine(base + [top1], m.kept, if open then m.asked + [more.c] else m.asked)
    requires MeaningIf(evaluator, AllActive(base) && top1.active, more.body) == Ok(i)
    ensures match MoreIf(evaluator, base, top, more)
      case Ok(x) =>
        var r := MoreIf(evaluator, base, top1, more.more);
        r.Ok? && Plus(Plus(m1, i).(stack := base), r.value) == Plus(m.(stack := base), x)
      case Err(e) => MoreIf(evaluator, base, top1, more.more) == Err(e)
  {
    var r := MoreIf(evaluator, base, top1, more.more);
    if r.Ok? {
      var j := r.value;
      assert i == NOTHING || j == NOTHING;
      PlusTwice(m1, base, i, j);
      NothingAdded(i);
      NothingAdded(j);
      PlusAsked(m.(stack := base), more.c, if j == NOTHING then i else j);
    }
  }

  /** Read as nested groups, a file keeps exactly the lines of the groups included, and evaluates exactly the
      conditions that decide which those are. */
  lemma NestedGroupsMean(evaluator: Evaluator, items: seq<Item>)
    ensures Preprocess(evaluator, Flatten(items)) ==
            match Meaning(evaluator, items) case Ok(i) => Ok(Machine([], i.kept, i.asked)) case Err(e) => Err(e)
  {
    var start := Machine([], [], []);
    ItemsRun(evaluator, start, items, []);
    assert Flatten(items) + [] == Flatten(items);
    if Meaning(evaluator, items).Ok? {
      var i := Meaning(evaluator, items).value;
      assert Plus(start, i) == Machine([], i.kept, i.asked);
      assert Run(evaluator, Plus(start, i), []) == Ok(Plus(start, i));
    }
  }

  // --- Which files are accepted ---

  /** The lines are read without an error, and nothing stays open. */
  ghost predicate Ends(evaluator: Evaluator, m: Machine, lines: seq<Line>) {
    Run(evaluator, m, lines).Ok? && Run(evaluator, m, lines).value.stack == []
  }

  predicate StartsItem(lines: seq<Line>) {
    lines != [] && (lines[0].Text? || lines[0].If?)
  }

  /** The items at the start of lines that are accepted, and the machine behind them. */
  lemma {:induction false} ItemsAhead(evaluator: Evaluator, m: Machine, lines: seq<Line>)
    returns (items: seq<Item>, rest: seq<Line>, m': Machine)
    requires Ends(evaluator, m, lines)
    ensures lines == Flatten(items) + rest && !StartsItem(rest)
    ensures m'.stack == m.stack && Ends(evaluator, m', rest)
    decreases |lines|
  {
    if !StartsItem(lines) {
      items, rest, m' := [], lines, m;
      assert lines == Flatten([]) + lines;
    } else {
      var item, others, m1 := ItemAhead(evaluator, m, lines);
      var more;
      more, rest, m' := ItemsAhead(evaluator, m1, others);
      items := [item] + more;
      assert items[1..] == more;
      assert lines == FlattenItem(item) + (Flatten(more) + rest);
      assert Flatten(items) == FlattenItem(item) + Flatten(more);
    }
  }

  lemma {:induction false} ItemAhead(evaluator: Evaluator, m: Machine, lines: seq<Line>)
    returns (item: Item, rest: seq<Line>, m': Machine)
    requires Ends(evaluator, m, lines) && StartsItem(lines)
    ensures lines == FlattenItem(item) + rest && |rest| < |lines|
    ensures m'.stack == m.stack && Ends(evaluator, m', rest)
    decreases |lines|, 0
  {
    assert lines == [lines[0]] + lines[1..];
    var m1 := Step(evaluator, m, lines[0]).value;
    if lines[0].Text? {
      item, rest, m' := Plain(lines[0].text), lines[1..], m1;
    } else {
      var body, inner, m2 := ItemsAhead(evaluator, m1, lines[1..]);
      var top := m1.stack[|m.stack|];
      assert m2.stack == m.stack + [top];
      assert inner != [];
      var more;
      more, rest, m' := MoreAhead(evaluator, m2, m.stack, top, inner);
      item := Section(lines[0].test, body, more);
      SectionIs(item, rest);
    }
  }

  /** The rest of a section. */
  lemma {:induction false} MoreAhead(evaluator: Evaluator, m: Machine, base: seq<ConditionState>, top: ConditionState, lines: seq<Line>)
    returns (more: More, rest: seq<Line>, m': Machine)
    requires m.stack == base + [top] && !top.seenElse && Ends(evaluator, m, lines) && !StartsItem(lines) && lines != []
    ensures lines == FlattenMore(more) + rest && |rest| < |lines|
    ensures m'.stack == base && Ends(evaluator, m', rest)
    decreases |lines|, 1
  {
    assert lines == [lines[0]] + lines[1..];
    LastActive(base, top);
    if lines[0].Endif? {
      more, rest, m' := NoMore, lines[1..], m.(stack := base);
    } else if lines[0].Else? {
      more, rest, m' := ElseAhead(evaluator, m, base, top, lines);
    } else {
      more, rest, m' := ElifAhead(evaluator, m, base, top, lines);
    }
  }

  lemma {:induction false} ElseAhead(evaluator: Evaluator, m: Machine, base: seq<ConditionState>, top: ConditionState, lines: seq<Line>)
    returns (more: More, rest: seq<Line>, m': Machine)
    requires m.stack == base + [top] && !top.seenElse && Ends(evaluator, m, lines) && lines != [] && lines[0].Else?
    ensures lines == FlattenMore(more) + rest && |rest| < |lines|
    ensures m'.stack == base && Ends(evaluator, m', rest)
    decreases |lines|, 0
  {
    assert lines == [Else] + lines[1..];
    LastActive(base, top);
    var m1 := StepElse(m).value;
    var top1 := m1.stack[|base|];
    assert m1.stack == base + [top1] && top1.seenElse;
    var body, inner, m2 := ItemsAhead(evaluator, m1, lines[1..]);
    assert inner != [] && m2.stack == base + [top1];
    LastActive(base, top1);
    assert inner[0].Endif?;
    assert inner == [Endif] + inner[1..];
    more, rest, m' := ElseGroup(body), inner[1..], m2.(stack := base);
    assert FlattenMore(more) + rest == [Else] + (Flatten(body) + ([Endif] + rest));
  }

  lemma {:induction false} ElifAhead(evaluator: Evaluator, m: Machine, base: seq<ConditionState>, top: ConditionState, lines: seq<Line>)
    returns (more: More, rest: seq<Line>, m': Machine)
    requires m.stack == base + [top] && !top.seenElse && Ends(evaluator, m, lines) && lines != [] && lines[0].Elif?
    ensures lines == FlattenMore(more) + rest && |rest| < |lines|
    ensures m'.stack == base && Ends(evaluator, m', rest)
    decreases |lines|, 0
  {
    var c := lines[0].c;
    assert lines == [Elif(c)] + lines[1..];
    LastActive(base, top);
    var m1 := StepElif(evaluator, m, c).value;
    var top1 := m1.stack[|base|];
    assert m1.stack == base + [top1] && !top1.seenElse;
    var body, inner, m2 := ItemsAhead(evaluator, m1, lines[1..]);
    assert inner != [] && m2.stack == base + [top1];
    var others;
    others, rest, m' := MoreAhead(evaluator, m2, base, top1, inner);
    more := ElifGroup(c, body, others);
    ElifIs(more, rest);
  }

  lemma ElifIs(more: More, rest: seq<Line>)
    requires more.ElifGroup?
    ensures FlattenMore(more) + rest == [Elif(more.c)] + (Flatten(more.body) + (FlattenMore(more.more) + rest))
  {
  }

  lemma SectionIs(item: Item, rest: seq<Line>)
    requires item.Section?
    ensures FlattenItem(item) + rest == [If(item.test)] + (Flatten(item.body) + (FlattenMore(item.more) + rest))
  {
  }

  ghost predicate NeverFails(evaluator: Evaluator) {
    forall c :: evaluator(c).Some?
  }

  lemma {:induction false} NothingFails(evaluator: Evaluator, items: seq<Item>)
    requires NeverFails(evaluator)
    ensures Meaning(evaluator, items).Ok?
    decreases items
  {
    if items == [] {
    } else {
      ItemDoesNotFail(evaluator, items[0]);
      NothingFails(evaluator, items[1..]);
    }
  }

  lemma {:induction false} ItemDoesNotFail(evaluator: Evaluator, item: Item)
    requires NeverFails(evaluator)
    ensures ItemMeaning(evaluator, item).Ok?
    decreases item
  {
    if item.Section? {
      NothingFails(evaluator, item.body);
      MoreDoesNotFail(evaluator, item.more);
    }
  }

  lemma {:induction false} MoreDoesNotFail(evaluator: Evaluator, more: More)
    requires NeverFails(evaluator)
    ensures MoreMeaning(evaluator, more).Ok?
    decreases more
  {
    match more
    case NoMore =>
    case ElseGroup(body) => NothingFails(evaluator, body);
    case ElifGroup(_, body, others) =>
      NothingFails(evaluator, body);
      MoreDoesNotFail(evaluator, others);
  }

  /** Exactly the well-nested files are accepted. */
  lemma AcceptsExactly(evaluator: Evaluator, lines: seq<Line>)
    requires NeverFails(evaluator)
    ensures Preprocess(evaluator, lines).Ok? <==> exists items :: Flatten(items) == lines
  {
    if Preprocess(evaluator, lines).Ok? {
      var items, rest, m := ItemsAhead(evaluator, Machine([], [], []), lines);
      assert rest == [];
      assert Flatten(items) == lines;
    }
    if items :| Flatten(items) == lines {
      NothingFails(evaluator, items);
      NestedGroupsMean(evaluator, items);
    }
  }
}
