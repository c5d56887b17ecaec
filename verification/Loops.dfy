/** Loops, break and continue: from C (pkg/clightgen/stmt.go) through Clight to the blocks and exits of Csharpminor
    (pkg/cshmgen/stmt.go). */
module Loops {
  import opened Values

  // --- Three languages ---

  /** Side effects and tests are not looked into. */
  type Effect = nat

  datatype Test = Holds(id: nat) | Negated(id: nat) | Always

  type State = int

  datatype Oracle = Oracle(
    act: (Effect, State) -> Option<State>,
    test: (nat, State) -> Option<bool>
  )

  /** The side effects of an expression, and its truth. */
  datatype Condition = Condition(effects: seq<Effect>, test: nat)

  datatype CStmt =
    | Computation(effects: seq<Effect>)
    | Return(effects: seq<Effect>, value: nat)
    | If(cond: Condition, ifTrue: CStmt, ifFalse: CStmt)
    | While(cond: Condition, body: CStmt)
    | DoWhile(body: CStmt, cond: Condition)
    | For(init: seq<Effect>, forCond: Option<Condition>, step: seq<Effect>, body: CStmt)
    | Break
    | Continue
    | Block(items: seq<CStmt>)

  datatype Clight =
    | Sskip
    | Sdo(effect: Effect)
    | Ssequence(first: Clight, second: Clight)
    | Sifthenelse(cond: Test, ifTrue: Clight, ifFalse: Clight)
    | Sloop(body: Clight, continuePart: Clight)
    | Sbreak
    | Scontinue
    | Sreturn(value: nat)

  datatype Sharp =
    | SharpSkip
    | SharpDo(effect: Effect)
    | SharpSeq(first: Sharp, second: Sharp)
    | SharpIf(cond: Test, ifTrue: Sharp, ifFalse: Sharp)
    | SharpLoop(body: Sharp)
    | SharpBlock(body: Sharp)
    | SharpExit(n: nat)
    | SharpReturn(value: nat)

  // --- Meaning of C ---

  datatype Outcome = Normal | Broken | Continued | Returned(value: nat)

  datatype Ends<O> = Ends(out: O, st: State)

  function Perform(o: Oracle, effects: seq<Effect>, st: State): Option<State> {
    if effects == [] then Some(st)
    else
      match Perform(o, effects[..|effects| - 1], st)
      case Some(st') => o.act(effects[|effects| - 1], st')
      case None => None
  }

  function IsTrue(o: Oracle, t: Test, st: State): Option<bool> {
    match t
    case Always => Some(true)
    case Holds(id) => o.test(id, st)
    case Negated(id) => (match o.test(id, st) case Some(b) => Some(!b) case None => None)
  }

  /** The truth of a condition and the state after its side effects. */
  function Evaluate(o: Oracle, c: Condition, st: State): Option<(bool, State)> {
    match Perform(o, c.effects, st)
    case None => None
    case Some(st') =>
      match o.test(c.test, st')
      case Some(b) => Some((b, st'))
      case None => None
  }

  /** Executes a statement; fuel bounds the iterations of loops. If skips is set, then continue in the body of a
      do loop goes on with the body and not with the condition. */
  function Exec(o: Oracle, skips: bool, fuel: nat, s: CStmt, st: State): Option<Ends<Outcome>>
    decreases fuel, s, 1
  {
    match s
    case Computation(effects) => Finish(Perform(o, effects, st), Normal)
    case Return(effects, value) => Finish(Perform(o, effects, st), Returned(value))
    case If(c, a, b) =>
      (match Evaluate(o, c, st)
       case Some((t, st')) => if t then Exec(o, skips, fuel, a, st') else Exec(o, skips, fuel, b, st')
       case None => None)
    case While(c, body) => Iterate(o, skips, fuel, Some(c), [], body, st)
    case DoWhile(body, c) => Repeat(o, skips, fuel, body, c, st)
    case For(init, c, step, body) =>
      (match Perform(o, init, st)
       case Some(st') => Iterate(o, skips, fuel, c, step, body, st')
       case None => None)
    case Break => Some(Ends(Broken, st))
    case Continue => Some(Ends(Continued, st))
    case Block(items) => ExecAll(o, skips, fuel, items, st)
  }

  function Finish<O>(st: Option<State>, out: O): Option<Ends<O>> {
    match st
    case Some(st') => Some(Ends(out, st'))
    case None => None
  }

  function ExecAll(o: Oracle, skips: bool, fuel: nat, items: seq<CStmt>, st: State): Option<Ends<Outcome>>
    decreases fuel, items, 0
  {
    if items == [] then Some(Ends(Normal, st))
    else
      match ExecAll(o, skips, fuel, items[..|items| - 1], st)
      case None => None
      case Some(r) => if r.out.Normal? then Exec(o, skips, fuel, items[|items| - 1], r.st) else Some(r)
  }

  /** A loop that tests first; without a condition it goes on. */
  function Iterate(o: Oracle, skips: bool, fuel: nat, c: Option<Condition>, step: seq<Effect>, body: CStmt, st: State)
    : Option<Ends<Outcome>>
    decreases fuel, body, 2
  {
    if fuel == 0 then None
    else
      match if c.Some? then Evaluate(o, c.value, st) else Some((true, st))
      case None => None
      case Some((t, st')) =>
        if !t then Some(Ends(Normal, st'))
        else
          match Exec(o, skips, fuel - 1, body, st')
          case None => None
          case Some(r) =>
            if r.out.Broken? then Some(Ends(Normal, r.st))
            else if r.out.Returned? then Some(r)
            else
              match Perform(o, step, r.st)
              case Some(st'') => Iterate(o, skips, fuel - 1, c, step, body, st'')
              case None => None
  }

  /** A loop that tests last. */
  function Repeat(o: Oracle, skips: bool, fuel: nat, body: CStmt, c: Condition, st: State): Option<Ends<Outcome>>
    decreases fuel, body, 2
  {
    if fuel == 0 then None
    else
      match Exec(o, skips, fuel - 1, body, st)
      case None => None
      case Some(r) =>
        if r.out.Broken? then Some(Ends(Normal, r.st))
        else if r.out.Returned? then Some(r)
        else if r.out.Continued? && skips then Repeat(o, skips, fuel - 1, body, c, r.st)
        else
          match Evaluate(o, c, r.st)
          case None => None
          case Some((t, st')) => if t then Repeat(o, skips, fuel - 1, body, c, st') else Some(Ends(Normal, st'))
  }

  // --- Meaning of Clight and of blocks ---

  function ExecClight(o: Oracle, fuel: nat, s: Clight, st: State): Option<Ends<Outcome>>
    decreases fuel, s
  {
    match s
    case Sskip => Some(Ends(Normal, st))
    case Sdo(effect) => Finish(o.act(effect, st), Normal)
    case Ssequence(a, b) =>
      (match ExecClight(o, fuel, a, st)
       case None => None
       case Some(r) => if r.out.Normal? then ExecClight(o, fuel, b, r.st) else Some(r))
    case Sifthenelse(t, a, b) =>
      (match IsTrue(o, t, st)
       case Some(yes) => if yes then ExecClight(o, fuel, a, st) else ExecClight(o, fuel, b, st)
       case None => None)
    case Sloop(body, part) =>
      if fuel == 0 then None
      else
        (match ExecClight(o, fuel - 1, body, st)
         case None => None
         case Some(r) =>
           if r.out.Broken? then Some(Ends(Normal, r.st))
           else if r.out.Returned? then Some(r)
           else
             match ExecClight(o, fuel - 1, part, r.st)
             case None => None
             case Some(r') =>
               if r'.out.Normal? then ExecClight(o, fuel - 1, s, r'.st)
               else if r'.out.Broken? then Some(Ends(Normal, r'.st))
               else if r'.out.Returned? then Some(r')
               else None)
    case Sbreak => Some(Ends(Broken, st))
    case Scontinue => Some(Ends(Continued, st))
    case Sreturn(v) => Some(Ends(Returned(v), st))
  }

  datatype SharpOut = Fell | Exited(n: nat) | Gave(value: nat)

  function ExecSharp(o: Oracle, fuel: nat, s: Sharp, st: State): Option<Ends<SharpOut>>
    decreases fuel, s
  {
    match s
    case SharpSkip => Some(Ends(Fell, st))
    case SharpDo(effect) => Finish(o.act(effect, st), Fell)
    case SharpSeq(a, b) =>
      (match ExecSharp(o, fuel, a, st)
       case None => None
       case Some(r) => if r.out.Fell? then ExecSharp(o, fuel, b, r.st) else Some(r))
    case SharpIf(t, a, b) =>
      (match IsTrue(o, t, st)
       case Some(yes) => if yes then ExecSharp(o, fuel, a, st) else ExecSharp(o, fuel, b, st)
       case None => None)
    case SharpLoop(body) =>
      if fuel == 0 then None
      else
        (match ExecSharp(o, fuel - 1, body, st)
         case None => None
         case Some(r) => if r.out.Fell? then ExecSharp(o, fuel - 1, s, r.st) else Some(r))
    case SharpBlock(body) =>
      (match ExecSharp(o, fuel, body, st)
       case None => None
       case Some(r) => Some(Ends(AfterBlock(r.out), r.st)))
    case SharpExit(n) => Some(Ends(Exited(n), st))
    case SharpReturn(v) => Some(Ends(Gave(v), st))
  }

  function AfterBlock(out: SharpOut): SharpOut {
    match out
    case Exited(n) => if n == 0 then Fell else Exited(n - 1)
    case _ => out
  }

  // --- C to Clight ---

  /** Statements in sequence, without the empty ones. */
  function Seq2(a: Clight, b: Clight): Clight {
    if a.Sskip? then b else if b.Sskip? then a else Ssequence(a, b)
  }

  function DoAll(effects: seq<Effect>): Clight {
    DoAllAfter(Sskip, effects)
  }

  /** First a, then the effects one by one. */
  function DoAllAfter(a: Clight, effects: seq<Effect>): Clight {
    if effects == [] then a else Seq2(DoAllAfter(a, effects[..|effects| - 1]), Sdo(effects[|effects| - 1]))
  }

  function ToClight(s: CStmt): Clight
    decreases s
  {
    match s
    case Computation(effects) => DoAll(effects)
    case Return(effects, value) => Seq2(DoAll(effects), Sreturn(value))
    case If(c, a, b) => Seq2(DoAll(c.effects), Sifthenelse(Holds(c.test), ToClight(a), ToClight(b)))
    case While(c, body) =>
      Sloop(Seq2(DoAll(c.effects), Sifthenelse(Holds(c.test), ToClight(body), Sbreak)), Sskip)
    case DoWhile(body, c) =>
      Sloop(Seq2(DoAllAfter(ToClight(body), c.effects), Sifthenelse(Negated(c.test), Sbreak, Sskip)), Sskip)
    case For(init, c, step, body) =>
      var effects := if c.Some? then c.value.effects else [];
      var test := if c.Some? then Holds(c.value.test) else Always;
      Seq2(DoAll(init), Sloop(Seq2(DoAll(effects), Sifthenelse(test, ToClight(body), Sbreak)), DoAll(step)))
    case Break => Sbreak
    case Continue => Scontinue
    case Block(items) => AllToClight(items)
  }

  function AllToClight(items: seq<CStmt>): Clight
    decreases items
  {
    if items == [] then Sskip else Seq2(AllToClight(items[..|items| - 1]), ToClight(items[|items| - 1]))
  }

  lemma SeqMeans(o: Oracle, fuel: nat, a: Clight, b: Clight, st: State)
    ensures ExecClight(o, fuel, Seq2(a, b), st) ==
            match ExecClight(o, fuel, a, st)
            case None => None
            case Some(r) => if r.out.Normal? then ExecClight(o, fuel, b, r.st) else Some(r)
  {
  }

  lemma {:induction false} DoAllAfterMeans(o: Oracle, fuel: nat, a: Clight, effects: seq<Effect>, st: State)
    ensures ExecClight(o, fuel, DoAllAfter(a, effects), st) ==
            match ExecClight(o, fuel, a, st)
            case None => None
            case Some(r) => if r.out.Normal? then Finish(Perform(o, effects, r.st), Normal) else Some(r)
    decreases |effects|
  {
    if effects == [] {
    } else {
      var last := |effects| - 1;
      DoAllAfterMeans(o, fuel, a, effects[..last], st);
      SeqMeans(o, fuel, DoAllAfter(a, effects[..last]), Sdo(effects[last]), st);
    }
  }

  lemma DoAllMeans(o: Oracle, fuel: nat, effects: seq<Effect>, st: State)
    ensures ExecClight(o, fuel, DoAll(effects), st) == Finish(Perform(o, effects, st), Normal)
  {
    DoAllAfterMeans(o, fuel, Sskip, effects, st);
  }

  /** The body of a loop that tests first. */
  function TestedBody(effects: seq<Effect>, test: Test, body: Clight): Clight {
    Seq2(DoAll(effects), Sifthenelse(test, body, Sbreak))
  }

  lemma {:induction false} TestedBodyMeans(o: Oracle, fuel: nat, effects: seq<Effect>, test: Test, body: Clight, st: State)
    ensures ExecClight(o, fuel, TestedBody(effects, test, body), st) ==
            match Perform(o, effects, st)
            case None => None
            case Some(st') =>
              match IsTrue(o, test, st')
              case None => None
              case Some(yes) => if yes then ExecClight(o, fuel, body, st') else Some(Ends(Broken, st'))
  {
    DoAllMeans(o, fuel, effects, st);
    SeqMeans(o, fuel, DoAll(effects), Sifthenelse(test, body, Sbreak), st);
  }

  /** Clight code does exactly what C says, but that continue in a do loop goes on with the body. */
  lemma {:induction false} ClightMeans(o: Oracle, fuel: nat, s: CStmt, st: State)
    ensures ExecClight(o, fuel, ToClight(s), st) == Exec(o, true, fuel, s, st)
    decreases fuel, s, 1
  {
    match s
    case Computation(effects) => DoAllMeans(o, fuel, effects, st);
    case Return(effects, value) =>
      DoAllMeans(o, fuel, effects, st);
      SeqMeans(o, fuel, DoAll(effects), Sreturn(value), st);
    case If(c, a, b) =>
      DoAllMeans(o, fuel, c.effects, st);
      SeqMeans(o, fuel, DoAll(c.effects), Sifthenelse(Holds(c.test), ToClight(a), ToClight(b)), st);
      if Perform(o, c.effects, st).Some? {
        ClightMeans(o, fuel, a, Perform(o, c.effects, st).value);
        ClightMeans(o, fuel, b, Perform(o, c.effects, st).value);
      }
    case While(c, body) => IterateMeans(o, fuel, Some(c), [], body, st);
    case DoWhile(body, c) => RepeatMeans(o, fuel, body, c, st);
    case For(init, c, step, body) =>
      DoAllMeans(o, fuel, init, st);
      var loop := LoopCode(c, step, body);
      SeqMeans(o, fuel, DoAll(init), loop, st);
      if Perform(o, init, st).Some? {
        IterateMeans(o, fuel, c, step, body, Perform(o, init, st).value);
      }
    case Break =>
    case Continue =>
    case Block(items) => AllMean(o, fuel, items, st);
  }

  function LoopCode(c: Option<Condition>, step: seq<Effect>, body: CStmt): Clight {
    var effects := if c.Some? then c.value.effects else [];
    var test := if c.Some? then Holds(c.value.test) else Always;
    Sloop(TestedBody(effects, test, ToClight(body)), DoAll(step))
  }

  lemma {:induction false} AllMean(o: Oracle, fuel: nat, items: seq<CStmt>, st: State)
    ensures ExecClight(o, fuel, AllToClight(items), st) == ExecAll(o, true, fuel, items, st)
    decreases fuel, items, 0
  {
    if items == [] {
    } else {
      var last := |items| - 1;
      AllMean(o, fuel, items[..last], st);
      SeqMeans(o, fuel, AllToClight(items[..last]), ToClight(items[last]), st);
      var r := ExecAll(o, true, fuel, items[..last], st);
      if r.Some? {
        ClightMeans(o, fuel, items[last], r.value.st);
      }
    }
  }

  /** A loop in Clight, once its body has run. */
  function LoopAfter(o: Oracle, fuel: nat, body: Clight, part: Clight, r: Ends<Outcome>): Option<Ends<Outcome>> {
    if r.out.Broken? then Some(Ends(Normal, r.st))
    else if r.out.Returned? then Some(r)
    else
      match ExecClight(o, fuel, part, r.st)
      case None => None
      case Some(r') =>
        if r'.out.Normal? then ExecClight(o, fuel, Sloop(body, part), r'.st)
        else if r'.out.Broken? then Some(Ends(Normal, r'.st))
        else if r'.out.Returned? then Some(r')
        else None
  }

  lemma LoopUnrolls(o: Oracle, fuel: nat, body: Clight, part: Clight, st: State)
    requires fuel > 0
    ensures ExecClight(o, fuel, Sloop(body, part), st) ==
            match ExecClight(o, fuel - 1, body, st) case None => None case Some(r) => LoopAfter(o, fuel - 1, body, part, r)
  {
  }

  /** Goes on with the step, and then the loop. */
  lemma {:induction false} StepMeans(o: Oracle, fuel: nat, c: Option<Condition>, step: seq<Effect>, body: CStmt, r: Ends<Outcome>)
    requires Perform(o, step, r.st).Some? ==>
      var st := Perform(o, step, r.st).value;
      ExecClight(o, fuel, LoopCode(c, step, body), st) == Iterate(o, true, fuel, c, step, body, st)
    ensures var code := LoopCode(c, step, body);
      LoopAfter(o, fuel, code.body, code.continuePart, r) ==
      if r.out.Broken? then Some(Ends(Normal, r.st))
      else if r.out.Returned? then Some(r)
      else match Perform(o, step, r.st) case Some(st) => Iterate(o, true, fuel, c, step, body, st) case None => None
  {
    DoAllMeans(o, fuel, step, r.st);
  }

  lemma {:induction false} IterateMeans(o: Oracle, fuel: nat, c: Option<Condition>, step: seq<Effect>, body: CStmt, st: State)
    ensures ExecClight(o, fuel, LoopCode(c, step, body), st) == Iterate(o, true, fuel, c, step, body, st)
    decreases fuel, body, 2
  {
    if fuel > 0 {
      var effects := if c.Some? then c.value.effects else [];
      var test := if c.Some? then Holds(c.value.test) else Always;
      LoopUnrolls(o, fuel, TestedBody(effects, test, ToClight(body)), DoAll(step), st);
      TestedBodyMeans(o, fuel - 1, effects, test, ToClight(body), st);
      var st1 := Perform(o, effects, st);
      if st1.Some? && IsTrue(o, test, st1.value) == Some(true) {
        ClightMeans(o, fuel - 1, body, st1.value);
        var r := Exec(o, true, fuel - 1, body, st1.value);
        if r.Some? {
          if Perform(o, step, r.value.st).Some? {
            IterateMeans(o, fuel - 1, c, step, body, Perform(o, step, r.value.st).value);
          }
          StepMeans(o, fuel - 1, c, step, body, r.value);
        }
      }
    }
  }

  /** The body of a loop that tests last, with its test. */
  function CheckedBody(body: Clight, c: Condition): Clight {
    Seq2(DoAllAfter(body, c.effects), Sifthenelse(Negated(c.test), Sbreak, Sskip))
  }

  lemma {:induction false} CheckedBodyMeans(o: Oracle, fuel: nat, body: Clight, c: Condition, st: State)
    ensures ExecClight(o, fuel, CheckedBody(body, c), st) ==
            match ExecClight(o, fuel, body, st)
            case None => None
            case Some(r) =>
              if !r.out.Normal? then Some(r)
              else
                match Evaluate(o, c, r.st)
                case None => None
                case Some((t, st')) => Some(Ends(if t then Normal else Broken, st'))
  {
    DoAllAfterMeans(o, fuel, body, c.effects, st);
    SeqMeans(o, fuel, DoAllAfter(body, c.effects), Sifthenelse(Negated(c.test), Sbreak, Sskip), st);
  }

  lemma {:induction false} RepeatMeans(o: Oracle, fuel: nat, body: CStmt, c: Condition, st: State)
    ensures ExecClight(o, fuel, ToClight(DoWhile(body, c)), st) == Repeat(o, true, fuel, body, c, st)
    decreases fuel, body, 2
  {
    if fuel > 0 {
      LoopUnrolls(o, fuel, CheckedBody(ToClight(body), c), Sskip, st);
      CheckedBodyMeans(o, fuel - 1, ToClight(body), c, st);
      ClightMeans(o, fuel - 1, body, st);
      var r := Exec(o, true, fuel - 1, body, st);
      if r.Some? {
        RepeatMeans(o, fuel - 1, body, c, r.value.st);
        var e := Evaluate(o, c, r.value.st);
        if e.Some? {
          RepeatMeans(o, fuel - 1, body, c, e.value.1);
        }
      }
    }
  }

  // --- Clight to blocks ---

  function SharpSeq2(a: Sharp, b: Sharp): Sharp {
    if a.SharpSkip? then b else if b.SharpSkip? then a else SharpSeq(a, b)
  }

  /** A loop in two blocks: leaving the inner one continues, leaving both breaks. */
  function ToSharp(s: Clight): Sharp {
    match s
    case Sskip => SharpSkip
    case Sdo(effect) => SharpDo(effect)
    case Ssequence(a, b) => SharpSeq(ToSharp(a), ToSharp(b))
    case Sifthenelse(t, a, b) => SharpIf(t, ToSharp(a), ToSharp(b))
    case Sloop(body, part) => SharpBlock(SharpLoop(SharpSeq2(SharpBlock(ToSharp(body)), ToSharp(part))))
    case Sbreak => SharpExit(1)
    case Scontinue => SharpExit(0)
    case Sreturn(v) => SharpReturn(v)
  }

  /** How the outcome of a loop body looks inside the two blocks. */
  function InBlocks(r: Option<Ends<Outcome>>): Option<Ends<SharpOut>> {
    match r
    case None => None
    case Some(e) => Some(Ends(match e.out
                              case Normal => Fell
                              case Broken => Exited(1)
                              case Continued => Exited(0)
                              case Returned(v) => Gave(v), e.st))
  }

  /** No break or continue outside the loops in s. */
  predicate StaysInside(s: Clight) {
    match s
    case Ssequence(a, b) => StaysInside(a) && StaysInside(b)
    case Sifthenelse(_, a, b) => StaysInside(a) && StaysInside(b)
    case Sbreak => false
    case Scontinue => false
    case _ => true
  }

  /** The parts where loops continue hold no break or continue. */
  predicate PartsOk(s: Clight) {
    match s
    case Ssequence(a, b) => PartsOk(a) && PartsOk(b)
    case Sifthenelse(_, a, b) => PartsOk(a) && PartsOk(b)
    case Sloop(body, part) => PartsOk(body) && PartsOk(part) && StaysInside(part)
    case _ => true
  }

  lemma {:induction false} InsideFallsThrough(o: Oracle, fuel: nat, s: Clight, st: State)
    requires StaysInside(s) && ExecClight(o, fuel, s, st).Some?
    ensures var out := ExecClight(o, fuel, s, st).value.out; out.Normal? || out.Returned?
    decreases fuel, s
  {
    match s
    case Ssequence(a, b) =>
      InsideFallsThrough(o, fuel, a, st);
      var r := ExecClight(o, fuel, a, st).value;
      if r.out.Normal? { InsideFallsThrough(o, fuel, b, r.st); }
    case Sifthenelse(t, a, b) =>
      if IsTrue(o, t, st).value { InsideFallsThrough(o, fuel, a, st); } else { InsideFallsThrough(o, fuel, b, st); }
    case Sloop(body, part) => LoopFallsThrough(o, fuel, body, part, st);
    case _ =>
  }

  lemma {:induction false} LoopFallsThrough(o: Oracle, fuel: nat, body: Clight, part: Clight, st: State)
    requires ExecClight(o, fuel, Sloop(body, part), st).Some?
    ensures var out := ExecClight(o, fuel, Sloop(body, part), st).value.out; out.Normal? || out.Returned?
    decreases fuel
  {
    var r := ExecClight(o, fuel - 1, body, st).value;
    if r.out.Normal? || r.out.Continued? {
      var r' := ExecClight(o, fuel - 1, part, r.st).value;
      if r'.out.Normal? { LoopFallsThrough(o, fuel - 1, body, part, r'.st); }
    }
  }

  lemma SharpSeqMeans(o: Oracle, fuel: nat, a: Sharp, b: Sharp, st: State)
    ensures ExecSharp(o, fuel, SharpSeq2(a, b), st) ==
            match ExecSharp(o, fuel, a, st)
            case None => None
            case Some(r) => if r.out.Fell? then ExecSharp(o, fuel, b, r.st) else Some(r)
  {
  }

  /** Blocks and exits do what loops, break and continue mean. */
  lemma {:induction false} SharpMeans(o: Oracle, fuel: nat, s: Clight, st: State)
    requires PartsOk(s)
    ensures ExecSharp(o, fuel, ToSharp(s), st) == InBlocks(ExecClight(o, fuel, s, st))
    decreases fuel, s
  {
    match s
    case Ssequence(a, b) =>
      SharpMeans(o, fuel, a, st);
      var r := ExecClight(o, fuel, a, st);
      if r.Some? { SharpMeans(o, fuel, b, r.value.st); }
    case Sifthenelse(t, a, b) =>
      SharpMeans(o, fuel, a, st);
      SharpMeans(o, fuel, b, st);
    case Sloop(body, part) =>
      LoopMeans(o, fuel, body, part, st);
    case _ =>
  }

  /** The loop itself, inside its outer block. */
  lemma {:induction false} LoopMeans(o: Oracle, fuel: nat, body: Clight, part: Clight, st: State)
    requires PartsOk(body) && PartsOk(part) && StaysInside(part)
    ensures ExecSharp(o, fuel, ToSharp(Sloop(body, part)), st) == InBlocks(ExecClight(o, fuel, Sloop(body, part), st))
    ensures ExecSharp(o, fuel, SharpLoop(SharpSeq2(SharpBlock(ToSharp(body)), ToSharp(part))), st) ==
            Leaving(ExecClight(o, fuel, Sloop(body, part), st))
    decreases fuel, Sloop(body, part), 0
  {
    if fuel > 0 {
      var inner, next := SharpBlock(ToSharp(body)), ToSharp(part);
      SharpSeqMeans(o, fuel - 1, inner, next, st);
      SharpMeans(o, fuel - 1, body, st);
      var r := ExecClight(o, fuel - 1, body, st);
      if r.Some? && (r.value.out.Normal? || r.value.out.Continued?) {
        SharpMeans(o, fuel - 1, part, r.value.st);
        var r' := ExecClight(o, fuel - 1, part, r.value.st);
        if r'.Some? {
          InsideFallsThrough(o, fuel - 1, part, r.value.st);
          LoopMeans(o, fuel - 1, body, part, r'.value.st);
        }
      }
    }
  }

  /** A loop is left by an exit to its outer block, or by a return. */
  function Leaving(r: Option<Ends<Outcome>>): Option<Ends<SharpOut>> {
    match r
    case None => None
    case Some(e) => Some(Ends(if e.out.Returned? then Gave(e.out.value) else Exited(0), e.st))
  }

  // --- C to blocks ---

  lemma {:induction false} EffectsAfterOk(a: Clight, effects: seq<Effect>)
    requires PartsOk(a)
    ensures PartsOk(DoAllAfter(a, effects)) && (StaysInside(a) ==> StaysInside(DoAllAfter(a, effects)))
    decreases |effects|
  {
    if effects == [] {
    } else {
      EffectsAfterOk(a, effects[..|effects| - 1]);
    }
  }

  lemma EffectsOk(effects: seq<Effect>)
    ensures PartsOk(DoAll(effects)) && StaysInside(DoAll(effects))
  {
    EffectsAfterOk(Sskip, effects);
  }

  lemma TestedBodyOk(effects: seq<Effect>, test: Test, body: Clight)
    requires PartsOk(body)
    ensures PartsOk(TestedBody(effects, test, body))
  {
    EffectsOk(effects);
    assert PartsOk(Sifthenelse(test, body, Sbreak));
  }

  lemma CheckedBodyOk(body: Clight, c: Condition)
    requires PartsOk(body)
    ensures PartsOk(Seq2(DoAllAfter(body, c.effects), Sifthenelse(Negated(c.test), Sbreak, Sskip)))
  {
    EffectsAfterOk(body, c.effects);
    assert PartsOk(Sbreak) && PartsOk(Sskip);
  }

  lemma {:induction false} CodeIsOk(s: CStmt)
    ensures PartsOk(ToClight(s))
    decreases s, 1
  {
    match s
    case Computation(effects) => EffectsOk(effects);
    case Return(effects, _) => EffectsOk(effects);
    case If(c, a, b) =>
      EffectsOk(c.effects);
      CodeIsOk(a);
      CodeIsOk(b);
    case While(c, body) =>
      CodeIsOk(body);
      TestedBodyOk(c.effects, Holds(c.test), ToClight(body));
    case DoWhile(body, c) =>
      CodeIsOk(body);
      CheckedBodyOk(ToClight(body), c);
    case For(init, c, step, body) =>
      EffectsOk(init);
      EffectsOk(step);
      CodeIsOk(body);
      if c.Some? {
        TestedBodyOk(c.value.effects, Holds(c.value.test), ToClight(body));
      } else {
        TestedBodyOk([], Always, ToClight(body));
      }
    case Block(items) => ItemsAreOk(items);
    case _ =>
  }

  lemma {:induction false} ItemsAreOk(items: seq<CStmt>)
    ensures PartsOk(AllToClight(items))
    decreases items, 0
  {
    if items == [] {
    } else {
      ItemsAreOk(items[..|items| - 1]);
      CodeIsOk(items[|items| - 1]);
    }
  }

  /** A continue that belongs to a loop around s. */
  predicate Continues(s: CStmt) {
    match s
    case If(_, a, b) => Continues(a) || Continues(b)
    case Continue => true
    case Block(items) => exists i | 0 <= i < |items| :: Continues(items[i])
    case _ => false
  }

  /** No do loop has a continue of its own. */
  predicate NoContinueInDo(s: CStmt) {
    match s
    case If(_, a, b) => NoContinueInDo(a) && NoContinueInDo(b)
    case While(_, body) => NoContinueInDo(body)
    case DoWhile(body, _) => NoContinueInDo(body) && !Continues(body)
    case For(_, _, _, body) => NoContinueInDo(body)
    case Block(items) => forall i | 0 <= i < |items| :: NoContinueInDo(items[i])
    case _ => true
  }

  lemma {:induction false} NeverContinues(o: Oracle, skips: bool, fuel: nat, s: CStmt, st: State)
    requires !Continues(s) && Exec(o, skips, fuel, s, st).Some?
    ensures !Exec(o, skips, fuel, s, st).value.out.Continued?
    decreases fuel, s, 1
  {
    match s
    case If(c, a, b) =>
      var (t, st') := Evaluate(o, c, st).value;
      if t { NeverContinues(o, skips, fuel, a, st'); } else { NeverContinues(o, skips, fuel, b, st'); }
    case While(c, body) => IterationEnds(o, skips, fuel, Some(c), [], body, st);
    case DoWhile(body, c) => RepetitionEnds(o, skips, fuel, body, c, st);
    case For(init, c, step, body) => IterationEnds(o, skips, fuel, c, step, body, Perform(o, init, st).value);
    case Block(items) => ItemsNeverContinue(o, skips, fuel, items, st);
    case _ =>
  }

  lemma {:induction false} ItemsNeverContinue(o: Oracle, skips: bool, fuel: nat, items: seq<CStmt>, st: State)
    requires (forall i | 0 <= i < |items| :: !Continues(items[i])) && ExecAll(o, skips, fuel, items, st).Some?
    ensures !ExecAll(o, skips, fuel, items, st).value.out.Continued?
    decreases fuel, items, 0
  {
    if items == [] {
    } else {
      var last := |items| - 1;
      ItemsNeverContinue(o, skips, fuel, items[..last], st);
      var r := ExecAll(o, skips, fuel, items[..last], st).value;
      if r.out.Normal? { NeverContinues(o, skips, fuel, items[last], r.st); }
    }
  }

  lemma {:induction false} IterationEnds(o: Oracle, skips: bool, fuel: nat, c: Option<Condition>, step: seq<Effect>, body: CStmt, st: State)
    requires Iterate(o, skips, fuel, c, step, body, st).Some?
    ensures !Iterate(o, skips, fuel, c, step, body, st).value.out.Continued?
    decreases fuel
  {
    var (t, st') := if c.Some? then Evaluate(o, c.value, st).value else (true, st);
    if t {
      var r := Exec(o, skips, fuel - 1, body, st').value;
      if r.out.Normal? || r.out.Continued? {
        IterationEnds(o, skips, fuel - 1, c, step, body, Perform(o, step, r.st).value);
      }
    }
  }

  lemma {:induction false} RepetitionEnds(o: Oracle, skips: bool, fuel: nat, body: CStmt, c: Condition, st: State)
    requires Repeat(o, skips, fuel, body, c, st).Some?
    ensures !Repeat(o, skips, fuel, body, c, st).value.out.Continued?
    decreases fuel
  {
    var r := Exec(o, skips, fuel - 1, body, st).value;
    if r.out.Continued? && skips {
      RepetitionEnds(o, skips, fuel - 1, body, c, r.st);
    } else if r.out.Normal? || r.out.Continued? {
      var (t, st') := Evaluate(o, c, r.st).value;
      if t { RepetitionEnds(o, skips, fuel - 1, body, c, st'); }
    }
  }

  /** Without continue in do loops it does not matter where it would lead. */
  lemma {:induction false} SkippingDoesNotMatter(o: Oracle, fuel: nat, s: CStmt, st: State)
    requires NoContinueInDo(s)
    ensures Exec(o, true, fuel, s, st) == Exec(o, false, fuel, s, st)
    decreases fuel, s, 1
  {
    match s
    case If(c, a, b) =>
      if Evaluate(o, c, st).Some? {
        var (_, st') := Evaluate(o, c, st).value;
        SkippingDoesNotMatter(o, fuel, a, st');
        SkippingDoesNotMatter(o, fuel, b, st');
      }
    case While(c, body) => SameIterations(o, fuel, Some(c), [], body, st);
    case DoWhile(body, c) => SameRepetitions(o, fuel, body, c, st);
    case For(init, c, step, body) =>
      if Perform(o, init, st).Some? { SameIterations(o, fuel, c, step, body, Perform(o, init, st).value); }
    case Block(items) => SameForAll(o, fuel, items, st);
    case _ =>
  }

  lemma {:induction false} SameForAll(o: Oracle, fuel: nat, items: seq<CStmt>, st: State)
    requires forall i | 0 <= i < |items| :: NoContinueInDo(items[i])
    ensures ExecAll(o, true, fuel, items, st) == ExecAll(o, false, fuel, items, st)
    decreases fuel, items, 0
  {
    if items == [] {
    } else {
      var last := |items| - 1;
      SameForAll(o, fuel, items[..last], st);
      var r := ExecAll(o, true, fuel, items[..last], st);
      if r.Some? { SkippingDoesNotMatter(o, fuel, items[last], r.value.st); }
    }
  }

  lemma {:induction false} SameIterations(o: Oracle, fuel: nat, c: Option<Condition>, step: seq<Effect>, body: CStmt, st: State)
    requires NoContinueInDo(body)
    ensures Iterate(o, true, fuel, c, step, body, st) == Iterate(o, false, fuel, c, step, body, st)
    decreases fuel, body, 2
  {
    if fuel > 0 {
      var e := if c.Some? then Evaluate(o, c.value, st) else Some((true, st));
      if e.Some? && e.value.0 {
        SkippingDoesNotMatter(o, fuel - 1, body, e.value.1);
        var r := Exec(o, true, fuel - 1, body, e.value.1);
        if r.Some? && Perform(o, step, r.value.st).Some? {
          SameIterations(o, fuel - 1, c, step, body, Perform(o, step, r.value.st).value);
        }
      }
    }
  }

  lemma {:induction false} SameRepetitions(o: Oracle, fuel: nat, body: CStmt, c: Condition, st: State)
    requires NoContinueInDo(body) && !Continues(body)
    ensures Repeat(o, true, fuel, body, c, st) == Repeat(o, false, fuel, body, c, st)
    decreases fuel, body, 2
  {
    if fuel > 0 {
      SkippingDoesNotMatter(o, fuel - 1, body, st);
      var r := Exec(o, true, fuel - 1, body, st);
      if r.Some? {
        NeverContinues(o, true, fuel - 1, body, st);
        var e := Evaluate(o, c, r.value.st);
        if e.Some? { SameRepetitions(o, fuel - 1, body, c, e.value.1); }
      }
    }
  }

  /** For every statement the blocks do what C means, if continue in a do loop goes on with the body. */
  lemma BlocksMean(o: Oracle, fuel: nat, s: CStmt, st: State)
    ensures ExecSharp(o, fuel, ToSharp(ToClight(s)), st) == InBlocks(Exec(o, true, fuel, s, st))
  {
    CodeIsOk(s);
    ClightMeans(o, fuel, s, st);
    SharpMeans(o, fuel, ToClight(s), st);
  }

  /** And what C really means, if no do loop has a continue. */
  lemma BlocksMeanC(o: Oracle, fuel: nat, s: CStmt, st: State)
    requires NoContinueInDo(s)
    ensures ExecSharp(o, fuel, ToSharp(ToClight(s)), st) == InBlocks(Exec(o, false, fuel, s, st))
  {
    BlocksMean(o, fuel, s, st);
    SkippingDoesNotMatter(o, fuel, s, st);
  }

  lemma {:induction false} RepeatsForever(o: Oracle, fuel: nat, c: Condition, st: State)
    ensures Repeat(o, true, fuel, Continue, c, st) == None
    decreases fuel
  {
    if fuel > 0 {
      assert Exec(o, true, fuel - 1, Continue, st) == Some(Ends(Continued, st));
      RepeatsForever(o, fuel - 1, c, st);
    }
  }

  /** Otherwise not: a do loop whose body is continue and whose condition is false ends in C, but its code runs on. */
  lemma ContinueInDoRunsOn(o: Oracle, fuel: nat, c: Condition, st: State)
    requires c.effects == [] && o.test(c.test, st) == Some(false)
    ensures Exec(o, false, 1, DoWhile(Continue, c), st) == Some(Ends(Normal, st))
    ensures ExecSharp(o, fuel, ToSharp(ToClight(DoWhile(Continue, c))), st) == None
  {
    BlocksMean(o, fuel, DoWhile(Continue, c), st);
    RepeatsForever(o, fuel, c, st);
    assert Exec(o, false, 0, Continue, st) == Some(Ends(Continued, st));
    assert Perform(o, c.effects, st) == Some(st);
    assert Repeat(o, false, 1, Continue, c, st) == Some(Ends(Normal, st));
  }

  /** In the part where a loop continues, break leaves one block too many. */
  lemma BreakInPartGoesWrong(o: Oracle, fuel: nat, st: State)
    requires fuel >= 1
    ensures ExecClight(o, fuel, Sloop(Sskip, Sbreak), st) == Some(Ends(Normal, st))
    ensures ExecSharp(o, fuel, ToSharp(Sloop(Sskip, Sbreak)), st) == Some(Ends(Exited(0), st))
  {
    var inner := SharpBlock(SharpSkip);
    assert ExecSharp(o, fuel - 1, inner, st) == Some(Ends(Fell, st));
    assert ExecSharp(o, fuel - 1, SharpSeq(inner, SharpExit(1)), st) == Some(Ends(Exited(1), st));
    assert ExecSharp(o, fuel, SharpLoop(SharpSeq(inner, SharpExit(1))), st) == Some(Ends(Exited(1), st));
  }
}
