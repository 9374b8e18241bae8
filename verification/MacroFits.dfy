/** What every compiled instruction satisfies, and the bound on every string a run can hold. */
module MacroFits {
  import opened Wrappers
  import opened MacroCore
  import opened MacroSemantics
  import opened MacroMachine
  import opened MacroCompile
  import opened MacroPreservation
  import opened MacroStatements
  import opened MacroPrograms
  import opened MacroSoundness
  import opened MacroVm
  import opened MacroProtocol

  // ---------- literals ----------

  /** Every string literal is within the limit: the lexer's check. */
  predicate ShortLiterals(e: Expr, max: nat)
    decreases e, 0
  {
    match e
    case Literal(v) => ShortText(v, max)
    case Variable(_) => true
    case Member(base, _) => ShortLiterals(base, max)
    case Unary(_, operand) => ShortLiterals(operand, max)
    case Binary(_, left, right) => ShortLiterals(left, max) && ShortLiterals(right, max)
    case Call(_, args) => ShortArguments(args, max)
  }

  predicate ShortArguments(args: seq<Expr>, max: nat)
    decreases args, 0
  {
    args == [] || (ShortLiterals(args[0], max) && ShortArguments(args[1..], max))
  }

  predicate ShortStatement(s: Statement, max: nat)
    decreases s, 1
  {
    match s
    case Let(_, e) => ShortLiterals(e, max)
    case Assign(_, e) => ShortLiterals(e, max)
    case Expression(e) => ShortLiterals(e, max)
    case Block(body) => ShortAll(body, max)
    case If(cond, a, b) => ShortLiterals(cond, max) && ShortStatement(a, max) && ShortOption(b, max)
    case While(test, body) => ShortLiterals(test, max) && ShortStatement(body, max)
    case For(start, bound, step, body) =>
      ShortOption(start, max) && (bound.Some? ==> ShortLiterals(bound.value, max)) && ShortStatement(body, max)
      && ShortOption(step, max)
    case _ => true
  }

  predicate ShortOption(s: Option<Statement>, max: nat)
    decreases s, 0
  {
    match s
    case None => true
    case Some(inner) => ShortStatement(inner, max)
  }

  predicate ShortAll(body: seq<Statement>, max: nat)
    decreases body, 0
  {
    body == [] || (ShortStatement(body[0], max) && ShortAll(body[1..], max))
  }

  // ---------- instructions ----------

  /** The frame an instruction must fit: the length of the code and the declared names and slots. */
  datatype Bounds = Bounds(length: nat, parameters: set<string>, prompts: set<string>, variables: nat,
                           maxStringBytes: nat)

  predicate Fits(op: Op, b: Bounds) {
    match op
    case Push(v) => ShortText(v, b.maxStringBytes)
    case Arg(name) => name in b.parameters
    case PromptOp(name) => name in b.prompts
    case Load(i) => i < b.variables
    case Store(i) => i < b.variables
    case Jump(t) => t <= b.length
    case JumpIfFalse(t) => t <= b.length
    case AndJump(t) => t <= b.length
    case OrJump(t) => t <= b.length
    case _ => true
  }

  predicate AllFit(code: seq<Op>, b: Bounds) {
    forall i | 0 <= i < |code| :: Fits(code[i], b)
  }

  lemma {:induction false} LookupBelow(scopes: seq<Scope>, limit: nat, name: string)
    requires Separate(scopes, limit) && Lookup(scopes, name).Some?
    ensures SlotOf(name, scopes) < limit
  {
    var k := LevelOf(scopes, name);
    assert name in scopes[k];
  }

  lemma FitsConcat(a: seq<Op>, c: seq<Op>, b: Bounds)
    requires AllFit(a, b) && AllFit(c, b)
    ensures AllFit(a + c, b)
  {
  }

  lemma FitsOne(op: Op, b: Bounds)
    requires Fits(op, b)
    ensures AllFit([op], b)
  {
  }

  /** The parts of an expression inherit what is known of the whole. */
  ghost predicate Placed(e: Expr, scopes: seq<Scope>, at: nat, st: Statics, b: Bounds) {
    && TypeOf(e, scopes, st).Ok? && ShortLiterals(e, b.maxStringBytes)
    && at + SizeOf(e) <= b.length && PromptsOf(e) <= b.prompts && b.parameters == st.parameters.Keys
    && Separate(scopes, b.variables)
  }

  lemma {:induction false} ExpressionFits(e: Expr, scopes: seq<Scope>, at: nat, st: Statics, b: Bounds)
    requires Placed(e, scopes, at, st, b)
    ensures AllFit(Gen(e, scopes, at), b)
    decreases e
  {
    hide Gen, TypeOf, SizeOf, Separate, AllFit, Need;
    if IsLeaf(e) {
      var op := LeafCode(e, scopes, at, st);
      if e.Variable? { LookupBelow(scopes, b.variables, e.name); }
      FitsOne(op, b);
    } else if IsPrefixed(e) {
      var operand, op := PrefixedCode(e, scopes, at, st);
      PrefixedTypes(e, scopes, st);
      ExpressionFits(operand, scopes, at, st, b);
      FitsOne(op, b);
      FitsConcat(Gen(operand, scopes, at), [op], b);
    } else if e.Binary? {
      BinaryOperandTypes(e, scopes, st);
      if e.bop.And? || e.bop.Or? {
        var branch := ShortCircuitUnfolds(e, scopes, at);
        ExpressionFits(e.left, scopes, at, st, b);
        ExpressionFits(e.right, scopes, at + SizeOf(e.left) + 1, st, b);
        FitsOne(branch, b);
        FitsConcat(Gen(e.left, scopes, at), [branch], b);
        FitsConcat(Gen(e.left, scopes, at) + [branch], Gen(e.right, scopes, at + SizeOf(e.left) + 1), b);
      } else {
        OperatorUnfolds(e, scopes, at);
        ExpressionFits(e.left, scopes, at, st, b);
        ExpressionFits(e.right, scopes, at + SizeOf(e.left), st, b);
        FitsOne(BinaryOperation(e.bop), b);
        FitsConcat(Gen(e.left, scopes, at), Gen(e.right, scopes, at + SizeOf(e.left)), b);
        FitsConcat(Gen(e.left, scopes, at) + Gen(e.right, scopes, at + SizeOf(e.left)), [BinaryOperation(e.bop)], b);
      }
    } else if IsOneArgument(e) {
      var op := OneArgumentCode(e, scopes, at, st);
      ArgumentType(e, scopes, st);
      assert ShortArguments(e.args, b.maxStringBytes);
      ExpressionFits(e.args[0], scopes, at, st, b);
      FitsOne(op, b);
      FitsConcat(Gen(e.args[0], scopes, at), [op], b);
    } else {
      TwoArgumentsFit(e, scopes, at, st, b);
    }
  }

  lemma {:induction false} TwoArgumentsFit(e: Expr, scopes: seq<Scope>, at: nat, st: Statics, b: Bounds)
    requires e.Call? && TwoOperands(e.callee).Some? && Placed(e, scopes, at, st, b)
    ensures AllFit(Gen(e, scopes, at), b)
    decreases e, 0
  {
    hide Gen, TypeOf, SizeOf, Separate, AllFit, Need, PromptsOf;
    TwoArgumentsTypes(e, scopes, st);
    TwoArgumentsUnfold(e, scopes, at);
    ArgumentPrompts(e);
    var left, right := e.args[0], e.args[1];
    assert e.args[1..][0] == right;
    assert ShortArguments(e.args, b.maxStringBytes);
    assert ShortArguments(e.args[1..], b.maxStringBytes);
    ExpressionFits(left, scopes, at, st, b);
    ExpressionFits(right, scopes, at + SizeOf(left), st, b);
    var op := CallOp(TwoOperands(e.callee).value);
    FitsOne(op, b);
    FitsConcat(Gen(left, scopes, at), Gen(right, scopes, at + SizeOf(left)), b);
    FitsConcat(Gen(left, scopes, at) + Gen(right, scopes, at + SizeOf(left)), [op], b);
  }

  // ---------- statements ----------

  /** What is known of a statement placed at `at`. */
  ghost predicate Sited(s: Statement, ctx: Context, inLoop: bool, at: nat, exits: Exits, st: Statics, b: Bounds) {
    && Scoped(ctx) && Braced(s) && Check(s, ctx, inLoop, st).Ok?
    && Check(s, ctx, inLoop, st).value.variables <= b.variables
    && ShortStatement(s, b.maxStringBytes) && at + SizeOfStatement(s) <= b.length
    && StatementPrompts(s) <= b.prompts && b.parameters == st.parameters.Keys
    && exits.breakTo <= b.length && exits.continueTo <= b.length
  }

  lemma {:induction false} SimpleFits(s: Statement, ctx: Context, inLoop: bool, at: nat, exits: Exits, st: Statics,
                                      b: Bounds)
    requires (s.Let? || s.Assign? || s.Expression?) && Sited(s, ctx, inLoop, at, exits, st, b)
    ensures AllFit(GenStatement(s, ctx, at, exits, st), b)
  {
    hide Gen, TypeOf, SizeOf, Separate, AllFit, PromptsOf, ShortLiterals;
    var e := match s { case Let(_, e) => e case Assign(_, e) => e case Expression(e) => e };
    OuterSeparate(ctx.scopes + [map[]], ctx.variables, b.variables) by { PushScoped(ctx); }
    assert Outer(ctx.scopes + [map[]]) == ctx.scopes;
    ExpressionFits(e, ctx.scopes, at, st, b);
    match s
    case Let(_, _) =>
      assert Check(s, ctx, inLoop, st).value.variables == ctx.variables + 1;
      FitsOne(Store(ctx.variables), b);
      FitsConcat(Gen(e, ctx.scopes, at), [Store(ctx.variables)], b);
    case Assign(name, _) =>
      LookupBelow(ctx.scopes, b.variables, name);
      FitsOne(Store(SlotOf(name, ctx.scopes)), b);
      FitsConcat(Gen(e, ctx.scopes, at), [Store(SlotOf(name, ctx.scopes))], b);
    case Expression(_) =>
      assert Gen(e, ctx.scopes, at) + [] == Gen(e, ctx.scopes, at);
      FitsOne(Pop, b);
      FitsConcat(Gen(e, ctx.scopes, at), [Pop], b);
  }

  lemma {:induction false} StatementFits(s: Statement, ctx: Context, inLoop: bool, at: nat, exits: Exits, st: Statics,
                                         b: Bounds)
    requires Sited(s, ctx, inLoop, at, exits, st, b)
    ensures AllFit(GenStatement(s, ctx, at, exits, st), b)
    decreases s, 3
  {
    hide Gen, TypeOf, SizeOf, Separate, AllFit, PromptsOf, ShortLiterals, GenLoop, GenAll, CheckCondition;
    match s
    case Block(body) =>
      PushScoped(ctx);
      AllStatementsFit(body, PushScope(ctx), inLoop, at, exits, st, b);
    case If(_, _, _) => IfFits(s, ctx, inLoop, at, exits, st, b);
    case While(_, _) =>
      WhileSited(s, ctx, inLoop, at, exits, st, b);
      LoopCodeFits(s, ctx, at, st, b);
    case For(_, _, _, _) => ForCodeFits(s, ctx, inLoop, at, exits, st, b);
    case Break => FitsOne(Jump(exits.breakTo), b);
    case Continue => FitsOne(Jump(exits.continueTo), b);
    case Empty => FitsOne(Jump(at + 1), b);
    case _ => SimpleFits(s, ctx, inLoop, at, exits, st, b);
  }

  lemma {:induction false} AllStatementsFit(body: seq<Statement>, ctx: Context, inLoop: bool, at: nat, exits: Exits,
                                            st: Statics, b: Bounds)
    requires Scoped(ctx) && BracedAll(body) && CheckAll(body, ctx, inLoop, st).Ok?
             && CheckAll(body, ctx, inLoop, st).value.variables <= b.variables
    requires ShortAll(body, b.maxStringBytes) && at + SizeOfAll(body) <= b.length
    requires AllPrompts(body) <= b.prompts && b.parameters == st.parameters.Keys
    requires exits.breakTo <= b.length && exits.continueTo <= b.length
    ensures AllFit(GenAll(body, ctx, at, exits, st), b)
    decreases body, 2
  {
    hide GenStatement, SizeOfStatement, Check, Separate, StatementPrompts, Braced, ShortStatement;
    if body != [] {
      var s, rest := body[0], body[1..];
      LoopIrrelevant(s, ctx, inLoop, st);
      CheckExtends(s, ctx, inLoop, st);
      var ctx1 := Next(s, ctx, st);
      CheckAllExtends(rest, ctx1, inLoop, st);
      StatementFits(s, ctx, inLoop, at, exits, st, b);
      AllStatementsFit(rest, ctx1, inLoop, at + SizeOfStatement(s), exits, st, b);
      FitsConcat(GenStatement(s, ctx, at, exits, st), GenAll(rest, ctx1, at + SizeOfStatement(s), exits, st), b);
    }
  }

  lemma ConditionFits(cond: Expr, ctx: Context, at: nat, target: nat, st: Statics, b: Bounds)
    requires Scoped(ctx) && ctx.variables <= b.variables && CheckCondition(cond, ctx, st).Ok?
    requires ShortLiterals(cond, b.maxStringBytes) && at + SizeOf(cond) <= b.length && target <= b.length
    requires PromptsOf(cond) <= b.prompts && b.parameters == st.parameters.Keys
    ensures AllFit(Gen(cond, ctx.scopes, at) + [JumpIfFalse(target)], b)
  {
    hide Gen, TypeOf, SizeOf, AllFit, PromptsOf, ShortLiterals;
    ExpressionFits(cond, ctx.scopes, at, st, b);
    FitsOne(JumpIfFalse(target), b);
    FitsConcat(Gen(cond, ctx.scopes, at), [JumpIfFalse(target)], b);
  }

  lemma {:induction false} IfFits(s: Statement, ctx: Context, inLoop: bool, at: nat, exits: Exits, st: Statics,
                                  b: Bounds)
    requires s.If? && Sited(s, ctx, inLoop, at, exits, st, b)
    ensures AllFit(GenStatement(s, ctx, at, exits, st), b)
    decreases s, 2
  {
    hide Gen, TypeOf, SizeOf, Scoped, AllFit, PromptsOf, ShortLiterals, CheckCondition, Check;
    var a, alt := s.thenBranch, s.elseBranch;
    var ctx1 := IfContexts(s, ctx, inLoop, st);
    CheckScopeOnly(s, ctx, inLoop, st);
    var thenAt := at + SizeOf(s.cond) + 1;
    var thenEnd := thenAt + SizeOfStatement(a);
    var target := if alt.None? then thenEnd else thenEnd + 1;
    var head := Gen(s.cond, ctx.scopes, at) + [JumpIfFalse(target)];
    var thenCode := GenStatement(a, ctx, thenAt, exits, st);
    ConditionFits(s.cond, ctx, at, target, st, b);
    StatementFits(a, ctx, inLoop, thenAt, exits, st, b);
    FitsConcat(head, thenCode, b);
    if alt.Some? {
      var jump := Jump(at + SizeOfStatement(s));
      assert ShortOption(alt, b.maxStringBytes) && OptionPrompts(alt) <= b.prompts;
      assert SizeOfOption(alt) == SizeOfStatement(alt.value);
      StatementFits(alt.value, ctx1, inLoop, target, exits, st, b);
      FitsOne(jump, b);
      FitsConcat(head + thenCode, [jump], b);
      FitsConcat(head + thenCode + [jump], GenStatement(alt.value, ctx1, target, exits, st), b);
    }
  }

  lemma CheckScopeOnly(s: Statement, ctx: Context, inLoop: bool, st: Statics)
    requires Scoped(ctx) && Braced(s) && Check(s, ctx, inLoop, st).Ok?
    ensures ctx.variables <= Check(s, ctx, inLoop, st).value.variables
  {
    CheckExtends(s, ctx, inLoop, st);
  }

  // ---------- loops ----------

  ghost predicate LoopSited(s: Statement, head: Context, at: nat, st: Statics, b: Bounds) {
    && (s.While? || s.For?) && Scoped(head) && head.variables <= b.variables
    && at + LoopSize(s) <= b.length && b.parameters == st.parameters.Keys
    && (LoopBound(s).Some? ==>
          && CheckCondition(LoopBound(s).value, head, st).Ok?
          && ShortLiterals(LoopBound(s).value, b.maxStringBytes) && PromptsOf(LoopBound(s).value) <= b.prompts)
    && LoopBody(s).Block? && Braced(LoopBody(s)) && Check(LoopBody(s), head, true, st).Ok?
    && ShortStatement(LoopBody(s), b.maxStringBytes) && StatementPrompts(LoopBody(s)) <= b.prompts
    && SimpleOption(LoopStep(s)) && (LoopStep(s).Some? ==> !LoopStep(s).value.Let?)
    && CheckOption(LoopStep(s), Next(LoopBody(s), head, st), true, st).Ok? && LoopVariables(s, head, st) <= b.variables
    && ShortOption(LoopStep(s), b.maxStringBytes) && OptionPrompts(LoopStep(s)) <= b.prompts
  }

  lemma LoopSitedContexts(s: Statement, head: Context, at: nat, st: Statics, b: Bounds)
    requires LoopSited(s, head, at, st, b)
    ensures var ctx := Next(LoopBody(s), head, st);
            && Check(LoopBody(s), head, true, st) == Ok(ctx) && Scoped(ctx)
            && ctx.variables <= LoopVariables(s, head, st) == CheckOption(LoopStep(s), ctx, true, st).value.variables
  {
    hide Separate;
    CheckExtends(LoopBody(s), head, true, st);
    CheckOptionExtends(LoopStep(s), Next(LoopBody(s), head, st), true, st);
  }

  lemma {:induction false} LoopCodeFits(s: Statement, head: Context, at: nat, st: Statics, b: Bounds)
    requires LoopSited(s, head, at, st, b)
    ensures AllFit(GenLoop(s, head, at, st), b)
    decreases s, 1
  {
    hide Gen, TypeOf, SizeOf, Scoped, AllFit, PromptsOf, ShortLiterals, CheckCondition, Check, GenStatement,
         SizeOfStatement, Next, LoopVariables;
    var exits := LoopExits(s, at);
    LoopSitedContexts(s, head, at, st, b);
    var ctx := Next(LoopBody(s), head, st);
    var bound := GenBound(LoopBound(s), head.scopes, at, exits.breakTo);
    var body := GenStatement(LoopBody(s), head, BodyAt(s, at), exits, st);
    var step := if LoopStep(s).None? then [] else GenStatement(LoopStep(s).value, ctx, StepAt(s, at), exits, st);
    assert AllFit(bound, b) by {
      if LoopBound(s).Some? {
        ConditionFits(LoopBound(s).value, head, at, exits.breakTo, st, b);
      } else {
        NothingFits(b);
      }
    }
    StatementFits(LoopBody(s), head, true, BodyAt(s, at), exits, st, b);
    assert AllFit(step, b) by {
      if LoopStep(s).Some? {
        StepSited(s, head, at, st, b);
        SimpleFits(LoopStep(s).value, ctx, true, StepAt(s, at), exits, st, b);
      } else { NothingFits(b); }
    }
    FitsOne(Jump(at), b);
    FitsConcat(bound, body, b);
    FitsConcat(bound + body, step, b);
    FitsConcat(bound + body + step, [Jump(at)], b);
  }

  lemma NothingFits(b: Bounds)
    ensures AllFit([], b)
  {
  }

  lemma StepSited(s: Statement, head: Context, at: nat, st: Statics, b: Bounds)
    requires LoopSited(s, head, at, st, b) && LoopStep(s).Some?
    ensures Sited(LoopStep(s).value, Next(LoopBody(s), head, st), true, StepAt(s, at), LoopExits(s, at), st, b)
  {
    hide Separate;
    LoopSitedContexts(s, head, at, st, b);
  }

  lemma WhileSited(s: Statement, ctx: Context, inLoop: bool, at: nat, exits: Exits, st: Statics, b: Bounds)
    requires s.While? && Sited(s, ctx, inLoop, at, exits, st, b)
    ensures LoopSited(s, ctx, at, st, b)
  {
    CheckScopeOnly(s, ctx, inLoop, st);
  }

  lemma {:induction false} ForCodeFits(s: Statement, ctx: Context, inLoop: bool, at: nat, exits: Exits, st: Statics,
                                       b: Bounds)
    requires s.For? && Sited(s, ctx, inLoop, at, exits, st, b)
    ensures AllFit(GenStatement(s, ctx, at, exits, st), b)
    decreases s, 2
  {
    hide Gen, TypeOf, SizeOf, Separate, AllFit, PromptsOf, ShortLiterals, CheckCondition, Check, GenLoop, LoopVariables;
    PushScoped(ctx);
    var head := ForContexts(s, ctx, inLoop, st);
    var start := GenOption(s.start, PushScope(ctx), at, exits, st);
    assert AllFit(start, b) by {
      if s.start.Some? {
        assert ShortOption(s.start, b.maxStringBytes) && OptionPrompts(s.start) <= b.prompts;
        SimpleFits(s.start.value, PushScope(ctx), inLoop, at, exits, st, b);
      } else { NothingFits(b); }
    }
    assert ShortOption(s.step, b.maxStringBytes) && OptionPrompts(s.step) <= b.prompts;
    LoopCodeFits(s, head, at + SizeOfOption(s.start), st, b);
    FitsConcat(start, GenLoop(s, head, at + SizeOfOption(s.start), st), b);
  }

  /** The frame of a program. */
  function BoundsOf(p: Program): Bounds {
    Bounds(|p.code|, p.parameters.Keys, p.prompts, p.variables, p.limits.maxStringBytes)
  }

  /** In compiled code every branch target is patched to at most the code length, every slot is
      below the variable count, every argument and prompt is declared and every literal is short. */
  lemma CompiledCodeFits(program: seq<Statement>, st: Statics)
    requires BracedAll(program) && ShortAll(program, st.limits.maxStringBytes) && CodeOf(program, st).Ok?
    ensures AllFit(CodeOf(program, st).value.code, BoundsOf(CodeOf(program, st).value))
  {
    hide CheckAll, GenAll, BracedAll, ShortAll, AllPrompts, AllFit, Separate;
    EmptyScoped();
    AllStatementsFit(program, OUTERMOST, false, 0, NO_EXITS, st, BoundsOf(CodeOf(program, st).value));
  }
}
