/** Compilation preserves meaning: statements, loops and whole programs. */
module MacroPrograms {
  import opened Wrappers
  import opened MacroCore
  import opened MacroSemantics
  import opened MacroMachine
  import opened MacroCompile
  import opened MacroPreservation
  import opened MacroStatements

  // ---------- single instructions of statements ----------

  lemma StoreStep(m: Machine, c: Config, index: nat, v: RuntimeValue)
    requires c.pc < |m.program.code| && m.program.code[c.pc] == Store(index)
    requires c.stack == [v] && index < |c.slots|
    ensures if CanCharge(c.world, m.Setting())
            then Run(m, c) == Run(m, Config(c.pc + 1, [], c.slots[index := Some(v)], Charged(c.world)))
            else Run(m, c) == Halted(c.world)
  {
    hide Run;
    assert Dropped(c.stack, 1) == [];
    MovedStep(m, c, Fetched(CoreOf(DeliveredTo(c))).(slots := c.slots[index := Some(v)], stack := []));
  }

  lemma PopStep(m: Machine, c: Config)
    requires c.pc < |m.program.code| && m.program.code[c.pc] == Pop
    requires |c.stack| == 1
    ensures if CanCharge(c.world, m.Setting())
            then Run(m, c) == Run(m, Config(c.pc + 1, [], c.slots, Charged(c.world)))
            else Run(m, c) == Halted(c.world)
  {
    hide Run;
    assert Dropped(c.stack, 1) == [];
    MovedStep(m, c, Fetched(CoreOf(DeliveredTo(c))).(stack := []));
  }

  lemma JumpStep(m: Machine, c: Config, target: nat)
    requires c.pc < |m.program.code| && m.program.code[c.pc] == Jump(target)
    requires c.stack == []
    ensures if CanCharge(c.world, m.Setting())
            then Run(m, c) == Run(m, Config(target, [], c.slots, Charged(c.world)))
            else Run(m, c) == Halted(c.world)
  {
    hide Run;
    MovedStep(m, c, Fetched(CoreOf(DeliveredTo(c))).(pc := target));
  }

  lemma TestStep(m: Machine, c: Config, target: nat, v: RuntimeValue)
    requires c.pc < |m.program.code| && m.program.code[c.pc] == JumpIfFalse(target)
    requires c.stack == [v]
    ensures if !CanCharge(c.world, m.Setting()) then Run(m, c) == Halted(c.world)
            else if !(v.Scalar? && v.scalar.Bool?) then Run(m, c) == Fault(VmInvariant, Charged(c.world))
            else Run(m, c) == Run(m, Config(if v.scalar.flag then c.pc + 1 else target, [], c.slots, Charged(c.world)))
  {
    assert Dropped(c.stack, 1) == [];
    hide Run;
    var k := Fetched(CoreOf(DeliveredTo(c)));
    if v.Scalar? && v.scalar.Bool? {
      MovedStep(m, c, k.(stack := [], pc := if v.scalar.flag then k.pc else target));
    } else {
      FaultedStep(m, c, VmInvariant);
    }
  }

  /** An expression followed by one more instruction, on an empty stack. */
  lemma ThenOp(m: Machine, e: Expr, ctx: Context, op: Op, frames: seq<Frame>, c: Config)
      returns (r: ExprResult, c1: Config)
    requires TypeOf(e, ctx.scopes, StaticsOf(m)).Ok?
    requires Depth(e) <= m.MaxDepth() && c.stack == []
    requires Agree(ctx.scopes, frames, c.slots)
    requires CodeAt(m.program.code, c.pc, Gen(e, ctx.scopes, c.pc) + [op])
    ensures r == Evaluate(e, frames, c.world, m.Setting())
    ensures r.Stops? ==> Run(m, c) == r.result
    ensures r.Silent? <==> !r.Stops? && IsVoidCall(e)
    ensures r.Yields? ==>
              c1 == Config(c.pc + SizeOf(e), [r.value], c.slots, r.world) && Run(m, c) == Run(m, c1) &&
              c1.pc < |m.program.code| && m.program.code[c1.pc] == op
    ensures TypeOf(e, ctx.scopes, StaticsOf(m)).value.VoidType? <==> IsVoidCall(e)
  {
    hide CodeAt, Run, Evaluate, TypeOf, Gen, SizeOf, Depth;
    var code := m.program.code;
    NeedWithinDepth(e);
    SplitCode(code, c.pc, Gen(e, ctx.scopes, c.pc), [op]);
    ExpressionPreserved(m, e, ctx.scopes, frames, c);
    OnlyCallsAreVoid(e, ctx.scopes, frames, c.slots, StaticsOf(m));
    r := Evaluate(e, frames, c.world, m.Setting());
    c1 := c;
    if r.Yields? {
      c1 := Config(c.pc + SizeOf(e), [r.value], c.slots, r.world);
      assert c.stack + [r.value] == [r.value];
      OpAt(code, c1.pc, op);
    }
  }

  /** A condition and its conditional jump. */
  lemma TestPreserved(m: Machine, cond: Expr, ctx: Context, target: nat, frames: seq<Frame>, c: Config)
    requires CheckCondition(cond, ctx, StaticsOf(m)).Ok?
    requires Depth(cond) <= m.MaxDepth() && c.stack == []
    requires Agree(ctx.scopes, frames, c.slots)
    requires CodeAt(m.program.code, c.pc, Gen(cond, ctx.scopes, c.pc) + [JumpIfFalse(target)])
    ensures match Test(cond, frames, c.world, m.Setting())
            case Stops(result) => Run(m, c) == result
            case Silent(_) => true
            case Yields(v, w) =>
              Run(m, c) == Run(m, Config(if v.scalar.flag then c.pc + SizeOf(cond) + 1 else target, [], c.slots, w))
  {
    hide CodeAt, Run, Evaluate, TypeOf, Gen, SizeOf, Depth;
    var r, c1 := ThenOp(m, cond, ctx, JumpIfFalse(target), frames, c);
    if r.Yields? {
      TestStep(m, c1, target, r.value);
    }
  }

  // ---------- statements ----------

  /** The machine at `c` does what the statement result `r` says: it stops the same way, or it
      goes on at the address the signal selects with the variables the result describes. */
  ghost predicate Lands(m: Machine, c: Config, r: StmtResult, pc: nat, exits: Exits, inner: seq<Scope>,
                        outer: seq<Scope>, slots: Slots) {
    match r
    case Aborts(result) => Run(m, c) == result
    case Ends(signal, frames, w) =>
      var target := match signal { case Proceed => pc case Broke => exits.breakTo case Continued => exits.continueTo };
      && |slots| == |c.slots|
      && Run(m, c) == Run(m, Config(target, [], slots, w))
      && (if signal.Proceed? then Agree(inner, frames, slots)
          else |frames| == |inner| >= |outer| && Agree(outer, frames[..|outer|], slots))
  }

  lemma LetExecutes(name: string, e: Expr, frames: seq<Frame>, w: World, g: Setting)
    ensures Execute(Let(name, e), frames, w, g) ==
            match Evaluate(e, frames, w, g) {
              case Stops(result) => Aborts(result)
              case Silent(w1) => Aborts(Fault(VmInvariant, w1))
              case Yields(v, w1) => Spend(Proceed, Declared(frames, name, v), w1, g)
            }
  {
    hide Evaluate;
  }

  lemma LetChecks(name: string, e: Expr, ctx: Context, st: Statics)
    requires Check(Let(name, e), ctx, true, st).Ok?
    ensures TypeOf(e, ctx.scopes, st).Ok? && !TypeOf(e, ctx.scopes, st).value.VoidType?
    ensures Check(Let(name, e), ctx, true, st).value == Declare(ctx, name, TypeOf(e, ctx.scopes, st).value)
  {
    hide TypeOf;
  }

  lemma LetPreserved(m: Machine, name: string, e: Expr, ctx: Context, exits: Exits, frames: seq<Frame>, c: Config)
    returns (slots: Slots)
    requires Scoped(ctx) && Check(Let(name, e), ctx, true, StaticsOf(m)).Ok?
    requires Depth(e) <= m.MaxDepth() && c.stack == [] && ctx.variables < |c.slots|
    requires Agree(ctx.scopes, frames, c.slots)
    requires CodeAt(m.program.code, c.pc, Gen(e, ctx.scopes, c.pc) + [Store(ctx.variables)])
    ensures Lands(m, c, Execute(Let(name, e), frames, c.world, m.Setting()), c.pc + SizeOf(e) + 1, exits,
                  Check(Let(name, e), ctx, true, StaticsOf(m)).value.scopes, ctx.scopes, slots)
  {
    hide CodeAt, Run, Evaluate, TypeOf, Gen, SizeOf, Depth, Separate, Execute, Check, Agree, Declared, Declare;
    slots := c.slots;
    LetExecutes(name, e, frames, c.world, m.Setting());
    LetChecks(name, e, ctx, StaticsOf(m));
    var kind := TypeOf(e, ctx.scopes, StaticsOf(m)).value;
    var r, c1 := ThenOp(m, e, ctx, Store(ctx.variables), frames, c);
    if r.Yields? {
      StoreStep(m, c1, ctx.variables, r.value);
      StoreDeclares(ctx, frames, slots, name, kind, r.value);
      slots := slots[ctx.variables := Some(r.value)];
    }
  }

  lemma AssignPreserved(m: Machine, name: string, e: Expr, ctx: Context, exits: Exits, frames: seq<Frame>, c: Config)
    returns (slots: Slots)
    requires Scoped(ctx) && Check(Assign(name, e), ctx, true, StaticsOf(m)).Ok?
    requires Depth(e) <= m.MaxDepth() && c.stack == []
    requires Agree(ctx.scopes, frames, c.slots)
    requires CodeAt(m.program.code, c.pc, Gen(e, ctx.scopes, c.pc) + [Store(SlotOf(name, ctx.scopes))])
    ensures Lands(m, c, Execute(Assign(name, e), frames, c.world, m.Setting()), c.pc + SizeOf(e) + 1, exits,
                  ctx.scopes, ctx.scopes, slots)
  {
    hide CodeAt, Run, Evaluate, TypeOf, Gen, SizeOf, Depth, Separate;
    slots := c.slots;
    var index := SlotOf(name, ctx.scopes);
    LookupAgrees(ctx.scopes, frames, slots, name);
    var r, c1 := ThenOp(m, e, ctx, Store(index), frames, c);
    if r.Yields? {
      StoreAssigns(ctx.scopes, ctx.variables, frames, slots, name, r.value);
      StoreStep(m, c1, index, r.value);
      slots := slots[index := Some(r.value)];
    }
  }

  lemma ExpressionStatementPreserved(m: Machine, e: Expr, ctx: Context, exits: Exits, frames: seq<Frame>, c: Config)
    requires TypeOf(e, ctx.scopes, StaticsOf(m)).Ok?
    requires Depth(e) <= m.MaxDepth() && c.stack == []
    requires Agree(ctx.scopes, frames, c.slots)
    requires CodeAt(m.program.code, c.pc, Gen(e, ctx.scopes, c.pc) + (if IsVoidCall(e) then [] else [Pop]))
    ensures Lands(m, c, Execute(Expression(e), frames, c.world, m.Setting()), c.pc + SizeOfStatement(Expression(e)),
                  exits,
                  ctx.scopes, ctx.scopes, c.slots)
  {
    hide CodeAt, Run, Evaluate, TypeOf, Gen, SizeOf, Depth;
    if IsVoidCall(e) {
      assert Gen(e, ctx.scopes, c.pc) + [] == Gen(e, ctx.scopes, c.pc);
      NeedWithinDepth(e);
      ExpressionPreserved(m, e, ctx.scopes, frames, c);
    } else {
      var r, c1 := ThenOp(m, e, ctx, Pop, frames, c);
      if r.Yields? { PopStep(m, c1); }
    }
  }

  /** What a context promises about a statement compiled in it and placed at `c.pc`. */
  ghost predicate Ready(m: Machine, s: Statement, ctx: Context, inLoop: bool, exits: Exits, frames: seq<Frame>,
                        c: Config) {
    && Scoped(ctx) && Braced(s) && Shallow(s, m.MaxDepth())
    && Check(s, ctx, inLoop, StaticsOf(m)).Ok?
    && Check(s, ctx, inLoop, StaticsOf(m)).value.variables <= |c.slots|
    && c.stack == [] && Agree(ctx.scopes, frames, c.slots)
    && CodeAt(m.program.code, c.pc, GenStatement(s, ctx, c.pc, exits, StaticsOf(m)))
  }

  ghost predicate ReadyAll(m: Machine, body: seq<Statement>, ctx: Context, inLoop: bool, exits: Exits,
                           frames: seq<Frame>, c: Config) {
    && Scoped(ctx) && BracedAll(body) && ShallowAll(body, m.MaxDepth())
    && CheckAll(body, ctx, inLoop, StaticsOf(m)).Ok?
    && CheckAll(body, ctx, inLoop, StaticsOf(m)).value.variables <= |c.slots|
    && c.stack == [] && Agree(ctx.scopes, frames, c.slots)
    && CodeAt(m.program.code, c.pc, GenAll(body, ctx, c.pc, exits, StaticsOf(m)))
  }

  lemma {:induction false} StatementPreserved(m: Machine, s: Statement, ctx: Context, inLoop: bool, exits: Exits,
                                              frames: seq<Frame>, c: Config)
    returns (slots: Slots)
    requires Ready(m, s, ctx, inLoop, exits, frames, c)
    ensures Lands(m, c, Execute(s, frames, c.world, m.Setting()), c.pc + SizeOfStatement(s), exits,
                  Check(s, ctx, inLoop, StaticsOf(m)).value.scopes, ctx.scopes, slots)
    decreases Remaining(c.world, m.Setting()), s, 4
  {
    hide CodeAt, Run, Evaluate, TypeOf, Gen, SizeOf, Depth, Separate, Loop, ExecuteAll;
    slots := c.slots;
    assert frames[..|ctx.scopes|] == frames;
    CheckExtends(s, ctx, inLoop, StaticsOf(m));
    LoopIrrelevant(s, ctx, inLoop, StaticsOf(m));
    match s
    case Let(name, e) => slots := LetPreserved(m, name, e, ctx, exits, frames, c);
    case Assign(name, e) => slots := AssignPreserved(m, name, e, ctx, exits, frames, c);
    case Expression(e) => ExpressionStatementPreserved(m, e, ctx, exits, frames, c);
    case Block(body) => slots := BlockPreserved(m, s, ctx, inLoop, exits, frames, c);
    case If(_, _, _) => slots := IfPreserved(m, s, ctx, inLoop, exits, frames, c);
    case While(_, _) => slots := WhilePreserved(m, s, ctx, inLoop, exits, frames, c);
    case For(_, _, _, _) => slots := ForPreserved(m, s, ctx, inLoop, exits, frames, c);
    case _ => JumpPreserved(m, s, ctx, inLoop, exits, frames, c);
  }

  /** `break`, `continue` and the empty statement are jumps. */
  lemma JumpPreserved(m: Machine, s: Statement, ctx: Context, inLoop: bool, exits: Exits, frames: seq<Frame>, c: Config)
    requires s.Break? || s.Continue? || s.Empty?
    requires Ready(m, s, ctx, inLoop, exits, frames, c)
    ensures Lands(m, c, Execute(s, frames, c.world, m.Setting()), c.pc + SizeOfStatement(s), exits, ctx.scopes,
                  ctx.scopes, c.slots)
  {
    hide Run, LevelAgrees, Separate;
    assert frames[..|ctx.scopes|] == frames;
    var target := match s { case Break => exits.breakTo case Continue => exits.continueTo case Empty => c.pc + 1 };
    OpAt(m.program.code, c.pc, Jump(target));
    JumpStep(m, c, target);
  }

  lemma {:induction false} BlockPreserved(m: Machine, s: Statement, ctx: Context, inLoop: bool, exits: Exits,
                                          frames: seq<Frame>, c: Config)
    returns (slots: Slots)
    requires s.Block? && Ready(m, s, ctx, inLoop, exits, frames, c)
    ensures Lands(m, c, Execute(s, frames, c.world, m.Setting()), c.pc + SizeOfStatement(s), exits, ctx.scopes,
                  ctx.scopes, slots)
    decreases Remaining(c.world, m.Setting()), s, 3
  {
    hide CodeAt, Run, Evaluate, TypeOf, Separate, ExecuteAll, CheckAll, GenAll, SizeOfAll;
    PushScoped(ctx);
    PushAgrees(ctx.scopes, frames, c.slots);
    CheckAllExtends(s.body, PushScope(ctx), inLoop, StaticsOf(m));
    var inner := CheckAll(s.body, PushScope(ctx), inLoop, StaticsOf(m)).value;
    slots := AllPreserved(m, s.body, PushScope(ctx), inLoop, exits, frames + [map[]], c);
    var r := ExecuteAll(s.body, frames + [map[]], c.world, m.Setting());
    if r.Ends? && r.signal.Proceed? {
      OuterAgrees(inner.scopes, r.frames, slots);
    } else if r.Ends? {
      assert Outer(r.frames)[..|ctx.scopes|] == r.frames[..|ctx.scopes|];
    }
  }

  lemma {:induction false} OptionPreserved(m: Machine, s: Option<Statement>, ctx: Context, inLoop: bool, exits: Exits,
                                           frames: seq<Frame>, c: Config)
    returns (slots: Slots)
    requires s.Some? ==> Ready(m, s.value, ctx, inLoop, exits, frames, c)
    requires s.None? ==> Agree(ctx.scopes, frames, c.slots) && c.stack == []
    ensures CheckOption(s, ctx, inLoop, StaticsOf(m)).Ok?
    ensures Lands(m, c, ExecuteOption(s, frames, c.world, m.Setting()), c.pc + SizeOfOption(s), exits,
                  CheckOption(s, ctx, inLoop, StaticsOf(m)).value.scopes, ctx.scopes, slots)
    decreases Remaining(c.world, m.Setting()), s, 4
  {
    hide CodeAt, Run, Execute, Check, GenStatement, SizeOfStatement, Separate, Braced, Shallow;
    slots := c.slots;
    if s.Some? { slots := StatementPreserved(m, s.value, ctx, inLoop, exits, frames, c); }
  }

  /** Where the parts of an `if` are. */
  lemma IfLayout(code: seq<Op>, s: Statement, ctx: Context, at: nat, exits: Exits, st: Statics)
    requires s.If? && CodeAt(code, at, GenStatement(s, ctx, at, exits, st))
    ensures var thenAt := at + SizeOf(s.cond) + 1;
            var thenEnd := thenAt + SizeOfStatement(s.thenBranch);
            var target := if s.elseBranch.None? then thenEnd else thenEnd + 1;
            && SizeOfStatement(s) == target - at + SizeOfOption(s.elseBranch)
            && CodeAt(code, at, Gen(s.cond, ctx.scopes, at) + [JumpIfFalse(target)])
            && CodeAt(code, thenAt, GenStatement(s.thenBranch, ctx, thenAt, exits, st))
            && (s.elseBranch.Some? ==>
                  && thenEnd < |code| && code[thenEnd] == Jump(at + SizeOfStatement(s))
                  && CodeAt(code, target, GenStatement(s.elseBranch.value, Next(s.thenBranch, ctx, st), target, exits,
                                                       st)))
  {
    hide CodeAt, Gen, SizeOf, Next;
    var thenAt := at + SizeOf(s.cond) + 1;
    var thenEnd := thenAt + SizeOfStatement(s.thenBranch);
    var target := if s.elseBranch.None? then thenEnd else thenEnd + 1;
    var head := Gen(s.cond, ctx.scopes, at) + [JumpIfFalse(target)];
    var thenCode := GenStatement(s.thenBranch, ctx, thenAt, exits, st);
    var tail := if s.elseBranch.None? then [] else [Jump(at + SizeOfStatement(s))];
    var elseCode := GenOption(s.elseBranch, Next(s.thenBranch, ctx, st), thenEnd + 1, exits, st);
    assert GenStatement(s, ctx, at, exits, st) == head + thenCode + tail + elseCode;
    SplitCode(code, at, head + thenCode + tail, elseCode);
    SplitCode(code, at, head + thenCode, tail);
    SplitCode(code, at, head, thenCode);
    if s.elseBranch.Some? { OpAt(code, thenEnd, tail[0]); }
  }

  /** What the type checker knows about the parts of an `if`. */
  lemma IfContexts(s: Statement, ctx: Context, inLoop: bool, st: Statics) returns (ctx1: Context)
    requires s.If? && Scoped(ctx) && Braced(s) && Check(s, ctx, inLoop, st).Ok?
    ensures CheckCondition(s.cond, ctx, st).Ok?
    ensures Check(s.thenBranch, ctx, inLoop, st) == Ok(ctx1) && Next(s.thenBranch, ctx, st) == ctx1
    ensures CheckOption(s.elseBranch, ctx1, inLoop, st) == Check(s, ctx, inLoop, st)
    ensures Scoped(ctx1) && ctx1.scopes == ctx.scopes == Check(s, ctx, inLoop, st).value.scopes
    ensures ctx1.variables <= Check(s, ctx, inLoop, st).value.variables
    ensures Braced(s.thenBranch) && BracedOption(s.elseBranch)
  {
    hide Separate;
    ctx1 := Check(s.thenBranch, ctx, inLoop, st).value;
    CheckExtends(s.thenBranch, ctx, inLoop, st);
    LoopIrrelevant(s.thenBranch, ctx, inLoop, st);
    CheckOptionExtends(s.elseBranch, ctx1, inLoop, st);
  }

  lemma IfExecutes(s: Statement, frames: seq<Frame>, w: World, g: Setting)
    requires s.If?
    ensures Execute(s, frames, w, g) ==
            match Test(s.cond, frames, w, g) {
              case Stops(result) => Aborts(result)
              case Yields(v, w1) =>
                if v.scalar.flag then
                  var r := Execute(s.thenBranch, frames, w1, g);
                  if r.Ends? && r.signal.Proceed? && s.elseBranch.Some? then Spend(Proceed, r.frames, r.world, g) else r
                else ExecuteOption(s.elseBranch, frames, w1, g)
            }
  {
    hide Test, Spend, ExecuteOption;
  }

  lemma {:induction false} IfPreserved(m: Machine, s: Statement, ctx: Context, inLoop: bool, exits: Exits,
                                       frames: seq<Frame>, c: Config)
    returns (slots: Slots)
    requires s.If? && Ready(m, s, ctx, inLoop, exits, frames, c)
    ensures Lands(m, c, Execute(s, frames, c.world, m.Setting()), c.pc + SizeOfStatement(s), exits, ctx.scopes,
                  ctx.scopes, slots)
    decreases Remaining(c.world, m.Setting()), s, 3
  {
    hide CodeAt, Run, Test, CheckCondition, Gen, SizeOf, Depth, Scoped, Check, Execute, ExecuteOption, GenStatement,
         SizeOfStatement, Braced;
    var code, g := m.program.code, m.Setting();
    var a, b := s.thenBranch, s.elseBranch;
    IfExecutes(s, frames, c.world, g);
    var ctx1 := IfContexts(s, ctx, inLoop, StaticsOf(m));
    IfLayout(code, s, ctx, c.pc, exits, StaticsOf(m));
    assert ShallowOption(b, m.MaxDepth());
    var thenAt := c.pc + SizeOf(s.cond) + 1;
    var thenEnd := thenAt + SizeOfStatement(a);
    var target := if b.None? then thenEnd else thenEnd + 1;
    slots := c.slots;
    TestPreserved(m, s.cond, ctx, target, frames, c);
    var t := Test(s.cond, frames, c.world, g);
    if t.Yields? {
      if t.value.scalar.flag {
        slots := StatementPreserved(m, a, ctx, inLoop, exits, frames, Config(thenAt, [], c.slots, t.world));
        var r := Execute(a, frames, t.world, g);
        if r.Ends? && r.signal.Proceed? && b.Some? {
          JumpStep(m, Config(thenEnd, [], slots, r.world), c.pc + SizeOfStatement(s));
        }
      } else {
        slots := OptionPreserved(m, b, ctx1, inLoop, exits, frames, Config(target, [], c.slots, t.world));
      }
    }
  }

  // ---------- loops ----------

  /** Everything about a loop whose test is at `at` that stays the same from pass to pass. */
  ghost predicate LoopFits(m: Machine, s: Statement, head: Context, at: nat) {
    && (s.While? || s.For?) && Scoped(head)
    && (LoopBound(s).Some? ==>
          && Depth(LoopBound(s).value) <= m.MaxDepth() && CheckCondition(LoopBound(s).value, head, StaticsOf(m)).Ok?
          && CodeAt(m.program.code, at, Gen(LoopBound(s).value, head.scopes, at) + [JumpIfFalse(at + LoopSize(s))]))
    && BodyFits(m, s, head, at)
    && StepFits(m, s, head, at)
    && StepAt(s, at) + SizeOfOption(LoopStep(s)) < |m.program.code|
    && m.program.code[StepAt(s, at) + SizeOfOption(LoopStep(s))] == Jump(at)
  }

  ghost predicate BodyFits(m: Machine, s: Statement, head: Context, at: nat)
    requires s.While? || s.For?
  {
    var body := LoopBody(s);
    && body.Block? && Braced(body) && Shallow(body, m.MaxDepth())
    && Check(body, head, true, StaticsOf(m)).Ok?
    && CodeAt(m.program.code, BodyAt(s, at), GenStatement(body, head, BodyAt(s, at), LoopExits(s, at), StaticsOf(m)))
  }

  ghost predicate StepFits(m: Machine, s: Statement, head: Context, at: nat)
    requires s.While? || s.For?
  {
    var step, ctx := LoopStep(s), Next(LoopBody(s), head, StaticsOf(m));
    && SimpleOption(step) && ShallowOption(step, m.MaxDepth())
    && CheckOption(step, ctx, true, StaticsOf(m)).Ok?
    && (step.Some? ==>
          && !step.value.Let?
          && CodeAt(m.program.code, StepAt(s, at),
                    GenStatement(step.value, ctx, StepAt(s, at), LoopExits(s, at), StaticsOf(m))))
  }

  /** Slots a loop needs. */
  function LoopVariables(s: Statement, head: Context, st: Statics): nat
    requires s.While? || s.For?
  {
    match CheckOption(LoopStep(s), Next(LoopBody(s), head, st), true, st)
    case Ok(ctx) => ctx.variables
    case Err(_) => 0
  }

  lemma LoopLayout(m: Machine, s: Statement, head: Context, at: nat)
    requires (s.While? || s.For?) && CodeAt(m.program.code, at, GenLoop(s, head, at, StaticsOf(m)))
    ensures var code, st, exits := m.program.code, StaticsOf(m), LoopExits(s, at);
            && (LoopBound(s).Some? ==>
                  CodeAt(code, at, Gen(LoopBound(s).value, head.scopes, at) + [JumpIfFalse(at + LoopSize(s))]))
            && CodeAt(code, BodyAt(s, at), GenStatement(LoopBody(s), head, BodyAt(s, at), exits, st))
            && (LoopStep(s).Some? ==>
                  CodeAt(code, StepAt(s, at), GenStatement(LoopStep(s).value, Next(LoopBody(s), head, st),
                                                           StepAt(s, at), exits, st)))
            && StepAt(s, at) + SizeOfOption(LoopStep(s)) < |code|
            && code[StepAt(s, at) + SizeOfOption(LoopStep(s))] == Jump(at)
  {
    hide CodeAt, Gen, GenStatement, Next, SizeOfStatement, SizeOf;
    var code, st, exits := m.program.code, StaticsOf(m), LoopExits(s, at);
    var bound := GenBound(LoopBound(s), head.scopes, at, exits.breakTo);
    var body := GenStatement(LoopBody(s), head, BodyAt(s, at), exits, st);
    var step := if LoopStep(s).None? then []
                else GenStatement(LoopStep(s).value, Next(LoopBody(s), head, st), StepAt(s, at), exits, st);
    SplitFour(code, at, bound, body, step, Jump(at));
  }

  lemma LoopExecutes(s: Statement, frames: seq<Frame>, w: World, g: Setting)
    requires s.While? || s.For?
    ensures Loop(s, frames, w, g) ==
            match LoopBound(s) {
              case None => Iterate(s, frames, w, g)
              case Some(test) =>
                var t := Test(test, frames, w, g);
                if t.Stops? then Aborts(t.result)
                else if t.value.scalar.flag then Iterate(s, frames, t.world, g)
                else Ends(Proceed, frames, t.world)
            }
  {
    hide Iterate, Test;
  }

  lemma {:induction false} LoopPreserved(m: Machine, s: Statement, head: Context, frames: seq<Frame>, c: Config)
    returns (slots: Slots)
    requires LoopFits(m, s, head, c.pc) && LoopVariables(s, head, StaticsOf(m)) <= |c.slots|
    requires c.stack == [] && Agree(head.scopes, frames, c.slots)
    ensures Lands(m, c, Loop(s, frames, c.world, m.Setting()), c.pc + LoopSize(s), NO_EXITS, head.scopes, head.scopes,
                  slots)
    decreases Remaining(c.world, m.Setting()), s, 2
  {
    hide CodeAt, Run, Test, Iterate, Loop, LoopSize, Gen, Depth, BodyFits, StepFits, Agree, CheckCondition, Scoped;
    slots := c.slots;
    LoopExecutes(s, frames, c.world, m.Setting());
    if LoopBound(s).None? {
      slots := IteratePreserved(m, s, head, c.pc, frames, c);
    } else {
      TestPreserved(m, LoopBound(s).value, head, c.pc + LoopSize(s), frames, c);
      var t := Test(LoopBound(s).value, frames, c.world, m.Setting());
      if t.Yields? && t.value.scalar.flag {
        slots := IteratePreserved(m, s, head, c.pc, frames, Config(BodyAt(s, c.pc), [], c.slots, t.world));
      }
    }
  }

  lemma IterateUnfolds(s: Statement, frames: seq<Frame>, w: World, g: Setting)
    requires s.While? || s.For?
    ensures Iterate(s, frames, w, g) ==
            match Execute(LoopBody(s), frames, w, g) {
              case Aborts(result) => Aborts(result)
              case Ends(signal, frames1, w1) =>
                if signal.Broke? then Ends(Proceed, frames1, w1)
                else if s.While? && signal.Continued? then Loop(s, frames1, w1, g)
                else
                  match ExecuteOption(LoopStep(s), frames1, w1, g)
                  case Aborts(result) => Aborts(result)
                  case Ends(_, frames2, w2) =>
                    if CanCharge(w2, g) then Loop(s, frames2, Charged(w2), g) else Aborts(Halted(w2))
            }
  {
    hide Loop, Execute;
  }

  /** The contexts inside a loop have the scopes of its head. */
  lemma LoopContexts(m: Machine, s: Statement, head: Context, at: nat) returns (ctx: Context)
    requires LoopFits(m, s, head, at)
    ensures ctx == Next(LoopBody(s), head, StaticsOf(m)) && Check(LoopBody(s), head, true, StaticsOf(m)) == Ok(ctx)
    ensures Scoped(ctx) && ctx.scopes == head.scopes && ctx.variables <= LoopVariables(s, head, StaticsOf(m))
    ensures CheckOption(LoopStep(s), ctx, true, StaticsOf(m)).Ok?
    ensures CheckOption(LoopStep(s), ctx, true, StaticsOf(m)).value.scopes == head.scopes
    ensures CheckOption(LoopStep(s), ctx, true, StaticsOf(m)).value.variables == LoopVariables(s, head, StaticsOf(m))
  {
    hide Separate, CodeAt, Check;
    assert BodyFits(m, s, head, at) && StepFits(m, s, head, at);
    ctx := Next(LoopBody(s), head, StaticsOf(m));
    CheckExtends(LoopBody(s), head, true, StaticsOf(m));
    CheckOptionExtends(LoopStep(s), ctx, true, StaticsOf(m));
  }

  lemma {:induction false} IteratePreserved(m: Machine, s: Statement, head: Context, at: nat, frames: seq<Frame>,
                                            c: Config)
    returns (slots: Slots)
    requires LoopFits(m, s, head, at) && LoopVariables(s, head, StaticsOf(m)) <= |c.slots|
    requires c.pc == BodyAt(s, at) && c.stack == [] && Agree(head.scopes, frames, c.slots)
    ensures Lands(m, c, Iterate(s, frames, c.world, m.Setting()), at + LoopSize(s), NO_EXITS, head.scopes, head.scopes,
                  slots)
    decreases Remaining(c.world, m.Setting()), s, 1
  {
    hide CodeAt, Run, Iterate, Loop, Execute, LoopVariables, Scoped, Check, Braced, Shallow, Depth, Gen, CheckCondition;
    var g := m.Setting();
    var ctx := LoopContexts(m, s, head, at);
    IterateUnfolds(s, frames, c.world, g);
    assert BodyFits(m, s, head, at) && StepFits(m, s, head, at);
    slots := StatementPreserved(m, LoopBody(s), head, true, LoopExits(s, at), frames, c);
    var r := Execute(LoopBody(s), frames, c.world, g);
    if r.Ends? && !r.signal.Broke? {
      assert Agree(head.scopes, r.frames, slots) by { assert r.frames[..|head.scopes|] == r.frames; }
      if s.While? && r.signal.Continued? {
        slots := LoopPreserved(m, s, head, r.frames, Config(at, [], slots, r.world));
      } else {
        slots := StepPreserved(m, s, head, at, r.frames, Config(StepAt(s, at), [], slots, r.world));
      }
    } else if r.Ends? {
      assert r.frames[..|head.scopes|] == r.frames;
    }
  }

  /** The step of a `for`, the jump back, and the passes that follow. */
  lemma {:induction false} StepPreserved(m: Machine, s: Statement, head: Context, at: nat, frames: seq<Frame>,
                                         c: Config)
    returns (slots: Slots)
    requires LoopFits(m, s, head, at) && LoopVariables(s, head, StaticsOf(m)) <= |c.slots|
    requires c.pc == StepAt(s, at) && c.stack == [] && Agree(head.scopes, frames, c.slots)
    ensures var r := match ExecuteOption(LoopStep(s), frames, c.world, m.Setting()) {
                       case Aborts(result) => Aborts(result)
                       case Ends(_, frames2, w2) =>
                         if CanCharge(w2, m.Setting()) then Loop(s, frames2, Charged(w2), m.Setting())
                         else Aborts(Halted(w2))
                     };
            Lands(m, c, r, at + LoopSize(s), NO_EXITS, head.scopes, head.scopes, slots)
    decreases Remaining(c.world, m.Setting()), s, 0
  {
    hide CodeAt, Run, Loop, Execute, LoopVariables, Scoped, Check, Braced, Shallow, Depth, Gen, CheckCondition;
    var ctx := LoopContexts(m, s, head, at);
    assert StepFits(m, s, head, at);
    slots := c.slots;
    var step := LoopStep(s);
    if step.Some? {
      SimpleProceeds(step.value, frames, c.world, m.Setting());
      slots := StatementPreserved(m, step.value, ctx, true, LoopExits(s, at), frames, c);
    }
    var r := ExecuteOption(step, frames, c.world, m.Setting());
    if r.Ends? {
      var c1 := Config(StepAt(s, at) + SizeOfOption(step), [], slots, r.world);
      JumpStep(m, c1, at);
      if CanCharge(r.world, m.Setting()) {
        slots := LoopPreserved(m, s, head, r.frames, Config(at, [], slots, Charged(r.world)));
      }
    }
  }

  lemma SimpleProceeds(s: Statement, frames: seq<Frame>, w: World, g: Setting)
    requires s.Let? || s.Assign? || s.Expression?
    ensures Execute(s, frames, w, g).Ends? ==> Execute(s, frames, w, g).signal.Proceed?
    ensures Braced(s)
  {
  }

  lemma {:induction false} WhilePreserved(m: Machine, s: Statement, ctx: Context, inLoop: bool, exits: Exits,
                                          frames: seq<Frame>, c: Config)
    returns (slots: Slots)
    requires s.While? && Ready(m, s, ctx, inLoop, exits, frames, c)
    ensures Lands(m, c, Execute(s, frames, c.world, m.Setting()), c.pc + SizeOfStatement(s), exits, ctx.scopes,
                  ctx.scopes, slots)
    decreases Remaining(c.world, m.Setting()), s, 3
  {
    hide CodeAt, Run, Loop, TypeOf, Gen, Depth, Scoped;
    LoopLayout(m, s, ctx, c.pc);
    slots := LoopPreserved(m, s, ctx, frames, c);
  }

  /** The context at the head of a `for`, after its start clause. */
  lemma ForContexts(s: Statement, ctx: Context, inLoop: bool, st: Statics) returns (head: Context)
    requires s.For? && Scoped(ctx) && Braced(s) && Check(s, ctx, inLoop, st).Ok?
    ensures CheckOption(s.start, PushScope(ctx), inLoop, st) == Ok(head)
            && head == NextOption(s.start, PushScope(ctx), st)
    ensures Scoped(head) && Outer(head.scopes) == ctx.scopes
    ensures s.bound.Some? ==> CheckCondition(s.bound.value, head, st).Ok?
    ensures Check(s.forBody, head, true, st).Ok?
    ensures CheckOption(s.step, Next(s.forBody, head, st), true, st).Ok? && (s.step.Some? ==> !s.step.value.Let?)
    ensures head.variables <= LoopVariables(s, head, st) == Check(s, ctx, inLoop, st).value.variables
  {
    hide Separate, CheckCondition;
    PushScoped(ctx);
    head := CheckOption(s.start, PushScope(ctx), inLoop, st).value;
    CheckOptionExtends(s.start, PushScope(ctx), inLoop, st);
    if s.start.Some? { LoopIrrelevant(s.start.value, PushScope(ctx), inLoop, st); }
    CheckExtends(s.forBody, head, true, st);
    CheckOptionExtends(s.step, Next(s.forBody, head, st), true, st);
  }

  lemma ForLayout(code: seq<Op>, s: Statement, ctx: Context, at: nat, exits: Exits, st: Statics)
    requires s.For? && CodeAt(code, at, GenStatement(s, ctx, at, exits, st))
    ensures SizeOfStatement(s) == SizeOfOption(s.start) + LoopSize(s)
    ensures s.start.Some? ==> CodeAt(code, at, GenStatement(s.start.value, PushScope(ctx), at, exits, st))
    ensures CodeAt(code, at + SizeOfOption(s.start),
                   GenLoop(s, NextOption(s.start, PushScope(ctx), st), at + SizeOfOption(s.start), st))
  {
    hide CodeAt, GenLoop, NextOption;
    SplitCode(code, at, GenOption(s.start, PushScope(ctx), at, exits, st),
              GenLoop(s, NextOption(s.start, PushScope(ctx), st), at + SizeOfOption(s.start), st));
  }

  lemma ForExecutes(s: Statement, frames: seq<Frame>, w: World, g: Setting)
    requires s.For?
    ensures Execute(s, frames, w, g) ==
            match ExecuteOption(s.start, frames + [map[]], w, g) {
              case Aborts(result) => Aborts(result)
              case Ends(_, frames1, w1) => Leave(Loop(s, frames1, w1, g))
            }
  {
    hide ExecuteOption, Loop;
  }

  lemma ForFits(m: Machine, s: Statement, head: Context, at: nat)
    requires s.For? && Braced(s) && Shallow(s, m.MaxDepth()) && Scoped(head)
    requires s.bound.Some? ==> CheckCondition(s.bound.value, head, StaticsOf(m)).Ok?
    requires Check(s.forBody, head, true, StaticsOf(m)).Ok?
    requires CheckOption(s.step, Next(s.forBody, head, StaticsOf(m)), true, StaticsOf(m)).Ok?
             && (s.step.Some? ==> !s.step.value.Let?)
    requires CodeAt(m.program.code, at, GenLoop(s, head, at, StaticsOf(m)))
    ensures LoopFits(m, s, head, at) && SimpleOption(s.start)
    ensures s.start.Some? ==> Shallow(s.start.value, m.MaxDepth())
  {
    hide CodeAt, Scoped, CheckCondition, Check, CheckOption, GenLoop, Gen, Depth, GenStatement, Next;
    LoopLayout(m, s, head, at);
    assert ShallowOption(s.start, m.MaxDepth()) && ShallowOption(s.step, m.MaxDepth());
  }

  lemma {:induction false} ForPreserved(m: Machine, s: Statement, ctx: Context, inLoop: bool, exits: Exits,
                                        frames: seq<Frame>, c: Config)
    returns (slots: Slots)
    requires s.For? && Ready(m, s, ctx, inLoop, exits, frames, c)
    ensures Lands(m, c, Execute(s, frames, c.world, m.Setting()), c.pc + SizeOfStatement(s), exits, ctx.scopes,
                  ctx.scopes, slots)
    decreases Remaining(c.world, m.Setting()), s, 3
  {
    hide CodeAt, Run, Loop, Execute, Check, GenStatement, SizeOfStatement, CheckCondition, Gen, Depth, Separate,
         LoopVariables, Braced, LoopSize;
    var st, g := StaticsOf(m), m.Setting();
    PushScoped(ctx);
    PushAgrees(ctx.scopes, frames, c.slots);
    var head := ForContexts(s, ctx, inLoop, st);
    ForLayout(m.program.code, s, ctx, c.pc, exits, st);
    ForFits(m, s, head, c.pc + SizeOfOption(s.start));
    ForExecutes(s, frames, c.world, g);
    slots := c.slots;
    if s.start.Some? {
      SimpleProceeds(s.start.value, frames + [map[]], c.world, g);
      slots := StatementPreserved(m, s.start.value, PushScope(ctx), inLoop, exits, frames + [map[]], c);
    }
    var r := ExecuteOption(s.start, frames + [map[]], c.world, g);
    if r.Ends? {
      var c1 := Config(c.pc + SizeOfOption(s.start), [], slots, r.world);
      slots := LoopPreserved(m, s, head, r.frames, c1);
      var r1 := Loop(s, r.frames, r.world, g);
      if r1.Ends? { OuterAgrees(head.scopes, r1.frames, slots); }
    }
  }

  lemma {:induction false} AllPreserved(m: Machine, body: seq<Statement>, ctx: Context, inLoop: bool, exits: Exits,
                                        frames: seq<Frame>, c: Config)
    returns (slots: Slots)
    requires ReadyAll(m, body, ctx, inLoop, exits, frames, c)
    ensures Lands(m, c, ExecuteAll(body, frames, c.world, m.Setting()), c.pc + SizeOfAll(body), exits,
                  CheckAll(body, ctx, inLoop, StaticsOf(m)).value.scopes, Outer(ctx.scopes), slots)
    decreases Remaining(c.world, m.Setting()), body, 2
  {
    hide CodeAt, Run, Execute, Check, GenStatement, SizeOfStatement, Separate, Braced, Shallow;
    var st := StaticsOf(m);
    slots := c.slots;
    if body != [] {
      var s, rest := body[0], body[1..];
      var ctx1 := Check(s, ctx, inLoop, st).value;
      SplitCode(m.program.code, c.pc, GenStatement(s, ctx, c.pc, exits, st),
                GenAll(rest, Next(s, ctx, st), c.pc + SizeOfStatement(s), exits, st));
      LoopIrrelevant(s, ctx, inLoop, st);
      CheckExtends(s, ctx, inLoop, st);
      CheckAllExtends(rest, ctx1, inLoop, st);
      slots := StatementPreserved(m, s, ctx, inLoop, exits, frames, c);
      var r := Execute(s, frames, c.world, m.Setting());
      if r.Ends? && r.signal.Proceed? {
        var c1 := Config(c.pc + SizeOfStatement(s), [], slots, r.world);
        slots := AllPreserved(m, rest, ctx1, inLoop, exits, r.frames, c1);
      } else if r.Ends? {
        OuterAgrees(ctx.scopes, r.frames[..|ctx.scopes|], slots);
        assert Outer(r.frames[..|ctx.scopes|]) == r.frames[..|ctx.scopes| - 1];
      }
    }
  }

  // ---------- programs ----------

  /** Outside loops nothing ends by `break` or `continue`. */
  lemma {:induction false} NoEscape(s: Statement, ctx: Context, frames: seq<Frame>, w: World, g: Setting, st: Statics)
    requires Braced(s) && Check(s, ctx, false, st).Ok?
    ensures Execute(s, frames, w, g).Ends? ==> Execute(s, frames, w, g).signal.Proceed?
    decreases s, 1
  {
    hide Evaluate, TypeOf, Loop, CheckCondition;
    match s
    case Block(body) => NoEscapeAll(body, PushScope(ctx), frames + [map[]], w, g, st);
    case If(cond, a, b) =>
      var t := Test(cond, frames, w, g);
      if t.Yields? {
        NoEscape(a, ctx, frames, t.world, g, st);
        if b.Some? { NoEscape(b.value, Check(a, ctx, false, st).value, frames, t.world, g, st); }
      }
    case _ =>
  }

  lemma {:induction false} NoEscapeAll(body: seq<Statement>, ctx: Context, frames: seq<Frame>, w: World, g: Setting,
                                       st: Statics)
    requires BracedAll(body) && CheckAll(body, ctx, false, st).Ok?
    ensures ExecuteAll(body, frames, w, g).Ends? ==> ExecuteAll(body, frames, w, g).signal.Proceed?
    decreases body, 0
  {
    hide Execute, Check;
    if body != [] {
      NoEscape(body[0], ctx, frames, w, g, st);
      var r := Execute(body[0], frames, w, g);
      if r.Ends? { NoEscapeAll(body[1..], Check(body[0], ctx, false, st).value, r.frames, r.world, g, st); }
    }
  }

  /** The trees that reach the compiler: what the parser guarantees about its result. */
  predicate WellFormed(program: seq<Statement>, limits: Limits) {
    BracedAll(program) && ShallowAll(program, limits.maxNesting + 1)
  }

  /** The compiled program, driven by any answers and any deliveries between instructions, is the
      meaning of its tree: the same effects in the same order, the same counters, the same answers
      and deliveries left over and the same outcome, including running out of instruction budget or
      being stopped at the same point. */
  lemma ProgramPreserved(program: seq<Statement>, st: Statics, args: map<string, Value>, prompts: map<string, string>,
                         answers: seq<Answer>, deliveries: seq<Delivery>)
    requires WellFormed(program, st.limits) && CodeOf(program, st).Ok?
    ensures var m := Machine(CodeOf(program, st).value, args, prompts);
            Run(m, StartConfig(m, answers, deliveries)) == Meaning(program, answers, deliveries, m.Setting())
  {
    hide CodeAt, Check, CheckAll, Separate, BracedAll, ShallowAll, ExecuteAll, GenAll;
    var m := Machine(CodeOf(program, st).value, args, prompts);
    var c := StartConfig(m, answers, deliveries);
    assert CodeAt(m.program.code, 0, GenAll(program, OUTERMOST, 0, NO_EXITS, st)) by { WholeCode(m.program.code); }
    assert Agree(OUTERMOST.scopes, [map[]], c.slots);
    assert Scoped(OUTERMOST) by { EmptyScoped(); }
    NoEscapeAll(program, OUTERMOST, [map[]], c.world, m.Setting(), st);
    var slots := AllPreserved(m, program, OUTERMOST, false, NO_EXITS, [map[]], c);
  }

  lemma WholeCode(code: seq<Op>)
    ensures CodeAt(code, 0, code)
  {
  }

  lemma EmptyScoped()
    ensures Scoped(OUTERMOST)
  {
  }
}
