/** Operand stack heights: each address of compiled code has one, the machine is at it whenever it gets
    there, and it is zero wherever a statement begins. */
module MacroHeights {
  import opened Wrappers
  import opened MacroCore
  import opened MacroSemantics
  import opened MacroMachine
  import opened MacroCompile
  import opened MacroPreservation
  import opened MacroStatements
  import opened MacroPrograms
  import opened MacroSoundness
  import opened MacroCompiler
  import opened MacroVm
  import opened MacroProtocol
  import opened MacroPrimitives

  // ---------- heights ----------

  function Repeated(h: nat, n: nat): (hs: seq<nat>)
    ensures |hs| == n
  {
    seq(n, _ => h)
  }

  /** The height before each instruction of an expression that is evaluated on `h` operands. */
  function Heights(e: Expr, h: nat): (hs: seq<nat>)
    ensures |hs| == SizeOf(e)
    decreases e
  {
    match e
    case Literal(_) => [h]
    case Variable(_) => [h]
    case Member(base, _) => if IsArgs(base) then [h] else Heights(base, h) + [h + 1]
    case Unary(_, operand) => Heights(operand, h) + [h + 1]
    case Binary(op, left, right) =>
      if op.And? || op.Or? then Heights(left, h) + [h + 1] + Heights(right, h)
      else Heights(left, h) + Heights(right, h + 1) + [h + 2]
    case Call(name, args) =>
      if name == "prompt" then [h]
      else if name == "cmd" && |args| == 2 then Heights(args[0], h) + [h + 1]
      else if |args| == 1 then Heights(args[0], h) + Repeated(h + 1, |CallOps(name, args)|)
      else if |args| == 2 then Heights(args[0], h) + Heights(args[1], h + 1) + Repeated(h + 2, |CallOps(name, args)|)
      else []
  }

  function StatementHeights(s: Statement): (hs: seq<nat>)
    ensures |hs| == SizeOfStatement(s)
    decreases s, 1
  {
    match s
    case Let(_, e) => Heights(e, 0) + [1]
    case Assign(_, e) => Heights(e, 0) + [1]
    case Expression(e) => Heights(e, 0) + if IsVoidCall(e) then [] else [1]
    case Block(body) => AllHeights(body)
    case If(cond, a, b) =>
      Heights(cond, 0) + [1] + StatementHeights(a) + (if b.None? then [] else [0] + StatementHeights(b.value))
    case While(_, _) => LoopHeights(s)
    case For(start, _, _, _) => OptionHeights(start) + LoopHeights(s)
    case _ => [0]
  }

  function LoopHeights(s: Statement): (hs: seq<nat>)
    requires s.While? || s.For?
    ensures |hs| == LoopSize(s)
    decreases s, 0
  {
    BoundHeights(LoopBound(s)) + StatementHeights(LoopBody(s))
      + (if LoopStep(s).None? then [] else StatementHeights(LoopStep(s).value)) + [0]
  }

  function BoundHeights(bound: Option<Expr>): (hs: seq<nat>)
    ensures |hs| == SizeOfBound(bound)
  {
    if bound.None? then [] else Heights(bound.value, 0) + [1]
  }

  function OptionHeights(s: Option<Statement>): (hs: seq<nat>)
    ensures |hs| == SizeOfOption(s)
    decreases s, 0
  {
    match s
    case None => []
    case Some(inner) => StatementHeights(inner)
  }

  function AllHeights(body: seq<Statement>): (hs: seq<nat>)
    ensures |hs| == SizeOfAll(body)
    decreases body, 0
  {
    if body == [] then [] else StatementHeights(body[0]) + AllHeights(body[1..])
  }

  /** The addresses at which the statements in `s` begin. */
  function StartsOf(s: Statement, at: nat): set<nat>
    decreases s, 1
  {
    {at} +
    match s
    case Block(body) => StartsAll(body, at)
    case If(cond, a, b) =>
      var thenAt := at + SizeOf(cond) + 1;
      StartsOf(a, thenAt) + StartsOption(b, thenAt + SizeOfStatement(a) + 1)
    case While(_, body) => StartsOf(body, BodyAt(s, at))
    case For(start, _, step, body) =>
      var loopAt := at + SizeOfOption(start);
      StartsOption(start, at) + {loopAt} + StartsOf(body, BodyAt(s, loopAt)) + StartsOption(step, StepAt(s, loopAt))
    case _ => {}
  }

  function StartsOption(s: Option<Statement>, at: nat): set<nat>
    decreases s, 0
  {
    match s
    case None => {}
    case Some(inner) => StartsOf(inner, at)
  }

  function StartsAll(body: seq<Statement>, at: nat): set<nat>
    decreases body, 0
  {
    if body == [] then {at} else StartsOf(body[0], at) + StartsAll(body[1..], at + SizeOfStatement(body[0]))
  }

  // ---------- code that keeps to its heights ----------

  predicate Leaves(builtin: Builtin) {
    builtin in {Watch, Wait}
  }

  /** The instruction at `k` finds its operands and goes on at the right height, wherever it goes. */
  predicate Flow(op: Op, k: nat, H: seq<nat>)
    requires k + 1 < |H|
  {
    var h, n := H[k], H[k + 1];
    match op
    case Push(_) | Arg(_) | PromptOp(_) | Load(_) => n == h + 1
    case Store(_) | Pop => h == n + 1
    case MatchedOp | IntegerToString | UnaryOperation(_) => h >= 1 && n == h
    case BinaryOperation(_) => h >= 2 && h == n + 1
    case Jump(t) => t < |H| && H[t] == h
    case JumpIfFalse(t) => h == n + 1 && t < |H| && H[t] == n
    case AndJump(t) => h == n + 1 && t < |H| && H[t] == h
    case OrJump(t) => h == n + 1 && t < |H| && H[t] == h
    case CallOp(b) => h >= Arity(b) && n == h - Arity(b) + if Leaves(b) then 1 else 0
  }

  ghost predicate Flows(code: seq<Op>, H: seq<nat>, from: nat, to: nat) {
    |H| == |code| + 1 && to <= |code| && forall k | from <= k < to :: Flow(code[k], k, H)
  }

  ghost predicate Zeros(H: seq<nat>, addresses: set<nat>) {
    forall k | k in addresses :: k < |H| && H[k] == 0
  }

  predicate HeightsAt(H: seq<nat>, at: nat, part: seq<nat>) {
    at + |part| <= |H| && H[at..at + |part|] == part
  }

  lemma SplitHeights(H: seq<nat>, at: nat, a: seq<nat>, b: seq<nat>)
    requires HeightsAt(H, at, a + b)
    ensures HeightsAt(H, at, a) && HeightsAt(H, at + |a|, b)
  {
    var whole := H[at..at + |a + b|];
    assert whole[..|a|] == a && whole[|a|..] == b;
    assert H[at..at + |a|] == whole[..|a|];
    assert H[at + |a|..at + |a| + |b|] == whole[|a|..];
  }

  lemma HeightAt(H: seq<nat>, at: nat, part: seq<nat>)
    requires HeightsAt(H, at, part) && part != []
    ensures at < |H| && H[at] == part[0]
  {
    assert H[at..at + |part|][0] == H[at];
  }

  lemma FlowsOne(code: seq<Op>, H: seq<nat>, k: nat)
    requires |H| == |code| + 1 && k < |code| && Flow(code[k], k, H)
    ensures Flows(code, H, k, k + 1)
  {
  }

  lemma FlowsJoin(code: seq<Op>, H: seq<nat>, from: nat, mid: nat, to: nat)
    requires Flows(code, H, from, mid) && Flows(code, H, mid, to) && from <= mid <= to
    ensures Flows(code, H, from, to)
  {
  }

  // ---------- expressions ----------

  function After(e: Expr, h: nat): nat {
    if IsVoidCall(e) then h else h + 1
  }

  /** An expression that has a type takes at least one instruction and starts at its height. */
  lemma {:induction false} StartsAtHeight(e: Expr, scopes: seq<Scope>, st: Statics, h: nat)
    requires TypeOf(e, scopes, st).Ok?
    ensures SizeOf(e) > 0 && Heights(e, h)[0] == h
    decreases e
  {
    hide TypeOf, Gen, Need;
    if IsLeaf(e) {
      var _ := LeafCode(e, scopes, 0, st);
    } else if IsPrefixed(e) {
      var operand, _ := PrefixedCode(e, scopes, 0, st);
      StartsAtHeight(operand, scopes, st, h);
    } else if e.Binary? {
      BinaryOperandTypes(e, scopes, st);
      StartsAtHeight(e.left, scopes, st, h);
    } else if IsOneArgument(e) {
      var _ := OneArgumentCode(e, scopes, 0, st);
      OneOrTwo(e, scopes, st);
      StartsAtHeight(e.args[0], scopes, st, h);
    } else {
      TwoArgumentsTypes(e, scopes, st);
      StartsAtHeight(e.args[0], scopes, st, h);
    }
  }

  lemma OneArgumentHeights(e: Expr, scopes: seq<Scope>, st: Statics, h: nat)
    requires IsOneArgument(e) && TypeOf(e, scopes, st).Ok?
    ensures |e.args| > 0 && Heights(e, h) == Heights(e.args[0], h) + [h + 1]
  {
    hide TypeOf, Gen, Need;
    var _ := OneArgumentCode(e, scopes, 0, st);
    OneOrTwo(e, scopes, st);
    assert Repeated(h + 1, 1) == [h + 1];
  }

  lemma TwoArgumentsHeights(e: Expr, h: nat)
    requires e.Call? && TwoOperands(e.callee).Some? && |e.args| == 2
    ensures Heights(e, h) == Heights(e.args[0], h) + Heights(e.args[1], h + 1) + [h + 2]
  {
    assert Repeated(h + 2, 1) == [h + 2];
  }

  ghost predicate ExpressionIn(e: Expr, scopes: seq<Scope>, at: nat, m: Machine, H: seq<nat>, h: nat) {
    && NoVoid(scopes) && TypeOf(e, scopes, StaticsOf(m)).Ok? && |H| == |m.program.code| + 1
    && CodeAt(m.program.code, at, Gen(e, scopes, at)) && HeightsAt(H, at, Heights(e, h))
    && at + SizeOf(e) < |H| && H[at + SizeOf(e)] == After(e, h)
  }

  lemma {:induction false} ExpressionFlows(e: Expr, scopes: seq<Scope>, at: nat, m: Machine, H: seq<nat>, h: nat)
    requires ExpressionIn(e, scopes, at, m, H, h)
    ensures Flows(m.program.code, H, at, at + SizeOf(e))
    decreases SizeOf(e), 1
  {
    hide Gen, TypeOf, SizeOf, Need, CodeAt, HeightsAt, Heights, Flows, NoVoid;
    if IsLeaf(e) {
      var op := LeafCode(e, scopes, at, StaticsOf(m));
      LeafHeights(e, h);
      OpAt(m.program.code, at, op);
      HeightAt(H, at, [h]);
      FlowsOne(m.program.code, H, at);
    } else if IsPrefixed(e) {
      PrefixedFlows(e, scopes, at, m, H, h);
    } else if e.Binary? {
      BinaryFlows(e, scopes, at, m, H, h);
    } else if IsOneArgument(e) {
      OneArgumentFlows(e, scopes, at, m, H, h);
    } else {
      TwoArgumentsFlow(e, scopes, at, m, H, h);
    }
  }

  lemma {:induction false} PrefixedFlows(e: Expr, scopes: seq<Scope>, at: nat, m: Machine, H: seq<nat>, h: nat)
    requires IsPrefixed(e) && ExpressionIn(e, scopes, at, m, H, h)
    ensures Flows(m.program.code, H, at, at + SizeOf(e))
    decreases SizeOf(e), 0
  {
    hide Gen, TypeOf, SizeOf, Need, CodeAt, HeightsAt, Heights, Flows, NoVoid;
    var operand, op := PrefixedCode(e, scopes, at, StaticsOf(m));
    VoidCalls(operand, scopes, StaticsOf(m));
    PrefixedHeights(e, h);
    OperandFlows(operand, scopes, at, m, H, h, op, h + 1);
    FlowsOne(m.program.code, H, at + SizeOf(operand));
    FlowsJoin(m.program.code, H, at, at + SizeOf(operand), at + SizeOf(e));
  }

  lemma {:induction false} OneArgumentFlows(e: Expr, scopes: seq<Scope>, at: nat, m: Machine, H: seq<nat>, h: nat)
    requires IsOneArgument(e) && ExpressionIn(e, scopes, at, m, H, h)
    ensures Flows(m.program.code, H, at, at + SizeOf(e))
    decreases SizeOf(e), 0
  {
    hide Gen, TypeOf, SizeOf, Need, CodeAt, HeightsAt, Heights, Flows, NoVoid;
    var op := OneArgumentCode(e, scopes, at, StaticsOf(m));
    OneArgumentHeights(e, scopes, StaticsOf(m), h);
    VoidCalls(e.args[0], scopes, StaticsOf(m));
    OperandFlows(e.args[0], scopes, at, m, H, h, op, h + 1);
    FlowsOne(m.program.code, H, at + SizeOf(e.args[0]));
    FlowsJoin(m.program.code, H, at, at + SizeOf(e.args[0]), at + SizeOf(e));
  }

  lemma {:induction false} TwoArgumentsFlow(e: Expr, scopes: seq<Scope>, at: nat, m: Machine, H: seq<nat>, h: nat)
    requires e.Call? && TwoOperands(e.callee).Some? && ExpressionIn(e, scopes, at, m, H, h)
    ensures Flows(m.program.code, H, at, at + SizeOf(e))
    decreases SizeOf(e), 0
  {
    hide Gen, TypeOf, SizeOf, Need, CodeAt, HeightsAt, Heights, Flows, NoVoid;
    TwoArgumentsTypes(e, scopes, StaticsOf(m));
    TwoArgumentsUnfold(e, scopes, at);
    TwoArgumentsHeights(e, h);
    VoidCalls(e.args[0], scopes, StaticsOf(m));
    VoidCalls(e.args[1], scopes, StaticsOf(m));
    var k := at + SizeOf(e.args[0]) + SizeOf(e.args[1]);
    PairFlows(e.args[0], e.args[1], scopes, at, m, H, h, CallOp(TwoOperands(e.callee).value));
    FlowsOne(m.program.code, H, k);
    FlowsJoin(m.program.code, H, at, k, at + SizeOf(e));
  }

  lemma LeafHeights(e: Expr, h: nat)
    requires IsLeaf(e) && SizeOf(e) == 1
    ensures Heights(e, h) == [h]
  {
  }

  lemma PrefixedHeights(e: Expr, h: nat)
    requires IsPrefixed(e)
    ensures Heights(e, h) == Heights(if e.Member? then e.base else e.operand, h) + [h + 1]
  {
  }

  lemma OperatorHeights(e: Expr, h: nat)
    requires e.Binary?
    ensures Heights(e, h) == if e.bop.And? || e.bop.Or? then Heights(e.left, h) + [h + 1] + Heights(e.right, h)
                             else Heights(e.left, h) + Heights(e.right, h + 1) + [h + 2]
  {
  }

  /** An operand and the instruction behind it. */
  lemma {:induction false} OperandFlows(e: Expr, scopes: seq<Scope>, at: nat, m: Machine, H: seq<nat>, h: nat, op: Op,
                                        n: nat)
    requires NoVoid(scopes) && TypeOf(e, scopes, StaticsOf(m)).Ok? && |H| == |m.program.code| + 1 && n == After(e, h)
    requires CodeAt(m.program.code, at, Gen(e, scopes, at) + [op]) && HeightsAt(H, at, Heights(e, h) + [n])
    ensures Flows(m.program.code, H, at, at + SizeOf(e))
    ensures var k := at + SizeOf(e); k < |m.program.code| && m.program.code[k] == op && H[k] == n
    decreases SizeOf(e), 2
  {
    hide Gen, TypeOf, SizeOf, CodeAt, HeightsAt, Heights, Flows, NoVoid;
    SplitCode(m.program.code, at, Gen(e, scopes, at), [op]);
    SplitHeights(H, at, Heights(e, h), [n]);
    OpAt(m.program.code, at + SizeOf(e), op);
    HeightAt(H, at + SizeOf(e), [n]);
    ExpressionFlows(e, scopes, at, m, H, h);
  }

  /** Two operands and the instruction behind them. */
  lemma {:induction false} PairFlows(left: Expr, right: Expr, scopes: seq<Scope>, at: nat, m: Machine, H: seq<nat>,
                                     h: nat, op: Op)
    requires NoVoid(scopes) && TypeOf(left, scopes, StaticsOf(m)).Ok? && TypeOf(right, scopes, StaticsOf(m)).Ok?
             && |H| == |m.program.code| + 1
    requires !IsVoidCall(left) && !IsVoidCall(right)
    requires CodeAt(m.program.code, at, Gen(left, scopes, at) + Gen(right, scopes, at + SizeOf(left)) + [op])
    requires HeightsAt(H, at, Heights(left, h) + Heights(right, h + 1) + [h + 2])
    ensures Flows(m.program.code, H, at, at + SizeOf(left) + SizeOf(right))
    ensures var k := at + SizeOf(left) + SizeOf(right); k < |m.program.code| && m.program.code[k] == op && H[k] == h + 2
    decreases SizeOf(left) + SizeOf(right), 3
  {
    hide Gen, TypeOf, SizeOf, CodeAt, HeightsAt, Heights, Flows, NoVoid;
    var code, a, b := m.program.code, Gen(left, scopes, at), Gen(right, scopes, at + SizeOf(left));
    assert a + b + [op] == a + (b + [op]);
    SplitCode(code, at, a, b + [op]);
    assert Heights(left, h) + Heights(right, h + 1) + [h + 2] == Heights(left, h) + (Heights(right, h + 1) + [h + 2]);
    SplitHeights(H, at, Heights(left, h), Heights(right, h + 1) + [h + 2]);
    StartsAtHeight(left, scopes, StaticsOf(m), h);
    StartsAtHeight(right, scopes, StaticsOf(m), h + 1);
    HeightAt(H, at + SizeOf(left), Heights(right, h + 1) + [h + 2]);
    ExpressionFlows(left, scopes, at, m, H, h);
    OperandFlows(right, scopes, at + SizeOf(left), m, H, h + 1, op, h + 2);
    FlowsJoin(code, H, at, at + SizeOf(left), at + SizeOf(left) + SizeOf(right));
  }

  lemma {:induction false} BinaryFlows(e: Expr, scopes: seq<Scope>, at: nat, m: Machine, H: seq<nat>, h: nat)
    requires e.Binary? && ExpressionIn(e, scopes, at, m, H, h)
    ensures Flows(m.program.code, H, at, at + SizeOf(e))
    decreases SizeOf(e), 0
  {
    hide Gen, TypeOf, SizeOf, Need, CodeAt, HeightsAt, Heights, Flows, NoVoid;
    BinaryOperandTypes(e, scopes, StaticsOf(m));
    OperandsLeaveValues(e, scopes, StaticsOf(m));
    OperatorHeights(e, h);
    if e.bop.And? || e.bop.Or? {
      var branch := ShortCircuitUnfolds(e, scopes, at);
      BranchFlows(e.left, e.right, scopes, at, m, H, h, branch);
    } else {
      OperatorUnfolds(e, scopes, at);
      var k := at + SizeOf(e.left) + SizeOf(e.right);
      PairFlows(e.left, e.right, scopes, at, m, H, h, BinaryOperation(e.bop));
      FlowsOne(m.program.code, H, k);
      FlowsJoin(m.program.code, H, at, k, k + 1);
    }
  }

  lemma OperandsLeaveValues(e: Expr, scopes: seq<Scope>, st: Statics)
    requires e.Binary? && TypeOf(e, scopes, st).Ok? && NoVoid(scopes)
    ensures !IsVoidCall(e.left) && !IsVoidCall(e.right)
  {
    hide TypeOf, NoVoid;
    BinaryOperandTypes(e, scopes, st);
    VoidCalls(e.left, scopes, st);
    VoidCalls(e.right, scopes, st);
  }

  /** The operands of a short-circuit operator and the branch between them. */
  lemma {:induction false} BranchFlows(left: Expr, right: Expr, scopes: seq<Scope>, at: nat, m: Machine, H: seq<nat>,
                                       h: nat, branch: Op)
    requires NoVoid(scopes) && TypeOf(left, scopes, StaticsOf(m)).Ok? && TypeOf(right, scopes, StaticsOf(m)).Ok?
             && |H| == |m.program.code| + 1
    requires !IsVoidCall(left) && !IsVoidCall(right)
    requires CodeAt(m.program.code, at, Gen(left, scopes, at) + [branch] + Gen(right, scopes, at + SizeOf(left) + 1))
    requires HeightsAt(H, at, Heights(left, h) + [h + 1] + Heights(right, h))
    requires var end := at + SizeOf(left) + SizeOf(right) + 1;
             (branch == AndJump(end) || branch == OrJump(end)) && end < |H| && H[end] == h + 1
    ensures Flows(m.program.code, H, at, at + SizeOf(left) + SizeOf(right) + 1)
    decreases SizeOf(left) + SizeOf(right), 3
  {
    hide Gen, TypeOf, SizeOf, CodeAt, HeightsAt, Heights, Flows, NoVoid;
    var code, mid, end := m.program.code, at + SizeOf(left), at + SizeOf(left) + SizeOf(right) + 1;
    SplitCode(code, at, Gen(left, scopes, at) + [branch], Gen(right, scopes, mid + 1));
    SplitHeights(H, at, Heights(left, h) + [h + 1], Heights(right, h));
    StartsAtHeight(left, scopes, StaticsOf(m), h);
    StartsAtHeight(right, scopes, StaticsOf(m), h);
    HeightAt(H, mid + 1, Heights(right, h));
    OperandFlows(left, scopes, at, m, H, h, branch, h + 1);
    ExpressionFlows(right, scopes, mid + 1, m, H, h);
    FlowsOne(code, H, mid);
    FlowsJoin(code, H, at, mid, mid + 1);
    FlowsJoin(code, H, at, mid + 1, end);
  }

  // ---------- statements ----------

  predicate IsZero(H: seq<nat>, k: nat) {
    k < |H| && H[k] == 0
  }

  lemma {:induction false} CheckNoVoid(s: Statement, ctx: Context, inLoop: bool, st: Statics)
    requires NoVoid(ctx.scopes) && Check(s, ctx, inLoop, st).Ok?
    ensures NoVoid(Check(s, ctx, inLoop, st).value.scopes)
    decreases s, 1
  {
    hide TypeOf, CheckCondition;
    match s
    case Block(body) => CheckAllNoVoid(body, PushScope(ctx), inLoop, st);
    case If(_, a, b) =>
      CheckNoVoid(a, ctx, inLoop, st);
      if b.Some? { CheckNoVoid(b.value, Check(a, ctx, inLoop, st).value, inLoop, st); }
    case While(_, body) => CheckNoVoid(body, ctx, true, st);
    case For(start, _, step, body) =>
      var head := CheckOption(start, PushScope(ctx), inLoop, st).value;
      if start.Some? { CheckNoVoid(start.value, PushScope(ctx), inLoop, st); }
      CheckNoVoid(body, head, true, st);
      if step.Some? { CheckNoVoid(step.value, Check(body, head, true, st).value, true, st); }
    case _ =>
  }

  lemma {:induction false} CheckAllNoVoid(body: seq<Statement>, ctx: Context, inLoop: bool, st: Statics)
    requires NoVoid(ctx.scopes) && CheckAll(body, ctx, inLoop, st).Ok?
    ensures NoVoid(CheckAll(body, ctx, inLoop, st).value.scopes)
    decreases body, 0
  {
    hide Check, NoVoid;
    if body != [] {
      CheckNoVoid(body[0], ctx, inLoop, st);
      CheckAllNoVoid(body[1..], Check(body[0], ctx, inLoop, st).value, inLoop, st);
    }
  }

  /** A statement of checked code in its place: zero behind it, and where `break` and `continue` go. */
  ghost predicate StatementIn(s: Statement, ctx: Context, inLoop: bool, at: nat, exits: Exits, m: Machine,
                              H: seq<nat>) {
    && Braced(s) && NoVoid(ctx.scopes) && Check(s, ctx, inLoop, StaticsOf(m)).Ok? && |H| == |m.program.code| + 1
    && CodeAt(m.program.code, at, GenStatement(s, ctx, at, exits, StaticsOf(m)))
    && HeightsAt(H, at, StatementHeights(s))
    && IsZero(H, at + SizeOfStatement(s)) && (inLoop ==> IsZero(H, exits.breakTo) && IsZero(H, exits.continueTo))
  }

  ghost predicate StatementOut(s: Statement, at: nat, m: Machine, H: seq<nat>) {
    Flows(m.program.code, H, at, at + SizeOfStatement(s)) && IsZero(H, at) && Zeros(H, StartsOf(s, at))
  }

  lemma SimpleFlows(s: Statement, ctx: Context, inLoop: bool, at: nat, exits: Exits, m: Machine, H: seq<nat>)
    requires s.Let? || s.Assign? || s.Expression?
    requires StatementIn(s, ctx, inLoop, at, exits, m, H)
    ensures StatementOut(s, at, m, H)
  {
    hide Gen, TypeOf, SizeOf, CodeAt, HeightsAt, Heights, Flows, NoVoid;
    var code, st := m.program.code, StaticsOf(m);
    var e := match s { case Let(_, e) => e case Assign(_, e) => e case Expression(e) => e };
    assert TypeOf(e, ctx.scopes, st).Ok?;
    if s.Assign? { AssignedNotVoid(s, ctx, inLoop, st); }
    VoidCalls(e, ctx.scopes, st);
    StartsAtHeight(e, ctx.scopes, st, 0);
    if IsVoidCall(e) {
      assert GenStatement(s, ctx, at, exits, st) == Gen(e, ctx.scopes, at) && StatementHeights(s) == Heights(e, 0);
      HeightAt(H, at, Heights(e, 0));
      ExpressionFlows(e, ctx.scopes, at, m, H, 0);
    } else {
      var op := match s { case Let(_, _) => Store(ctx.variables) case Assign(name, _) =>
                         Store(SlotOf(name, ctx.scopes)) case Expression(_) => Pop };
      assert GenStatement(s, ctx, at, exits, st) == Gen(e, ctx.scopes, at) + [op];
      HeightAt(H, at, Heights(e, 0) + [1]);
      OperandFlows(e, ctx.scopes, at, m, H, 0, op, 1);
      FlowsOne(code, H, at + SizeOf(e));
      FlowsJoin(code, H, at, at + SizeOf(e), at + SizeOf(e) + 1);
    }
  }

  lemma AssignedNotVoid(s: Statement, ctx: Context, inLoop: bool, st: Statics)
    requires s.Assign? && NoVoid(ctx.scopes) && Check(s, ctx, inLoop, st).Ok?
    ensures TypeOf(s.value, ctx.scopes, st).Ok? && !TypeOf(s.value, ctx.scopes, st).value.VoidType?
  {
    hide TypeOf;
    var k := LevelOf(ctx.scopes, s.target);
    assert s.target in ctx.scopes[k];
  }

  /** A condition and the branch behind it. */
  lemma ConditionFlows(cond: Expr, ctx: Context, at: nat, target: nat, m: Machine, H: seq<nat>)
    requires NoVoid(ctx.scopes) && CheckCondition(cond, ctx, StaticsOf(m)).Ok? && |H| == |m.program.code| + 1
    requires CodeAt(m.program.code, at, Gen(cond, ctx.scopes, at) + [JumpIfFalse(target)])
             && HeightsAt(H, at, Heights(cond, 0) + [1])
    requires IsZero(H, at + SizeOf(cond) + 1) && IsZero(H, target)
    ensures Flows(m.program.code, H, at, at + SizeOf(cond) + 1) && IsZero(H, at)
  {
    hide Gen, TypeOf, SizeOf, CodeAt, HeightsAt, Heights, Flows, NoVoid;
    VoidCalls(cond, ctx.scopes, StaticsOf(m));
    StartsAtHeight(cond, ctx.scopes, StaticsOf(m), 0);
    HeightAt(H, at, Heights(cond, 0) + [1]);
    OperandFlows(cond, ctx.scopes, at, m, H, 0, JumpIfFalse(target), 1);
    FlowsOne(m.program.code, H, at + SizeOf(cond));
    FlowsJoin(m.program.code, H, at, at + SizeOf(cond), at + SizeOf(cond) + 1);
  }

  lemma {:induction false} StatementFlows(s: Statement, ctx: Context, inLoop: bool, at: nat, exits: Exits, m: Machine,
                                          H: seq<nat>)
    requires StatementIn(s, ctx, inLoop, at, exits, m, H)
    ensures StatementOut(s, at, m, H)
    decreases s, 3
  {
    hide Gen, TypeOf, SizeOf, CodeAt, HeightsAt, Heights, Flows, NoVoid, CheckCondition, GenAll, GenLoop, AllHeights,
         LoopHeights, Zeros;
    match s
    case Block(body) =>
      NoVoidPush(ctx.scopes);
      AllFlows(body, PushScope(ctx), inLoop, at, exits, m, H);
      StartsBlock(body, at, H);
    case If(_, _, _) => IfFlows(s, ctx, inLoop, at, exits, m, H);
    case While(_, _) =>
      WhileChecked(s, ctx, inLoop, StaticsOf(m));
      LoopFlows(s, ctx, at, m, H);
      StartsWhile(s, at, H);
    case For(_, _, _, _) => ForFlows(s, ctx, inLoop, at, exits, m, H);
    case Break => JumpFlows(s, at, Jump(exits.breakTo), m, H);
    case Continue => JumpFlows(s, at, Jump(exits.continueTo), m, H);
    case Empty => JumpFlows(s, at, Jump(at + 1), m, H);
    case _ => SimpleFlows(s, ctx, inLoop, at, exits, m, H);
  }

  lemma JumpFlows(s: Statement, at: nat, op: Op, m: Machine, H: seq<nat>)
    requires (s.Break? || s.Continue? || s.Empty?) && op.Jump? && IsZero(H, op.target) && |H| == |m.program.code| + 1
    requires CodeAt(m.program.code, at, [op]) && HeightsAt(H, at, [0])
    ensures StatementOut(s, at, m, H)
  {
    OpAt(m.program.code, at, op);
    HeightAt(H, at, [0]);
  }

  lemma StartsBlock(body: seq<Statement>, at: nat, H: seq<nat>)
    requires Zeros(H, StartsAll(body, at)) && IsZero(H, at)
    ensures Zeros(H, StartsOf(Block(body), at))
  {
  }

  lemma StartsWhile(s: Statement, at: nat, H: seq<nat>)
    requires s.While? && Zeros(H, StartsOf(s.loopBody, BodyAt(s, at))) && IsZero(H, at)
    ensures Zeros(H, StartsOf(s, at))
  {
  }

  lemma {:induction false} AllFlows(body: seq<Statement>, ctx: Context, inLoop: bool, at: nat, exits: Exits,
                                    m: Machine, H: seq<nat>)
    requires BracedAll(body) && NoVoid(ctx.scopes) && CheckAll(body, ctx, inLoop, StaticsOf(m)).Ok?
             && |H| == |m.program.code| + 1
    requires CodeAt(m.program.code, at, GenAll(body, ctx, at, exits, StaticsOf(m)))
             && HeightsAt(H, at, AllHeights(body))
    requires IsZero(H, at + SizeOfAll(body)) && (inLoop ==> IsZero(H, exits.breakTo) && IsZero(H, exits.continueTo))
    ensures Flows(m.program.code, H, at, at + SizeOfAll(body)) && IsZero(H, at) && Zeros(H, StartsAll(body, at))
    decreases body, 2
  {
    hide GenStatement, SizeOfStatement, StatementHeights, Check, CodeAt, HeightsAt, NoVoid, Flow, StartsOf;
    if body != [] {
      var s, rest, st := body[0], body[1..], StaticsOf(m);
      var restAt := at + SizeOfStatement(s);
      LoopIrrelevant(s, ctx, inLoop, st);
      CheckNoVoid(s, ctx, inLoop, st);
      SplitCode(m.program.code, at, GenStatement(s, ctx, at, exits, st),
                GenAll(rest, Next(s, ctx, st), restAt, exits, st));
      SplitHeights(H, at, StatementHeights(s), AllHeights(rest));
      AllFlows(rest, Next(s, ctx, st), inLoop, restAt, exits, m, H);
      StatementFlows(s, ctx, inLoop, at, exits, m, H);
      FlowsJoin(m.program.code, H, at, restAt, at + SizeOfAll(body));
    }
  }

  lemma {:induction false} IfFlows(s: Statement, ctx: Context, inLoop: bool, at: nat, exits: Exits, m: Machine,
                                   H: seq<nat>)
    requires s.If? && StatementIn(s, ctx, inLoop, at, exits, m, H)
    ensures StatementOut(s, at, m, H)
    decreases s, 2
  {
    hide Gen, TypeOf, SizeOf, CodeAt, HeightsAt, Heights, Flows, NoVoid, CheckCondition, Check, GenStatement,
         SizeOfStatement, StatementHeights,
         StartsOf, Next;
    var code, st, a, alt := m.program.code, StaticsOf(m), s.thenBranch, s.elseBranch;
    IfVerdict(s, ctx, inLoop, st);
    CheckNoVoid(a, ctx, inLoop, st);
    IfLayout(code, s, ctx, at, exits, st);
    IfHeights(s, at, H);
    var thenAt := at + SizeOf(s.cond) + 1;
    var thenEnd := thenAt + SizeOfStatement(a);
    if alt.Some? {
      assert BracedOption(alt);
      StatementFlows(alt.value, Next(a, ctx, st), inLoop, thenEnd + 1, exits, m, H);
      FlowsOne(code, H, thenEnd);
      FlowsJoin(code, H, thenEnd, thenEnd + 1, at + SizeOfStatement(s));
    }
    StatementFlows(a, ctx, inLoop, thenAt, exits, m, H);
    ConditionFlows(s.cond, ctx, at, if alt.None? then thenEnd else thenEnd + 1, m, H);
    FlowsJoin(code, H, at, thenAt, thenEnd);
    if alt.Some? { FlowsJoin(code, H, at, thenEnd, at + SizeOfStatement(s)); }
    StartsIf(s, at, H);
  }

  lemma IfHeights(s: Statement, at: nat, H: seq<nat>)
    requires s.If? && HeightsAt(H, at, StatementHeights(s))
    ensures var thenAt := at + SizeOf(s.cond) + 1;
            var thenEnd := thenAt + SizeOfStatement(s.thenBranch);
            && HeightsAt(H, at, Heights(s.cond, 0) + [1])
            && HeightsAt(H, thenAt, StatementHeights(s.thenBranch))
            && (s.elseBranch.None? ==> SizeOfStatement(s) == thenEnd - at)
            && (s.elseBranch.Some? ==>
                  && IsZero(H, thenEnd) && HeightsAt(H, thenEnd + 1, StatementHeights(s.elseBranch.value))
                  && SizeOfStatement(s) == thenEnd + 1 - at + SizeOfStatement(s.elseBranch.value))
  {
    hide HeightsAt, Heights, SizeOf;
    var head, a := Heights(s.cond, 0) + [1], StatementHeights(s.thenBranch);
    var tail := if s.elseBranch.None? then [] else [0] + StatementHeights(s.elseBranch.value);
    SplitHeights(H, at, head + a, tail);
    SplitHeights(H, at, head, a);
    if s.elseBranch.Some? {
      var k := at + |head| + |a|;
      SplitHeights(H, k, [0], StatementHeights(s.elseBranch.value));
      HeightAt(H, k, [0]);
    }
  }

  lemma StartsIf(s: Statement, at: nat, H: seq<nat>)
    requires s.If? && IsZero(H, at)
    requires var thenAt := at + SizeOf(s.cond) + 1;
             && Zeros(H, StartsOf(s.thenBranch, thenAt))
             && (s.elseBranch.Some? ==>
                 Zeros(H, StartsOf(s.elseBranch.value, thenAt + SizeOfStatement(s.thenBranch) + 1)))
    ensures Zeros(H, StartsOf(s, at))
  {
  }

  // ---------- loops ----------

  /** The parts of a loop whose test is checked in `head`. */
  ghost predicate LoopTyped(s: Statement, head: Context, st: Statics) {
    && (s.While? || s.For?) && NoVoid(head.scopes) && Braced(LoopBody(s)) && SimpleOption(LoopStep(s))
    && (LoopBound(s).Some? ==> CheckCondition(LoopBound(s).value, head, st).Ok?)
    && Check(LoopBody(s), head, true, st).Ok?
    && (LoopStep(s).Some? ==> Check(LoopStep(s).value, Next(LoopBody(s), head, st), true, st).Ok?)
  }

  lemma WhileChecked(s: Statement, ctx: Context, inLoop: bool, st: Statics)
    requires s.While? && Braced(s) && NoVoid(ctx.scopes) && Check(s, ctx, inLoop, st).Ok?
    ensures LoopTyped(s, ctx, st)
  {
    hide CheckCondition, NoVoid;
  }

  lemma ForChecked(s: Statement, ctx: Context, inLoop: bool, st: Statics)
    requires s.For? && Braced(s) && NoVoid(ctx.scopes) && Check(s, ctx, inLoop, st).Ok?
    ensures CheckOption(s.start, PushScope(ctx), inLoop, st).Ok? && SimpleOption(s.start)
            && LoopTyped(s, NextOption(s.start, PushScope(ctx), st), st)
  {
    hide CheckCondition;
    NoVoidPush(ctx.scopes);
    hide NoVoid;
    if s.start.Some? {
      LoopIrrelevant(s.start.value, PushScope(ctx), inLoop, st);
      CheckNoVoid(s.start.value, PushScope(ctx), inLoop, st);
    }
  }

  lemma LoopHeightsAt(s: Statement, at: nat, H: seq<nat>)
    requires (s.While? || s.For?) && HeightsAt(H, at, LoopHeights(s))
    ensures LoopBound(s).Some? ==> HeightsAt(H, at, Heights(LoopBound(s).value, 0) + [1])
    ensures HeightsAt(H, BodyAt(s, at), StatementHeights(LoopBody(s)))
    ensures LoopStep(s).Some? ==> HeightsAt(H, StepAt(s, at), StatementHeights(LoopStep(s).value))
    ensures IsZero(H, StepAt(s, at) + SizeOfOption(LoopStep(s)))
  {
    hide HeightsAt, Heights, StatementHeights, SizeOf, SizeOfStatement;
    var bound, body := BoundHeights(LoopBound(s)), StatementHeights(LoopBody(s));
    var step := if LoopStep(s).None? then [] else StatementHeights(LoopStep(s).value);
    SplitHeights(H, at, bound + body + step, [0]);
    SplitHeights(H, at, bound + body, step);
    SplitHeights(H, at, bound, body);
    HeightAt(H, at + |bound + body + step|, [0]);
  }

  lemma {:induction false} LoopFlows(s: Statement, head: Context, at: nat, m: Machine, H: seq<nat>)
    requires LoopTyped(s, head, StaticsOf(m)) && |H| == |m.program.code| + 1
    requires CodeAt(m.program.code, at, GenLoop(s, head, at, StaticsOf(m))) && HeightsAt(H, at, LoopHeights(s))
    requires IsZero(H, at + LoopSize(s))
    ensures Flows(m.program.code, H, at, at + LoopSize(s)) && IsZero(H, at)
    ensures Zeros(H, StartsOf(LoopBody(s), BodyAt(s, at))) && Zeros(H, StartsOption(LoopStep(s), StepAt(s, at)))
    decreases s, 1
  {
    hide Gen, TypeOf, SizeOf, CodeAt, HeightsAt, Heights, LoopHeights, Flows, Flow, NoVoid, CheckCondition, Check,
         GenStatement, GenLoop,
         SizeOfStatement, StatementHeights, StartsOf, Next;
    var code, st, exits, body := m.program.code, StaticsOf(m), LoopExits(s, at), LoopBody(s);
    var ctx, bodyAt, stepAt := Next(body, head, st), BodyAt(s, at), StepAt(s, at);
    var end := stepAt + SizeOfOption(LoopStep(s));
    LoopLayout(m, s, head, at);
    LoopHeightsAt(s, at, H);
    BodyLeaves(body, head, st);
    if LoopStep(s).Some? {
      StepFlows(s, head, at, m, H);
    }
    TestStartsAtZero(s, head, at, m, H);
    StatementFlows(body, head, true, bodyAt, exits, m, H);
    BackFlows(code, H, end, at);
    if LoopBound(s).Some? {
      ConditionFlows(LoopBound(s).value, head, at, at + LoopSize(s), m, H);
      FlowsJoin(code, H, at, bodyAt, stepAt);
    }
    if LoopStep(s).Some? { FlowsJoin(code, H, at, stepAt, end); }
    FlowsJoin(code, H, at, end, at + LoopSize(s));
  }

  lemma BodyLeaves(body: Statement, head: Context, st: Statics)
    requires NoVoid(head.scopes) && Check(body, head, true, st).Ok?
    ensures NoVoid(Next(body, head, st).scopes)
  {
    CheckNoVoid(body, head, true, st);
  }

  /** Before a `while` loop's test, and so where its `continue` goes, the height is zero. */
  lemma TestStartsAtZero(s: Statement, head: Context, at: nat, m: Machine, H: seq<nat>)
    requires LoopTyped(s, head, StaticsOf(m))
             && (LoopBound(s).Some? ==> HeightsAt(H, at, Heights(LoopBound(s).value, 0) + [1]))
    ensures LoopBound(s).Some? ==> IsZero(H, at)
  {
    hide TypeOf, Heights, HeightsAt, NoVoid;
    if LoopBound(s).Some? {
      StartsAtHeight(LoopBound(s).value, head.scopes, StaticsOf(m), 0);
      HeightAt(H, at, Heights(LoopBound(s).value, 0) + [1]);
    }
  }

  lemma SimpleAnywhere(s: Statement, ctx: Context, st: Statics)
    requires s.Let? || s.Assign? || s.Expression?
    ensures Check(s, ctx, false, st) == Check(s, ctx, true, st) && Braced(s)
  {
  }

  lemma BackFlows(code: seq<Op>, H: seq<nat>, k: nat, target: nat)
    requires |H| == |code| + 1 && k < |code| && code[k] == Jump(target) && IsZero(H, k) && IsZero(H, target)
    ensures Flows(code, H, k, k + 1)
  {
  }

  lemma {:induction false} StepFlows(s: Statement, head: Context, at: nat, m: Machine, H: seq<nat>)
    requires LoopTyped(s, head, StaticsOf(m)) && LoopStep(s).Some? && |H| == |m.program.code| + 1
    requires CodeAt(m.program.code, at, GenLoop(s, head, at, StaticsOf(m))) && HeightsAt(H, at, LoopHeights(s))
    requires IsZero(H, at + LoopSize(s))
    ensures StatementOut(LoopStep(s).value, StepAt(s, at), m, H)
    decreases s, 0
  {
    hide Gen, TypeOf, SizeOf, CodeAt, HeightsAt, Heights, LoopHeights, Flows, Flow, NoVoid, CheckCondition, Check,
         GenStatement, GenLoop,
         SizeOfStatement, StatementHeights, StartsOf, Next;
    LoopLayout(m, s, head, at);
    LoopHeightsAt(s, at, H);
    BodyLeaves(LoopBody(s), head, StaticsOf(m));
    SimpleAnywhere(LoopStep(s).value, Next(LoopBody(s), head, StaticsOf(m)), StaticsOf(m));
    SimpleFlows(LoopStep(s).value, Next(LoopBody(s), head, StaticsOf(m)), false, StepAt(s, at), LoopExits(s, at), m, H);
  }

  lemma {:induction false} ForFlows(s: Statement, ctx: Context, inLoop: bool, at: nat, exits: Exits, m: Machine,
                                    H: seq<nat>)
    requires s.For? && StatementIn(s, ctx, inLoop, at, exits, m, H)
    ensures StatementOut(s, at, m, H)
    decreases s, 2
  {
    hide Gen, TypeOf, SizeOf, CodeAt, HeightsAt, Heights, LoopHeights, Flows, Flow, NoVoid, CheckCondition, Check,
         GenStatement, GenLoop,
         SizeOfStatement, StatementHeights, StartsOf, LoopSize, Next, Braced, SimpleOption;
    var code, loopAt := m.program.code, at + SizeOfOption(s.start);
    var head := NextOption(s.start, PushScope(ctx), StaticsOf(m));
    NoVoidPush(ctx.scopes);
    ForChecked(s, ctx, inLoop, StaticsOf(m));
    ForLayout(code, s, ctx, at, exits, StaticsOf(m));
    ForHeights(s, at, H);
    LoopFlows(s, head, loopAt, m, H);
    if s.start.Some? {
      ClauseFlows(s.start, PushScope(ctx), inLoop, at, exits, m, H);
      FlowsJoin(code, H, at, loopAt, at + SizeOfStatement(s));
    }
    StartsFor(s, at, H);
  }

  lemma ClauseFlows(s: Option<Statement>, ctx: Context, inLoop: bool, at: nat, exits: Exits, m: Machine, H: seq<nat>)
    requires s.Some? && SimpleOption(s) && (inLoop ==> IsZero(H, exits.breakTo) && IsZero(H, exits.continueTo))
    requires NoVoid(ctx.scopes) && CheckOption(s, ctx, inLoop, StaticsOf(m)).Ok? && |H| == |m.program.code| + 1
    requires CodeAt(m.program.code, at, GenStatement(s.value, ctx, at, exits, StaticsOf(m)))
             && HeightsAt(H, at, OptionHeights(s))
    requires IsZero(H, at + SizeOfOption(s))
    ensures StatementOut(s.value, at, m, H)
  {
    hide CodeAt, HeightsAt, NoVoid, TypeOf, Gen;
    SimpleAnywhere(s.value, ctx, StaticsOf(m));
    SimpleFlows(s.value, ctx, inLoop, at, exits, m, H);
  }

  lemma ForHeights(s: Statement, at: nat, H: seq<nat>)
    requires s.For? && HeightsAt(H, at, StatementHeights(s))
    ensures HeightsAt(H, at, OptionHeights(s.start)) && HeightsAt(H, at + SizeOfOption(s.start), LoopHeights(s))
  {
    hide HeightsAt, LoopHeights;
    SplitHeights(H, at, OptionHeights(s.start), LoopHeights(s));
  }

  lemma StartsFor(s: Statement, at: nat, H: seq<nat>)
    requires s.For? && IsZero(H, at)
    requires var loopAt := at + SizeOfOption(s.start);
             && Zeros(H, StartsOption(s.start, at)) && IsZero(H, loopAt)
             && Zeros(H, StartsOf(s.forBody, BodyAt(s, loopAt))) && Zeros(H, StartsOption(s.step, StepAt(s, loopAt)))
    ensures Zeros(H, StartsOf(s, at))
  {
  }
}
