/** What crates/serial-macro/src/compiler.rs computes, as functions: the verdict of the type
    checker (the first error, in the compiler's order) and the code, laid out at absolute
    addresses. The one-pass compiler that emits and patches is class `Compiler` in
    MacroCompiler.dfy; it is proved to produce exactly this. */
module MacroCompile {
  import opened Wrappers
  import opened MacroCore
  import opened MacroSemantics
  import opened MacroMachine

  datatype Type = Plain(scalar: ValueType) | WatcherType | VoidType

  const STRING := Plain(StringType)
  const INTEGER := Plain(IntegerType)
  const BOOLEAN := Plain(BooleanType)

  /** A declared variable: its slot and its type. */
  datatype Declaration = Declaration(index: nat, kind: Type)

  type Scope = map<string, Declaration>

  /** What changes while compiling, apart from the code. */
  datatype Context = Context(scopes: seq<Scope>, variables: nat)

  /** What does not. */
  datatype Statics = Statics(parameters: map<string, ValueType>, limits: Limits)

  function Require(actual: Type, expected: Type): Result<()> {
    if actual == expected then Ok(()) else Err(TypeError)
  }

  // ---------- static string checks ----------

  /** `constant_string`: the text of a concatenation of literals. */
  function ConstantString(e: Expr, maxBytes: nat): Result<Option<string>> {
    match e
    case Literal(Str(text)) => Ok(Some(text))
    case Binary(Add, left, right) =>
      var a :- ConstantString(left, maxBytes);
      var b :- ConstantString(right, maxBytes);
      if a.Some? && b.Some? then
        if Utf8Len(a.value) + Utf8Len(b.value) > maxBytes then Err(StringLimit) else Ok(Some(a.value + b.value))
      else Ok(None)
    case _ => Ok(None)
  }

  /** The check on a constant command text. */
  function CheckCommandText(e: Expr, maxBytes: nat): Result<()> {
    var text :- ConstantString(e, maxBytes);
    if text.None? then Ok(()) else
    match CommandFault(text.value, maxBytes)
    case None => Ok(())
    case Some(code) => Err(code)
  }

  function CheckPattern(e: Expr, maxBytes: nat): Result<()> {
    var text :- ConstantString(e, maxBytes);
    if text == Some("") then Err(EmptyPattern) else Ok(())
  }

  function CheckDuration(e: Expr, maxDurationMs: nat): Result<()> {
    match e
    case Literal(Int(ms)) => if 0 <= ms <= maxDurationMs then Ok(()) else Err(DurationLimit)
    case _ => Ok(())
  }

  // ---------- types ----------

  function UnaryType(op: UnaryOp): Type {
    if op.Negate? then INTEGER else BOOLEAN
  }

  function BinaryType(op: BinaryOp, operand: Type): Result<Type> {
    match op
    case Add => if operand == STRING then Ok(STRING) else if operand == INTEGER then Ok(INTEGER) else Err(TypeError)
    case Subtract => if operand == INTEGER then Ok(INTEGER) else Err(TypeError)
    case Multiply => if operand == INTEGER then Ok(INTEGER) else Err(TypeError)
    case Divide => if operand == INTEGER then Ok(INTEGER) else Err(TypeError)
    case Remainder => if operand == INTEGER then Ok(INTEGER) else Err(TypeError)
    case Less => if operand == INTEGER then Ok(BOOLEAN) else Err(TypeError)
    case LessEqual => if operand == INTEGER then Ok(BOOLEAN) else Err(TypeError)
    case Greater => if operand == INTEGER then Ok(BOOLEAN) else Err(TypeError)
    case GreaterEqual => if operand == INTEGER then Ok(BOOLEAN) else Err(TypeError)
    case Equal => if operand.Plain? then Ok(BOOLEAN) else Err(TypeError)
    case NotEqual => if operand.Plain? then Ok(BOOLEAN) else Err(TypeError)
    case And => if operand == BOOLEAN then Ok(BOOLEAN) else Err(TypeError)
    case Or => if operand == BOOLEAN then Ok(BOOLEAN) else Err(TypeError)
  }

  predicate SendOnly(args: seq<Expr>) {
    |args| == 2 && args[1] == Literal(Str("send_only"))
  }

  /** The type of an expression, or the first error. */
  function TypeOf(e: Expr, scopes: seq<Scope>, st: Statics): Result<Type>
    decreases e
  {
    match e
    case Literal(v) => Ok(Plain(v.Type()))
    case Variable(name) =>
      (match Lookup(scopes, name)
       case Some(d) => Ok(d.kind)
       case None => Err(UnknownVariable))
    case Member(base, field) =>
      if IsArgs(base) then
        if field in st.parameters then Ok(Plain(st.parameters[field])) else Err(UnknownParameter)
      else
        var kind :- TypeOf(base, scopes, st);
        if kind == WatcherType && field == "matched" then Ok(BOOLEAN) else Err(UnknownField)
    case Unary(op, operand) =>
      var kind :- TypeOf(operand, scopes, st);
      var _ :- Require(kind, UnaryType(op));
      Ok(kind)
    case Binary(op, left, right) =>
      if op.And? || op.Or? then
        var a :- TypeOf(left, scopes, st);
        var _ :- Require(a, BOOLEAN);
        var b :- TypeOf(right, scopes, st);
        var _ :- Require(b, BOOLEAN);
        Ok(BOOLEAN)
      else
        var a :- TypeOf(left, scopes, st);
        var b :- TypeOf(right, scopes, st);
        var _ :- Require(b, a);
        BinaryType(op, a)
    case Call(name, args) =>
      if name == "str" then
        if |args| != 1 then Err(ArgumentCount) else
        var kind :- TypeOf(args[0], scopes, st);
        var _ :- Require(kind, INTEGER);
        Ok(STRING)
      else if name == "cmd" && |args| == 2 then
        if !SendOnly(args) then Err(InvalidCommandMode) else
        var kind :- TypeOf(args[0], scopes, st);
        var _ :- Require(kind, STRING);
        var _ :- CheckCommandText(args[0], st.limits.maxStringBytes);
        Ok(VoidType)
      else if name == "prompt" then
        if |args| != 1 then Err(ArgumentCount)
        else if !(args[0].Literal? && args[0].value.Str?) then Err(StaticPromptRequired)
        else if args[0].value.text !in {"shell", "uboot"} then Err(UnknownPrompt)
        else Ok(STRING)
      else if OneOperand(name).Some? then
        if |args| != 1 then Err(ArgumentCount) else
        var kind :- TypeOf(args[0], scopes, st);
        var _ :- Require(kind, if name == "delay" then INTEGER else STRING);
        var _ :- CheckOneOperand(name, args[0], st.limits);
        Ok(if name == "watch" then WatcherType else VoidType)
      else if TwoOperands(name).Some? then
        if |args| != 2 then Err(ArgumentCount) else
        var a :- TypeOf(args[0], scopes, st);
        var _ :- Require(a, WatcherType);
        var b :- TypeOf(args[1], scopes, st);
        var _ :- Require(b, INTEGER);
        var _ :- CheckDuration(args[1], st.limits.maxDurationMs);
        Ok(if name == "wait" then BOOLEAN else VoidType)
      else Err(UnknownFunction)
  }

  function CheckOneOperand(name: string, e: Expr, limits: Limits): Result<()> {
    if name == "cmd" then CheckCommandText(e, limits.maxStringBytes)
    else if name == "watch" then CheckPattern(e, limits.maxStringBytes)
    else CheckDuration(e, limits.maxDurationMs)
  }

  /** The prompt names an expression refers to. */
  function PromptsOf(e: Expr): set<string>
    decreases e
  {
    match e
    case Literal(_) => {}
    case Variable(_) => {}
    case Member(base, _) => if IsArgs(base) then {} else PromptsOf(base)
    case Unary(_, operand) => PromptsOf(operand)
    case Binary(_, left, right) => PromptsOf(left) + PromptsOf(right)
    case Call(name, args) =>
      if name == "prompt" then
        if |args| == 1 && args[0].Literal? && args[0].value.Str? then {args[0].value.text} else {}
      else if name == "cmd" && |args| == 2 then PromptsOf(args[0])
      else PromptsOfAll(args)
  }

  function PromptsOfAll(args: seq<Expr>): set<string>
    decreases args
  {
    if args == [] then {} else PromptsOf(args[0]) + PromptsOfAll(args[1..])
  }

  // ---------- code of expressions ----------

  /** Calls that leave no value. */
  predicate IsVoidCall(e: Expr) {
    e.Call? && e.callee in {"cmd", "expect", "delay"}
  }

  function CallOps(name: string, args: seq<Expr>): seq<Op> {
    if name == "str" then [IntegerToString]
    else if name == "cmd" && |args| == 2 then [CallOp(CmdSendOnly)]
    else if OneOperand(name).Some? then [CallOp(OneOperand(name).value)]
    else if TwoOperands(name).Some? then [CallOp(TwoOperands(name).value)]
    else []
  }

  function SizeOf(e: Expr): nat
    decreases e
  {
    match e
    case Literal(_) => 1
    case Variable(_) => 1
    case Member(base, _) => if IsArgs(base) then 1 else SizeOf(base) + 1
    case Unary(_, operand) => SizeOf(operand) + 1
    case Binary(_, left, right) => SizeOf(left) + SizeOf(right) + 1
    case Call(name, args) =>
      if name == "prompt" then 1
      else if name == "cmd" && |args| == 2 then SizeOf(args[0]) + 1
      else if |args| == 1 then SizeOf(args[0]) + |CallOps(name, args)|
      else if |args| == 2 then SizeOf(args[0]) + SizeOf(args[1]) + |CallOps(name, args)|
      else 0
  }

  function SlotOf(name: string, scopes: seq<Scope>): nat {
    match Lookup(scopes, name)
    case Some(d) => d.index
    case None => 0
  }

  /** Code of `e` placed at address `at`. Meaningful for expressions that have a type. */
  function Gen(e: Expr, scopes: seq<Scope>, at: nat): (code: seq<Op>)
    ensures |code| == SizeOf(e)
    decreases e
  {
    match e
    case Literal(v) => [Push(v)]
    case Variable(name) => [Load(SlotOf(name, scopes))]
    case Member(base, field) => if IsArgs(base) then [Arg(field)] else Gen(base, scopes, at) + [MatchedOp]
    case Unary(op, operand) => Gen(operand, scopes, at) + [UnaryOperation(op)]
    case Binary(op, left, right) =>
      var rightAt := at + SizeOf(left) + 1;
      if op.And? then Gen(left, scopes, at) + [AndJump(rightAt + SizeOf(right))] + Gen(right, scopes, rightAt)
      else if op.Or? then Gen(left, scopes, at) + [OrJump(rightAt + SizeOf(right))] + Gen(right, scopes, rightAt)
      else Gen(left, scopes, at) + Gen(right, scopes, at + SizeOf(left)) + [BinaryOperation(op)]
    case Call(name, args) =>
      if name == "prompt" then
        [PromptOp(if |args| == 1 && args[0].Literal? && args[0].value.Str? then args[0].value.text else "")]
      else if name == "cmd" && |args| == 2 then Gen(args[0], scopes, at) + CallOps(name, args)
      else if |args| == 1 then Gen(args[0], scopes, at) + CallOps(name, args)
      else if |args| == 2 then
        Gen(args[0], scopes, at) + Gen(args[1], scopes, at + SizeOf(args[0])) + CallOps(name, args)
      else []
  }

  // ---------- statements ----------

  function PushScope(ctx: Context): Context {
    ctx.(scopes := ctx.scopes + [map[]])
  }

  /** Leaving a scope forgets its names but not the slots they took. */
  function PopScope(ctx: Context): Context {
    if ctx.scopes == [] then ctx else ctx.(scopes := ctx.scopes[..|ctx.scopes| - 1])
  }

  predicate Declares(ctx: Context, name: string) {
    ctx.scopes != [] && name in ctx.scopes[|ctx.scopes| - 1]
  }

  function Declare(ctx: Context, name: string, kind: Type): Context {
    if ctx.scopes == [] then ctx else
    var top := ctx.scopes[|ctx.scopes| - 1];
    Context(ctx.scopes[..|ctx.scopes| - 1] + [top[name := Declaration(ctx.variables, kind)]], ctx.variables + 1)
  }

  function CheckCondition(e: Expr, ctx: Context, st: Statics): Result<()> {
    var kind :- TypeOf(e, ctx.scopes, st);
    Require(kind, BOOLEAN)
  }

  /** The compiler's verdict on a statement: the context after it, or the first error. */
  function Check(s: Statement, ctx: Context, inLoop: bool, st: Statics): Result<Context>
    decreases s, 1
  {
    match s
    case Let(name, e) =>
      if Declares(ctx, name) || BuiltinName(name) || Reserved(name) then Err(DuplicateVariable) else
      var kind :- TypeOf(e, ctx.scopes, st);
      if kind == VoidType then Err(TypeError)
      else if ctx.variables >= st.limits.maxVariables then Err(VariableLimit)
      else Ok(Declare(ctx, name, kind))
    case Assign(name, e) =>
      (match Lookup(ctx.scopes, name)
       case None => Err(UnknownVariable)
       case Some(d) =>
         var kind :- TypeOf(e, ctx.scopes, st);
         var _ :- Require(kind, d.kind);
         Ok(ctx))
    case Expression(e) =>
      var _ :- TypeOf(e, ctx.scopes, st);
      Ok(ctx)
    case Block(body) =>
      var inner :- CheckAll(body, PushScope(ctx), inLoop, st);
      Ok(PopScope(inner))
    case If(cond, thenBranch, elseBranch) =>
      var _ :- CheckCondition(cond, ctx, st);
      var ctx1 :- Check(thenBranch, ctx, inLoop, st);
      CheckOption(elseBranch, ctx1, inLoop, st)
    case While(test, body) =>
      var _ :- CheckCondition(test, ctx, st);
      Check(body, ctx, true, st)
    case For(start, bound, step, body) =>
      var ctx1 :- CheckOption(start, PushScope(ctx), inLoop, st);
      var _ :- if bound.Some? then CheckCondition(bound.value, ctx1, st) else Ok(());
      var ctx2 :- Check(body, ctx1, true, st);
      if step.Some? && step.value.Let? then Err(SyntaxError) else
      var ctx3 :- CheckOption(step, ctx2, true, st);
      Ok(PopScope(ctx3))
    case Break => if inLoop then Ok(ctx) else Err(InvalidLoopControl)
    case Continue => if inLoop then Ok(ctx) else Err(InvalidLoopControl)
    case Empty => Ok(ctx)
  }

  function CheckOption(s: Option<Statement>, ctx: Context, inLoop: bool, st: Statics): Result<Context>
    decreases s, 0
  {
    match s
    case None => Ok(ctx)
    case Some(inner) => Check(inner, ctx, inLoop, st)
  }

  function CheckAll(body: seq<Statement>, ctx: Context, inLoop: bool, st: Statics): Result<Context>
    decreases body, 0
  {
    if body == [] then Ok(ctx) else
    var ctx1 :- Check(body[0], ctx, inLoop, st);
    CheckAll(body[1..], ctx1, inLoop, st)
  }

  function StatementPrompts(s: Statement): set<string>
    decreases s, 1
  {
    match s
    case Let(_, e) => PromptsOf(e)
    case Assign(_, e) => PromptsOf(e)
    case Expression(e) => PromptsOf(e)
    case Block(body) => AllPrompts(body)
    case If(cond, a, b) => PromptsOf(cond) + StatementPrompts(a) + OptionPrompts(b)
    case While(test, body) => PromptsOf(test) + StatementPrompts(body)
    case For(start, bound, step, body) =>
      OptionPrompts(start) + (if bound.Some? then PromptsOf(bound.value) else {}) + StatementPrompts(body)
          + OptionPrompts(step)
    case _ => {}
  }

  function OptionPrompts(s: Option<Statement>): set<string>
    decreases s, 0
  {
    match s
    case None => {}
    case Some(inner) => StatementPrompts(inner)
  }

  function AllPrompts(body: seq<Statement>): set<string>
    decreases body, 0
  {
    if body == [] then {} else StatementPrompts(body[0]) + AllPrompts(body[1..])
  }

  // ---------- code of statements ----------

  function SizeOfStatement(s: Statement): nat
    decreases s, 1
  {
    match s
    case Let(_, e) => SizeOf(e) + 1
    case Assign(_, e) => SizeOf(e) + 1
    case Expression(e) => if IsVoidCall(e) then SizeOf(e) else SizeOf(e) + 1
    case Block(body) => SizeOfAll(body)
    case If(cond, a, b) => SizeOf(cond) + 1 + SizeOfStatement(a) + (if b.None? then 0 else 1) + SizeOfOption(b)
    case While(test, body) => SizeOf(test) + 1 + SizeOfStatement(body) + 1
    case For(start, bound, step, body) =>
      SizeOfOption(start) + SizeOfBound(bound) + SizeOfStatement(body) + SizeOfOption(step) + 1
    case _ => 1
  }

  function SizeOfBound(bound: Option<Expr>): nat {
    if bound.None? then 0 else SizeOf(bound.value) + 1
  }

  function SizeOfOption(s: Option<Statement>): nat
    decreases s, 0
  {
    match s
    case None => 0
    case Some(inner) => SizeOfStatement(inner)
  }

  function SizeOfAll(body: seq<Statement>): nat
    decreases body, 0
  {
    if body == [] then 0 else SizeOfStatement(body[0]) + SizeOfAll(body[1..])
  }

  /** The context after a statement that `Check` accepts. */
  function Next(s: Statement, ctx: Context, st: Statics): Context {
    match Check(s, ctx, true, st)
    case Ok(after) => after
    case Err(_) => ctx
  }

  function NextOption(s: Option<Statement>, ctx: Context, st: Statics): Context {
    if s.None? then ctx else Next(s.value, ctx, st)
  }

  /** Where `break` and `continue` go. */
  datatype Exits = Exits(breakTo: nat, continueTo: nat)

  /** Code of `s` placed at address `at`. */
  function GenStatement(s: Statement, ctx: Context, at: nat, exits: Exits, st: Statics): (code: seq<Op>)
    ensures |code| == SizeOfStatement(s)
    decreases s, 1
  {
    match s
    case Let(_, e) => Gen(e, ctx.scopes, at) + [Store(ctx.variables)]
    case Assign(name, e) => Gen(e, ctx.scopes, at) + [Store(SlotOf(name, ctx.scopes))]
    case Expression(e) => Gen(e, ctx.scopes, at) + (if IsVoidCall(e) then [] else [Pop])
    case Block(body) => GenAll(body, PushScope(ctx), at, exits, st)
    case If(cond, a, b) =>
      var thenAt := at + SizeOf(cond) + 1;
      var thenEnd := thenAt + SizeOfStatement(a);
      var head := Gen(cond, ctx.scopes, at);
      if b.None? then
        head + [JumpIfFalse(thenEnd)] + GenStatement(a, ctx, thenAt, exits, st)
      else
        var ctx1 := Next(a, ctx, st);
        head + [JumpIfFalse(thenEnd + 1)] + GenStatement(a, ctx, thenAt, exits, st)
             + [Jump(thenEnd + 1 + SizeOfOption(b))] + GenOption(b, ctx1, thenEnd + 1, exits, st)
    case While(_, _) => GenLoop(s, ctx, at, st)
    case For(start, _, _, _) =>
      GenOption(start, PushScope(ctx), at, exits, st)
        + GenLoop(s, NextOption(start, PushScope(ctx), st), at + SizeOfOption(start), st)
    case Break => [Jump(exits.breakTo)]
    case Continue => [Jump(exits.continueTo)]
    case Empty => [Jump(at + 1)]
  }

  function LoopSize(s: Statement): nat
    requires s.While? || s.For?
  {
    SizeOfBound(LoopBound(s)) + SizeOfStatement(LoopBody(s)) + SizeOfOption(LoopStep(s)) + 1
  }

  /** Where the parts of a loop whose test is at `at` begin, and where it ends. */
  function BodyAt(s: Statement, at: nat): nat
    requires s.While? || s.For?
  {
    at + SizeOfBound(LoopBound(s))
  }

  function StepAt(s: Statement, at: nat): nat
    requires s.While? || s.For?
  {
    BodyAt(s, at) + SizeOfStatement(LoopBody(s))
  }

  function LoopExits(s: Statement, at: nat): Exits
    requires s.While? || s.For?
  {
    Exits(at + LoopSize(s), if s.While? then at else StepAt(s, at))
  }

  /** A loop from its test on. */
  function GenLoop(s: Statement, ctx: Context, at: nat, st: Statics): (code: seq<Op>)
    requires s.While? || s.For?
    ensures |code| == LoopSize(s)
    decreases s, 0
  {
    var exits := LoopExits(s, at);
    GenBound(LoopBound(s), ctx.scopes, at, exits.breakTo)
      + GenStatement(LoopBody(s), ctx, BodyAt(s, at), exits, st)
      + (if LoopStep(s).None? then []
         else GenStatement(LoopStep(s).value, Next(LoopBody(s), ctx, st), StepAt(s, at), exits, st))
      + [Jump(at)]
  }

  function GenBound(bound: Option<Expr>, scopes: seq<Scope>, at: nat, end: nat): (code: seq<Op>)
    ensures |code| == SizeOfBound(bound)
  {
    if bound.None? then [] else Gen(bound.value, scopes, at) + [JumpIfFalse(end)]
  }

  function GenOption(s: Option<Statement>, ctx: Context, at: nat, exits: Exits, st: Statics): (code: seq<Op>)
    ensures |code| == SizeOfOption(s)
    decreases s, 0
  {
    match s
    case None => []
    case Some(inner) => GenStatement(inner, ctx, at, exits, st)
  }

  function GenAll(body: seq<Statement>, ctx: Context, at: nat, exits: Exits, st: Statics): (code: seq<Op>)
    ensures |code| == SizeOfAll(body)
    decreases body, 0
  {
    if body == [] then [] else
    GenStatement(body[0], ctx, at, exits, st)
      + GenAll(body[1..], Next(body[0], ctx, st), at + SizeOfStatement(body[0]), exits, st)
  }

  // ---------- programs ----------

  /** The trees the parser builds: control-flow bodies are blocks, `else` is a block or an
      `if`, and the clauses of a `for` are simple statements. */
  predicate Braced(s: Statement)
    decreases s, 1
  {
    match s
    case Block(body) => BracedAll(body)
    case If(_, a, b) => a.Block? && Braced(a) && (b.Some? ==> (b.value.Block? || b.value.If?)) && BracedOption(b)
    case While(_, body) => body.Block? && Braced(body)
    case For(start, _, step, body) =>
      SimpleOption(start) && SimpleOption(step) && body.Block? && Braced(body)
    case _ => true
  }

  predicate SimpleOption(s: Option<Statement>) {
    s.Some? ==> s.value.Let? || s.value.Assign? || s.value.Expression?
  }

  predicate BracedOption(s: Option<Statement>)
    decreases s, 0
  {
    match s
    case None => true
    case Some(inner) => Braced(inner)
  }

  predicate BracedAll(body: seq<Statement>)
    decreases body, 0
  {
    body == [] || (Braced(body[0]) && BracedAll(body[1..]))
  }

  function Max(a: nat, b: nat): nat {
    if a < b then b else a
  }

  /** Height of an expression tree, as `check_expression_depth` counts it. */
  function Depth(e: Expr): (d: nat)
    ensures d >= 1
    decreases e, 0
  {
    match e
    case Literal(_) => 1
    case Variable(_) => 1
    case Member(base, _) => 1 + Depth(base)
    case Unary(_, operand) => 1 + Depth(operand)
    case Binary(_, left, right) => 1 + Max(Depth(left), Depth(right))
    case Call(_, args) => 1 + DepthAll(args)
  }

  function DepthAll(args: seq<Expr>): nat
    decreases args, 0
  {
    if args == [] then 0 else Max(Depth(args[0]), DepthAll(args[1..]))
  }

  /** Every expression in `s` is at most `bound` deep. */
  predicate Shallow(s: Statement, bound: nat)
    decreases s, 1
  {
    match s
    case Let(_, e) => Depth(e) <= bound
    case Assign(_, e) => Depth(e) <= bound
    case Expression(e) => Depth(e) <= bound
    case Block(body) => ShallowAll(body, bound)
    case If(cond, a, b) => Depth(cond) <= bound && Shallow(a, bound) && ShallowOption(b, bound)
    case While(test, body) => Depth(test) <= bound && Shallow(body, bound)
    case For(start, test, step, body) =>
      ShallowOption(start, bound) && (test.Some? ==> Depth(test.value) <= bound) && ShallowOption(step, bound)
      && Shallow(body, bound)
    case _ => true
  }

  predicate ShallowOption(s: Option<Statement>, bound: nat)
    decreases s, 0
  {
    match s
    case None => true
    case Some(inner) => Shallow(inner, bound)
  }

  predicate ShallowAll(body: seq<Statement>, bound: nat)
    decreases body, 0
  {
    body == [] || (Shallow(body[0], bound) && ShallowAll(body[1..], bound))
  }

  const OUTERMOST := Context([map[]], 0)

  const NO_EXITS := Exits(0, 0)

  /** `compile` from the syntax tree on: the checks on limits and parameter names come first. */
  function CheckProgram(program: seq<Statement>, st: Statics): Result<Context> {
    CheckAll(program, OUTERMOST, false, st)
  }

  function CodeOf(program: seq<Statement>, st: Statics): Result<Program> {
    var ctx :- CheckProgram(program, st);
    Ok(Program(GenAll(program, OUTERMOST, 0, NO_EXITS, st), st.parameters, AllPrompts(program), ctx.variables,
               st.limits))
  }
}
