/** Compilation preserves meaning: the machine running the compiled code issues the same
    effects, consumes the same driver answers, counts the same instructions and ends the same
    way as the syntax tree. */
module MacroPreservation {
  import opened Wrappers
  import opened MacroCore
  import opened MacroSemantics
  import opened MacroMachine
  import opened MacroCompile

  function StaticsOf(m: Machine): Statics {
    Statics(m.program.parameters, m.program.limits)
  }

  // ---------- how compile-time scopes describe the machine ----------

  predicate CodeAt(code: seq<Op>, at: nat, part: seq<Op>) {
    at + |part| <= |code| && code[at..at + |part|] == part
  }

  ghost predicate LevelAgrees(scope: Scope, frame: Frame, slots: Slots) {
    && scope.Keys == frame.Keys
    && forall name | name in scope ::
         && scope[name].index < |slots|
         && slots[scope[name].index] == Some(frame[name])
         && !scope[name].kind.VoidType?
  }

  /** Every variable in scope is initialized, in its slot, with the value it has by name. */
  ghost predicate Agree(scopes: seq<Scope>, frames: seq<Frame>, slots: Slots) {
    |scopes| == |frames| && forall i | 0 <= i < |scopes| :: LevelAgrees(scopes[i], frames[i], slots)
  }

  lemma {:induction false} LookupAgrees(scopes: seq<Scope>, frames: seq<Frame>, slots: Slots, name: string)
    requires Agree(scopes, frames, slots)
    ensures Lookup(scopes, name).Some? <==> Lookup(frames, name).Some?
    ensures Lookup(scopes, name).Some? ==>
              Lookup(scopes, name).value.index < |slots| &&
              slots[Lookup(scopes, name).value.index] == Lookup(frames, name) &&
              !Lookup(scopes, name).value.kind.VoidType?
    decreases |scopes|
  {
    if scopes != [] {
      var n := |scopes| - 1;
      assert LevelAgrees(scopes[n], frames[n], slots);
      if name !in scopes[n] {
        assert Agree(scopes[..n], frames[..n], slots) by {
          forall i | 0 <= i < n ensures LevelAgrees(scopes[..n][i], frames[..n][i], slots) {
            assert LevelAgrees(scopes[i], frames[i], slots);
          }
        }
        LookupAgrees(scopes[..n], frames[..n], slots, name);
      }
    }
  }

  // ---------- stack need ----------

  /** Operand slots needed to evaluate `e`. */
  function Need(e: Expr): (n: nat)
    ensures n >= 1
    decreases e
  {
    match e
    case Literal(_) => 1
    case Variable(_) => 1
    case Member(base, _) => if IsArgs(base) then 1 else Need(base)
    case Unary(_, operand) => Need(operand)
    case Binary(op, left, right) => Max(Need(left), if op.And? || op.Or? then Need(right) else 1 + Need(right))
    case Call(name, args) =>
      if |args| == 1 then Need(args[0])
      else if |args| == 2 then Max(Need(args[0]), 1 + Need(args[1]))
      else 1
  }

  /** Evaluating a tree of depth d takes at most d slots. */
  lemma {:induction false} NeedWithinDepth(e: Expr)
    ensures Need(e) <= Depth(e)
    decreases e
  {
    match e
    case Literal(_) =>
    case Variable(_) =>
    case Member(base, _) => NeedWithinDepth(base);
    case Unary(_, operand) => NeedWithinDepth(operand);
    case Binary(_, left, right) => NeedWithinDepth(left); NeedWithinDepth(right);
    case Call(_, args) =>
      if |args| == 1 {
        NeedWithinDepth(args[0]);
      } else if |args| == 2 {
        NeedWithinDepth(args[0]);
        NeedWithinDepth(args[1]);
        assert DepthAll(args) == Max(Depth(args[0]), DepthAll(args[1..]));
        assert DepthAll(args[1..]) == Max(Depth(args[1]), DepthAll(args[2..]));
      }
  }

  // ---------- one instruction ----------

  predicate Simulates(m: Machine, c: Config, r: ExprResult, pc: nat) {
    match r
    case Stops(result) => Run(m, c) == result
    case Yields(v, w) => Run(m, c) == Run(m, Config(pc, c.stack + [v], c.slots, w))
    case Silent(w) => Run(m, c) == Run(m, Config(pc, c.stack, c.slots, w))
  }

  /** One turn of a run that moves the machine on by one instruction. */
  lemma MovedStep(m: Machine, c: Config, k: Core)
    requires c.pc < |m.program.code| && |k.stack| <= m.StackBound()
    requires ExecuteOp(m, m.program.code[c.pc], Fetched(CoreOf(DeliveredTo(c)))) == Moved(k)
    requires k.ledger == Fetched(CoreOf(DeliveredTo(c))).ledger
    ensures if CanCharge(c.world, m.Setting()) then
              Run(m, c) == Run(m, Config(k.pc, k.stack, k.slots, Charged(c.world)))
            else Run(m, c) == Halted(c.world)
  {
    hide TurnOf;
    TurnMoves(m, c, k);
  }

  /** One turn of a run that ends it. */
  lemma FaultedStep(m: Machine, c: Config, code: ErrorCode)
    requires c.pc < |m.program.code|
    requires var k := Fetched(CoreOf(DeliveredTo(c))); ExecuteOp(m, m.program.code[c.pc], k) == Faulted(code, k.ledger)
    ensures Run(m, c) == if CanCharge(c.world, m.Setting()) then Fault(code, Charged(c.world)) else Halted(c.world)
  {
    hide TurnOf;
    TurnFaults(m, c, code);
  }

  lemma TurnFaults(m: Machine, c: Config, code: ErrorCode)
    requires c.pc < |m.program.code|
    requires var k := Fetched(CoreOf(DeliveredTo(c))); ExecuteOp(m, m.program.code[c.pc], k) == Faulted(code, k.ledger)
    ensures TurnOf(m, c) == Over(if CanCharge(c.world, m.Setting()) then Fault(code, Charged(c.world))
                                 else Halted(c.world))
  {
    hide ExecuteOp;
  }

  lemma TurnMoves(m: Machine, c: Config, k: Core)
    requires c.pc < |m.program.code| && |k.stack| <= m.StackBound()
    requires ExecuteOp(m, m.program.code[c.pc], Fetched(CoreOf(DeliveredTo(c)))) == Moved(k)
    requires k.ledger == Fetched(CoreOf(DeliveredTo(c))).ledger
    ensures TurnOf(m, c) == if CanCharge(c.world, m.Setting()) then
              Again(Config(k.pc, k.stack, k.slots, Charged(c.world)))
                            else Over(Halted(c.world))
  {
    hide ExecuteOp;
  }

  /** An instruction that replaces operands on top of `base` by one value. */
  lemma ReplaceStep(m: Machine, c: Config, operands: seq<RuntimeValue>, base: seq<RuntimeValue>,
                    r: Result<RuntimeValue>)
    requires c.pc < |m.program.code|
    requires c.stack == base + operands
    requires ExecuteOp(m, m.program.code[c.pc], Fetched(CoreOf(DeliveredTo(c)))) ==
               Replace(Fetched(CoreOf(DeliveredTo(c))), |operands|, r)
    requires |base| + 1 <= m.StackBound()
    ensures Charge(r, c.world, m.Setting()).Stops? || Charge(r, c.world, m.Setting()).Yields?
    ensures match Charge(r, c.world, m.Setting())
            case Stops(result) => Run(m, c) == result
            case Yields(v, w) => Run(m, c) == Run(m, Config(c.pc + 1, base + [v], c.slots, w))
            case Silent(_) => false
  {
    hide ExecuteOp;
    assert Dropped(c.stack, |operands|) == base;
  }

  lemma SplitCode(code: seq<Op>, at: nat, a: seq<Op>, b: seq<Op>)
    requires CodeAt(code, at, a + b)
    ensures CodeAt(code, at, a) && CodeAt(code, at + |a|, b)
  {
    var whole := code[at..at + |a + b|];
    assert whole[..|a|] == a && whole[|a|..] == b;
    assert code[at..at + |a|] == whole[..|a|];
    assert code[at + |a|..at + |a| + |b|] == whole[|a|..];
  }

  lemma SplitFour(code: seq<Op>, at: nat, a: seq<Op>, b: seq<Op>, c: seq<Op>, op: Op)
    requires CodeAt(code, at, a + b + c + [op])
    ensures CodeAt(code, at, a) && CodeAt(code, at + |a|, b) && CodeAt(code, at + |a| + |b|, c)
    ensures at + |a| + |b| + |c| < |code| && code[at + |a| + |b| + |c|] == op
  {
    SplitCode(code, at, a + b + c, [op]);
    SplitCode(code, at, a + b, c);
    SplitCode(code, at, a, b);
    OpAt(code, at + |a| + |b| + |c|, op);
  }

  lemma OpAt(code: seq<Op>, at: nat, op: Op)
    requires CodeAt(code, at, [op])
    ensures at < |code| && code[at] == op
  {
    assert code[at..at + 1][0] == op;
  }

  /** A builtin with one operand does not look below it. */
  lemma EffectOperands(builtin: Builtin, top: Option<RuntimeValue>, below: Option<RuntimeValue>,
                       other: Option<RuntimeValue>,
                       ledger: Ledger, limits: Limits)
    requires Arity(builtin) == 2 ==> below == other
    ensures IssueEffect(builtin, top, below, ledger, limits) == IssueEffect(builtin, top, other, ledger, limits)
  {
  }

  /** An instruction that hands an effect to the driver. */
  lemma EffectStep(m: Machine, c: Config, builtin: Builtin, operands: seq<RuntimeValue>, base: seq<RuntimeValue>)
    requires c.pc < |m.program.code| && m.program.code[c.pc] == CallOp(builtin)
    requires c.stack == base + operands && |operands| == Arity(builtin)
    ensures var below := if |operands| == 2 then Some(operands[0]) else None;
            match ChargeEffect(builtin, operands[|operands| - 1], below, c.world, m.Setting())
            case Stops(result) => Run(m, c) == result
            case Yields(v, w) => Run(m, c) == Run(m, Config(c.pc + 1, base + [v], c.slots, w))
            case Silent(w) => Run(m, c) == Run(m, Config(c.pc + 1, base, c.slots, w))
  {
    hide IssueEffect, Answered, Run, TurnOf;
    var top := operands[|operands| - 1];
    assert Peek(c.stack, 0) == Some(top);
    assert |operands| == 2 ==> Peek(c.stack, 1) == Some(operands[0]);
    assert Dropped(c.stack, |operands|) == base;
    var ledger := Fetched(CoreOf(DeliveredTo(c))).ledger;
    var below := if |operands| == 2 then Some(operands[0]) else None;
    EffectOperands(builtin, Some(top), below, Peek(c.stack, 1), ledger, m.program.limits);
    EffectTurn(m, c, builtin);
    RunTurns(m, c);
  }

  lemma RunTurns(m: Machine, c: Config)
    ensures Run(m, c) == match TurnOf(m, c) { case Over(result) => result case Again(c1) => Run(m, c1) }
  {
    hide TurnOf;
  }

  /** The turn that issues an effect. */
  lemma EffectTurn(m: Machine, c: Config, builtin: Builtin)
    requires c.pc < |m.program.code| && m.program.code[c.pc] == CallOp(builtin)
    ensures !CanCharge(c.world, m.Setting()) ==> TurnOf(m, c) == Over(Halted(c.world))
    ensures CanCharge(c.world, m.Setting()) ==>
              var k := Fetched(CoreOf(DeliveredTo(c)));
              TurnOf(m, c) == match IssueEffect(builtin, Peek(c.stack, 0), Peek(c.stack, 1), k.ledger,
                                                m.program.limits) {
                case Refused(code, ledger) => Over(Fault(code, DeliveredTo(c).world.(ledger := ledger)))
                case Issued(effect, ledger) =>
                  AnswerEffect(effect, k.(stack := Dropped(c.stack, Arity(builtin)), ledger := ledger),
                               DeliveredTo(c).world)
              }
  {
    hide IssueEffect, AnswerEffect;
  }

  /** The effects of `watch` and `wait` produce a value, the others do not. */
  lemma EffectShape(builtin: Builtin, top: RuntimeValue, below: Option<RuntimeValue>, w: World, g: Setting)
    ensures var r := ChargeEffect(builtin, top, below, w, g);
            (r.Yields? ==> builtin in {Watch, Wait}) && (r.Silent? ==> builtin !in {Watch, Wait})
  {
  }

  /** A short-circuit branch after its left operand. */
  lemma BranchStep(m: Machine, c: Config, v: RuntimeValue, base: seq<RuntimeValue>, isOr: bool, target: nat)
    requires c.pc < |m.program.code|
    requires m.program.code[c.pc] == if isOr then OrJump(target) else AndJump(target)
    requires c.stack == base + [v] && |c.stack| <= m.StackBound()
    ensures var w := Charged(c.world);
            if !CanCharge(c.world, m.Setting()) then Run(m, c) == Halted(c.world)
            else if !(v.Scalar? && v.scalar.Bool?) then Run(m, c) == Fault(VmInvariant, w)
            else if v.scalar.flag == isOr then Run(m, c) == Run(m, Config(target, base + [v], c.slots, w))
            else Run(m, c) == Run(m, Config(c.pc + 1, base, c.slots, w))
  {
    hide Run;
    assert Dropped(c.stack, 1) == base;
    var k := Fetched(CoreOf(DeliveredTo(c)));
    if v.Scalar? && v.scalar.Bool? {
      MovedStep(m, c, if v.scalar.flag == isOr then k.(pc := target) else k.(stack := base));
    } else {
      FaultedStep(m, c, VmInvariant);
    }
  }

  // ---------- one level of each definition ----------

  lemma OnlyCallsAreVoid(e: Expr, scopes: seq<Scope>, frames: seq<Frame>, slots: Slots, st: Statics)
    requires TypeOf(e, scopes, st).Ok? && Agree(scopes, frames, slots)
    ensures TypeOf(e, scopes, st).value.VoidType? <==> IsVoidCall(e)
  {
    if e.Variable? {
      LookupAgrees(scopes, frames, slots, e.name);
    }
  }

  predicate IsLeaf(e: Expr) {
    e.Literal? || e.Variable? || (e.Member? && IsArgs(e.base)) || (e.Call? && e.callee == "prompt")
  }

  predicate IsPrefixed(e: Expr) {
    (e.Member? && !IsArgs(e.base)) || e.Unary?
  }

  predicate IsOneArgument(e: Expr) {
    e.Call? && e.callee != "prompt" && TwoOperands(e.callee).None?
  }

  lemma LeafCode(e: Expr, scopes: seq<Scope>, at: nat, st: Statics) returns (op: Op)
    requires IsLeaf(e) && TypeOf(e, scopes, st).Ok?
    ensures SizeOf(e) == 1 && Need(e) == 1 && !IsVoidCall(e) && Gen(e, scopes, at) == [op]
    ensures e.Literal? ==> op == Push(e.value)
    ensures e.Variable? ==> op == Load(SlotOf(e.name, scopes)) && Lookup(scopes, e.name).Some?
    ensures e.Member? ==> op == Arg(e.field) && e.field in st.parameters
    ensures e.Call? ==>
              |e.args| == 1 && e.args[0].Literal? && e.args[0].value.Str? && op == PromptOp(e.args[0].value.text)
    ensures e.Call? ==> PromptsOf(e) == {e.args[0].value.text}
  {
    op := Gen(e, scopes, at)[0];
  }

  /** What a leaf evaluates to. */
  function LeafValue(e: Expr, frames: seq<Frame>, g: Setting): Result<RuntimeValue> {
    match e
    case Literal(v) => Ok(Scalar(v))
    case Variable(name) => Read(name, frames)
    case Member(_, field) => Argument(field, g)
    case Call(_, args) =>
      if |args| == 1 && args[0].Literal? && args[0].value.Str? then Prompt(args[0].value.text, g) else Err(VmInvariant)
    case _ => Err(VmInvariant)
  }

  lemma LeafEvaluates(e: Expr, scopes: seq<Scope>, st: Statics, frames: seq<Frame>, w: World, g: Setting)
    requires IsLeaf(e) && TypeOf(e, scopes, st).Ok?
    ensures Evaluate(e, frames, w, g) == Charge(LeafValue(e, frames, g), w, g)
  {
    hide Lookup;
  }

  lemma PrefixedCode(e: Expr, scopes: seq<Scope>, at: nat, st: Statics) returns (operand: Expr, op: Op)
    requires IsPrefixed(e) && TypeOf(e, scopes, st).Ok?
    ensures operand == if e.Member? then e.base else e.operand
    ensures op == if e.Member? then MatchedOp else UnaryOperation(e.uop)
    ensures TypeOf(operand, scopes, st).Ok? && !TypeOf(operand, scopes, st).value.VoidType?
    ensures Gen(e, scopes, at) == Gen(operand, scopes, at) + [op]
    ensures SizeOf(e) == SizeOf(operand) + 1 && Need(operand) == Need(e)
  {
    operand := if e.Member? then e.base else e.operand;
    op := if e.Member? then MatchedOp else UnaryOperation(e.uop);
  }

  lemma PrefixedEvaluates(e: Expr, frames: seq<Frame>, w: World, g: Setting)
    requires IsPrefixed(e)
    ensures Evaluate(e, frames, w, g) ==
            match Evaluate(if e.Member? then e.base else e.operand, frames, w, g) {
              case Stops(result) => Stops(result)
              case Silent(w1) => Stuck(w1)
              case Yields(v, w1) =>
                Charge(if e.Member? then WatcherFlag(v, Charged(w1).ledger.watchers) else ApplyUnary(e.uop, v), w1, g)
            }
  {
  }

  lemma BinaryTypes(e: Expr, scopes: seq<Scope>, st: Statics)
    requires e.Binary? && TypeOf(e, scopes, st).Ok?
    ensures TypeOf(e.left, scopes, st).Ok? && TypeOf(e.right, scopes, st).Ok?
    ensures !TypeOf(e.left, scopes, st).value.VoidType? && !TypeOf(e.right, scopes, st).value.VoidType?
  {
  }

  lemma OperatorUnfolds(e: Expr, scopes: seq<Scope>, at: nat)
    requires e.Binary? && !e.bop.And? && !e.bop.Or?
    ensures Gen(e, scopes, at) ==
            Gen(e.left, scopes, at) + Gen(e.right, scopes, at + SizeOf(e.left)) + [BinaryOperation(e.bop)]
    ensures SizeOf(e) == SizeOf(e.left) + SizeOf(e.right) + 1
    ensures Need(e.left) <= Need(e) && 1 + Need(e.right) <= Need(e)
  {
  }

  lemma OperatorEvaluates(e: Expr, frames: seq<Frame>, w: World, g: Setting)
    requires e.Binary? && !e.bop.And? && !e.bop.Or?
    ensures Evaluate(e, frames, w, g) ==
            match Evaluate(e.left, frames, w, g) {
              case Stops(result) => Stops(result)
              case Silent(w1) => Stuck(w1)
              case Yields(a, w1) =>
                match Evaluate(e.right, frames, w1, g)
                case Stops(result) => Stops(result)
                case Silent(w2) => Stuck(w2)
                case Yields(b, w2) => Charge(ApplyBinary(e.bop, a, b, g.limits.maxStringBytes), w2, g)
            }
  {
    hide ApplyBinary;
  }

  lemma ShortCircuitUnfolds(e: Expr, scopes: seq<Scope>, at: nat) returns (branch: Op)
    requires e.Binary? && (e.bop.And? || e.bop.Or?)
    ensures var end := at + SizeOf(e); branch == if e.bop.Or? then OrJump(end) else AndJump(end)
    ensures Gen(e, scopes, at) == Gen(e.left, scopes, at) + [branch] + Gen(e.right, scopes, at + SizeOf(e.left) + 1)
    ensures SizeOf(e) == SizeOf(e.left) + SizeOf(e.right) + 1
    ensures Need(e.left) <= Need(e) && Need(e.right) <= Need(e)
  {
    var end := at + SizeOf(e);
    branch := if e.bop.Or? then OrJump(end) else AndJump(end);
  }

  lemma ShortCircuitEvaluates(e: Expr, frames: seq<Frame>, w: World, g: Setting)
    requires e.Binary? && (e.bop.And? || e.bop.Or?)
    ensures Evaluate(e, frames, w, g) ==
            match Evaluate(e.left, frames, w, g) {
              case Stops(result) => Stops(result)
              case Silent(w1) => Stuck(w1)
              case Yields(a, w1) =>
                if !CanCharge(w1, g) then Stops(Halted(w1))
                else if !(a.Scalar? && a.scalar.Bool?) then Stuck(Charged(w1))
                else if a.scalar.flag == e.bop.Or? then Yields(a, Charged(w1))
                else Evaluate(e.right, frames, Charged(w1), g)
            }
  {
  }

  lemma OneArgumentCode(e: Expr, scopes: seq<Scope>, at: nat, st: Statics) returns (op: Op)
    requires IsOneArgument(e) && TypeOf(e, scopes, st).Ok?
    ensures |e.args| > 0 && CallOps(e.callee, e.args) == [op]
    ensures if e.callee == "str" then op == IntegerToString && !IsVoidCall(e)
            else op.CallOp? && op.builtin in {Cmd, CmdSendOnly, Watch, Delay}
                 && (op.builtin == Watch <==> !IsVoidCall(e))
    ensures TypeOf(e.args[0], scopes, st).Ok? && !TypeOf(e.args[0], scopes, st).value.VoidType?
    ensures Gen(e, scopes, at) == Gen(e.args[0], scopes, at) + [op]
    ensures SizeOf(e) == SizeOf(e.args[0]) + 1 && Need(e.args[0]) <= Need(e)
  {
    op := CallOps(e.callee, e.args)[0];
  }

  lemma OneOrTwo(e: Expr, scopes: seq<Scope>, st: Statics)
    requires IsOneArgument(e) && TypeOf(e, scopes, st).Ok?
    ensures |e.args| == 1 || (e.callee == "cmd" && |e.args| == 2)
  {
  }

  lemma OneArgumentEvaluates(e: Expr, op: Op, frames: seq<Frame>, w: World, g: Setting)
    requires IsOneArgument(e) && CallOps(e.callee, e.args) == [op] && |e.args| > 0
    requires |e.args| == 1 || (e.callee == "cmd" && |e.args| == 2)
    ensures Evaluate(e, frames, w, g) ==
            match Evaluate(e.args[0], frames, w, g) {
              case Stops(result) => Stops(result)
              case Silent(w1) => Stuck(w1)
              case Yields(v, w1) =>
                if op.CallOp? then ChargeEffect(op.builtin, v, None, w1, g)
                else Charge(FormatInteger(v, g.limits.maxStringBytes), w1, g)
            }
  {
    hide ChargeEffect, FormatInteger;
  }

  lemma TwoArgumentsTypes(e: Expr, scopes: seq<Scope>, st: Statics)
    requires e.Call? && TwoOperands(e.callee).Some?
    requires TypeOf(e, scopes, st).Ok?
    ensures |e.args| == 2
    ensures TypeOf(e.args[0], scopes, st) == Ok(WatcherType) && TypeOf(e.args[1], scopes, st) == Ok(INTEGER)
  {
  }

  lemma TwoArgumentsUnfold(e: Expr, scopes: seq<Scope>, at: nat)
    requires e.Call? && TwoOperands(e.callee).Some? && |e.args| == 2
    ensures TwoOperands(e.callee).value in {Wait, Expect}
    ensures TwoOperands(e.callee).value == Wait <==> !IsVoidCall(e)
    ensures var left, right, builtin := e.args[0], e.args[1], TwoOperands(e.callee).value;
            && Gen(e, scopes, at) == Gen(left, scopes, at) + Gen(right, scopes, at + SizeOf(left)) + [CallOp(builtin)]
            && SizeOf(e) == SizeOf(left) + SizeOf(right) + 1
            && Need(left) <= Need(e) && 1 + Need(right) <= Need(e)
  {
  }

  lemma TwoArgumentsEvaluate(e: Expr, frames: seq<Frame>, w: World, g: Setting)
    requires e.Call? && TwoOperands(e.callee).Some? && |e.args| == 2
    ensures Evaluate(e, frames, w, g) ==
            match Evaluate(e.args[0], frames, w, g) {
              case Stops(result) => Stops(result)
              case Silent(w1) => Stuck(w1)
              case Yields(a, w1) =>
                match Evaluate(e.args[1], frames, w1, g)
                case Stops(result) => Stops(result)
                case Silent(w2) => Stuck(w2)
                case Yields(b, w2) => ChargeEffect(TwoOperands(e.callee).value, b, Some(a), w2, g)
            }
  {
    hide ChargeEffect;
  }

  // ---------- expressions ----------

  lemma {:induction false} ExpressionPreserved(m: Machine, e: Expr, scopes: seq<Scope>, frames: seq<Frame>, c: Config)
    requires TypeOf(e, scopes, StaticsOf(m)).Ok?
    requires CodeAt(m.program.code, c.pc, Gen(e, scopes, c.pc))
    requires Agree(scopes, frames, c.slots)
    requires |c.stack| + Need(e) <= m.StackBound()
    ensures Simulates(m, c, Evaluate(e, frames, c.world, m.Setting()), c.pc + SizeOf(e))
    ensures Evaluate(e, frames, c.world, m.Setting()).Yields? ==> !IsVoidCall(e)
    ensures Evaluate(e, frames, c.world, m.Setting()).Silent? ==> IsVoidCall(e)
    decreases e, 1
  {
    hide CodeAt, Run, Evaluate, TypeOf, Gen, SizeOf, Need;
    if IsLeaf(e) {
      LeafPreserved(m, e, scopes, frames, c);
    } else if IsPrefixed(e) {
      PrefixedPreserved(m, e, scopes, frames, c);
    } else if e.Binary? {
      if e.bop.And? || e.bop.Or? {
        ShortCircuitPreserved(m, e, scopes, frames, c);
      } else {
        OperatorPreserved(m, e, scopes, frames, c);
      }
    } else if IsOneArgument(e) {
      OneArgumentPreserved(m, e, scopes, frames, c);
    } else {
      TwoArgumentsPreserved(m, e, scopes, frames, c);
    }
  }

  lemma LeafPreserved(m: Machine, e: Expr, scopes: seq<Scope>, frames: seq<Frame>, c: Config)
    requires IsLeaf(e) && TypeOf(e, scopes, StaticsOf(m)).Ok?
    requires CodeAt(m.program.code, c.pc, Gen(e, scopes, c.pc))
    requires Agree(scopes, frames, c.slots)
    requires |c.stack| + Need(e) <= m.StackBound()
    ensures Simulates(m, c, Evaluate(e, frames, c.world, m.Setting()), c.pc + SizeOf(e))
    ensures !Evaluate(e, frames, c.world, m.Setting()).Silent? && !IsVoidCall(e)
  {
    hide CodeAt, Run, Evaluate, TypeOf, Gen, SizeOf, Need;
    var op := LeafCode(e, scopes, c.pc, StaticsOf(m));
    LeafEvaluates(e, scopes, StaticsOf(m), frames, c.world, m.Setting());
    OpAt(m.program.code, c.pc, op);
    if e.Variable? { LookupAgrees(scopes, frames, c.slots, e.name); }
    ReplaceStep(m, c, [], c.stack, LeafValue(e, frames, m.Setting()));
  }

  lemma {:induction false} PrefixedPreserved(m: Machine, e: Expr, scopes: seq<Scope>, frames: seq<Frame>, c: Config)
    requires IsPrefixed(e) && TypeOf(e, scopes, StaticsOf(m)).Ok?
    requires CodeAt(m.program.code, c.pc, Gen(e, scopes, c.pc))
    requires Agree(scopes, frames, c.slots)
    requires |c.stack| + Need(e) <= m.StackBound()
    ensures Simulates(m, c, Evaluate(e, frames, c.world, m.Setting()), c.pc + SizeOf(e))
    ensures !Evaluate(e, frames, c.world, m.Setting()).Silent?
    decreases e, 0
  {
    hide CodeAt, Run, Evaluate, TypeOf, Gen, SizeOf, Need;
    var operand, op := PrefixedCode(e, scopes, c.pc, StaticsOf(m));
    PrefixedEvaluates(e, frames, c.world, m.Setting());
    SplitCode(m.program.code, c.pc, Gen(operand, scopes, c.pc), [op]);
    ExpressionPreserved(m, operand, scopes, frames, c);
    OnlyCallsAreVoid(operand, scopes, frames, c.slots, StaticsOf(m));
    var r := Evaluate(operand, frames, c.world, m.Setting());
    if r.Yields? {
      var c1 := Config(c.pc + SizeOf(operand), c.stack + [r.value], c.slots, r.world);
      OpAt(m.program.code, c1.pc, op);
      ReplaceStep(m, c1, [r.value], c.stack,
                  if e.Member? then WatcherFlag(r.value, Charged(r.world).ledger.watchers)
                  else ApplyUnary(e.uop, r.value));
    }
  }

  lemma {:induction false} ShortCircuitPreserved(m: Machine, e: Expr, scopes: seq<Scope>, frames: seq<Frame>, c: Config)
    requires e.Binary? && (e.bop.And? || e.bop.Or?)
    requires TypeOf(e, scopes, StaticsOf(m)).Ok?
    requires CodeAt(m.program.code, c.pc, Gen(e, scopes, c.pc))
    requires Agree(scopes, frames, c.slots)
    requires |c.stack| + Need(e) <= m.StackBound()
    ensures Simulates(m, c, Evaluate(e, frames, c.world, m.Setting()), c.pc + SizeOf(e))
    ensures !Evaluate(e, frames, c.world, m.Setting()).Silent?
    decreases e, 0
  {
    hide CodeAt, Run, Evaluate, TypeOf, Gen, SizeOf, Need;
    var code := m.program.code;
    var g := m.Setting();
    var st := StaticsOf(m);
    var rightAt := c.pc + SizeOf(e.left) + 1;
    BinaryTypes(e, scopes, st);
    var branch := ShortCircuitUnfolds(e, scopes, c.pc);
    ShortCircuitEvaluates(e, frames, c.world, g);
    SplitCode(code, c.pc, Gen(e.left, scopes, c.pc) + [branch], Gen(e.right, scopes, rightAt));
    SplitCode(code, c.pc, Gen(e.left, scopes, c.pc), [branch]);
    ExpressionPreserved(m, e.left, scopes, frames, c);
    OnlyCallsAreVoid(e.left, scopes, frames, c.slots, st);
    OnlyCallsAreVoid(e.right, scopes, frames, c.slots, st);
    var r := Evaluate(e.left, frames, c.world, g);
    if r.Yields? {
      var c1 := Config(c.pc + SizeOf(e.left), c.stack + [r.value], c.slots, r.world);
      OpAt(code, c1.pc, branch);
      BranchStep(m, c1, r.value, c.stack, e.bop.Or?, c.pc + SizeOf(e));
      ExpressionPreserved(m, e.right, scopes, frames, Config(rightAt, c.stack, c.slots, Charged(r.world)));
    }
  }

  lemma {:induction false} OperatorPreserved(m: Machine, e: Expr, scopes: seq<Scope>, frames: seq<Frame>, c: Config)
    requires e.Binary? && !e.bop.And? && !e.bop.Or?
    requires TypeOf(e, scopes, StaticsOf(m)).Ok?
    requires CodeAt(m.program.code, c.pc, Gen(e, scopes, c.pc))
    requires Agree(scopes, frames, c.slots)
    requires |c.stack| + Need(e) <= m.StackBound()
    ensures Simulates(m, c, Evaluate(e, frames, c.world, m.Setting()), c.pc + SizeOf(e))
    ensures !Evaluate(e, frames, c.world, m.Setting()).Silent?
    decreases e, 0
  {
    hide CodeAt, Run, Evaluate, TypeOf, Gen, SizeOf, Need;
    var code := m.program.code;
    var g := m.Setting();
    var st := StaticsOf(m);
    BinaryTypes(e, scopes, st);
    OperatorUnfolds(e, scopes, c.pc);
    OperatorEvaluates(e, frames, c.world, g);
    OnlyCallsAreVoid(e.left, scopes, frames, c.slots, st);
    OnlyCallsAreVoid(e.right, scopes, frames, c.slots, st);
    var rightAt := c.pc + SizeOf(e.left);
    SplitCode(code, c.pc, Gen(e.left, scopes, c.pc) + Gen(e.right, scopes, rightAt), [BinaryOperation(e.bop)]);
    SplitCode(code, c.pc, Gen(e.left, scopes, c.pc), Gen(e.right, scopes, rightAt));
    ExpressionPreserved(m, e.left, scopes, frames, c);
    var r := Evaluate(e.left, frames, c.world, g);
    if r.Yields? {
      var c1 := Config(rightAt, c.stack + [r.value], c.slots, r.world);
      ExpressionPreserved(m, e.right, scopes, frames, c1);
      var r2 := Evaluate(e.right, frames, r.world, g);
      if r2.Yields? {
        var c2 := Config(rightAt + SizeOf(e.right), c1.stack + [r2.value], c.slots, r2.world);
        assert c2.stack == c.stack + [r.value, r2.value];
        OpAt(code, c2.pc, BinaryOperation(e.bop));
        ReplaceStep(m, c2, [r.value, r2.value], c.stack,
                    ApplyBinary(e.bop, r.value, r2.value, g.limits.maxStringBytes));
      }
    }
  }

  lemma {:induction false} OneArgumentPreserved(m: Machine, e: Expr, scopes: seq<Scope>, frames: seq<Frame>, c: Config)
    requires IsOneArgument(e) && TypeOf(e, scopes, StaticsOf(m)).Ok?
    requires CodeAt(m.program.code, c.pc, Gen(e, scopes, c.pc))
    requires Agree(scopes, frames, c.slots)
    requires |c.stack| + Need(e) <= m.StackBound()
    ensures Simulates(m, c, Evaluate(e, frames, c.world, m.Setting()), c.pc + SizeOf(e))
    ensures Evaluate(e, frames, c.world, m.Setting()).Yields? ==> !IsVoidCall(e)
    ensures Evaluate(e, frames, c.world, m.Setting()).Silent? ==> IsVoidCall(e)
    decreases e, 0
  {
    hide CodeAt, Run, Evaluate, TypeOf, Gen, SizeOf, Need, ChargeEffect, CallOps;
    var op := OneArgumentCode(e, scopes, c.pc, StaticsOf(m));
    OneOrTwo(e, scopes, StaticsOf(m));
    OneArgumentEvaluates(e, op, frames, c.world, m.Setting());
    var operand := e.args[0];
    OnlyCallsAreVoid(operand, scopes, frames, c.slots, StaticsOf(m));
    SplitCode(m.program.code, c.pc, Gen(operand, scopes, c.pc), [op]);
    ExpressionPreserved(m, operand, scopes, frames, c);
    var r := Evaluate(operand, frames, c.world, m.Setting());
    if r.Yields? {
      var c1 := Config(c.pc + SizeOf(operand), c.stack + [r.value], c.slots, r.world);
      OpAt(m.program.code, c1.pc, op);
      if op.CallOp? {
        EffectStep(m, c1, op.builtin, [r.value], c.stack);
        EffectShape(op.builtin, r.value, None, r.world, m.Setting());
      } else {
        ReplaceStep(m, c1, [r.value], c.stack, FormatInteger(r.value, m.program.limits.maxStringBytes));
      }
    }
  }

  lemma {:induction false} TwoArgumentsPreserved(m: Machine, e: Expr, scopes: seq<Scope>, frames: seq<Frame>, c: Config)
    requires e.Call? && TwoOperands(e.callee).Some?
    requires TypeOf(e, scopes, StaticsOf(m)).Ok?
    requires CodeAt(m.program.code, c.pc, Gen(e, scopes, c.pc))
    requires Agree(scopes, frames, c.slots)
    requires |c.stack| + Need(e) <= m.StackBound()
    ensures Simulates(m, c, Evaluate(e, frames, c.world, m.Setting()), c.pc + SizeOf(e))
    ensures Evaluate(e, frames, c.world, m.Setting()).Yields? ==> !IsVoidCall(e)
    ensures Evaluate(e, frames, c.world, m.Setting()).Silent? ==> IsVoidCall(e)
    decreases e, 0
  {
    hide CodeAt, Run, Evaluate, TypeOf, Gen, SizeOf, Need, ChargeEffect;
    var code := m.program.code;
    var g := m.Setting();
    var st := StaticsOf(m);
    TwoArgumentsTypes(e, scopes, st);
    TwoArgumentsUnfold(e, scopes, c.pc);
    TwoArgumentsEvaluate(e, frames, c.world, g);
    var left, right, builtin := e.args[0], e.args[1], TwoOperands(e.callee).value;
    OnlyCallsAreVoid(left, scopes, frames, c.slots, st);
    OnlyCallsAreVoid(right, scopes, frames, c.slots, st);
    var rightAt := c.pc + SizeOf(left);
    SplitCode(code, c.pc, Gen(left, scopes, c.pc) + Gen(right, scopes, rightAt), [CallOp(builtin)]);
    SplitCode(code, c.pc, Gen(left, scopes, c.pc), Gen(right, scopes, rightAt));
    ExpressionPreserved(m, left, scopes, frames, c);
    var r := Evaluate(left, frames, c.world, g);
    if r.Yields? {
      var c1 := Config(rightAt, c.stack + [r.value], c.slots, r.world);
      ExpressionPreserved(m, right, scopes, frames, c1);
      var r2 := Evaluate(right, frames, r.world, g);
      if r2.Yields? {
        var c2 := Config(rightAt + SizeOf(right), c1.stack + [r2.value], c.slots, r2.world);
        assert c2.stack == c.stack + [r.value, r2.value];
        OpAt(code, c2.pc, CallOp(builtin));
        EffectStep(m, c2, builtin, [r.value, r2.value], c.stack);
        EffectShape(builtin, r2.value, Some(r.value), r2.world, g);
      }
    }
  }
}
