/** Type soundness: a program the type checker accepts never fails for a reason that is the
    compiler's or the machine's fault, whatever the driver answers and whatever it delivers between
    instructions. `MacroRequests` carries this over to every sequence of calls on the machine. */
module MacroSoundness {
  import opened Wrappers
  import opened MacroCore
  import opened MacroSemantics
  import opened MacroMachine
  import opened MacroCompile
  import opened MacroPreservation
  import opened MacroStatements
  import opened MacroPrograms

  // ---------- typed values, scopes and runs ----------

  /** No value has type void. */
  predicate HasType(v: RuntimeValue, t: Type, watchers: nat) {
    match v
    case Scalar(s) => t == Plain(s.Type())
    case Watcher(id) => t == WatcherType && id < watchers
  }

  ghost predicate LevelTyped(scope: Scope, frame: Frame, watchers: nat) {
    scope.Keys == frame.Keys && forall name | name in scope :: HasType(frame[name], scope[name].kind, watchers)
  }

  ghost predicate Typed(scopes: seq<Scope>, frames: seq<Frame>, watchers: nat) {
    |scopes| == |frames| && forall i | 0 <= i < |scopes| :: LevelTyped(scopes[i], frames[i], watchers)
  }

  /** What `Vm::new` establishes about arguments and prompts. */
  predicate Supplied(g: Setting, st: Statics, prompts: set<string>) {
    && g.limits == st.limits
    && g.args.Keys == st.parameters.Keys
    && (forall name | name in st.parameters :: g.args[name].Type() == st.parameters[name])
    && prompts <= g.prompts.Keys
  }

  /** The codes a run may end with: budgets, values and the driver. */
  predicate RuntimeCode(code: ErrorCode) {
    code in {InstructionBudget, StringLimit, CommandControlCharacter, TxBudget, EffectBudget, EmptyPattern,
             WatcherBudget,
             DurationLimit, IntegerOverflow, DivisionByZero, EffectProtocol, EffectFailed, ExpectTimeout, Interrupted}
  }

  predicate Legitimate(outcome: Outcome) {
    outcome.Failed? ==> RuntimeCode(outcome.code)
  }

  function Count(w: World): nat {
    |w.ledger.watchers|
  }

  predicate SoundExpr(r: ExprResult, t: Type, watchers: nat) {
    match r
    case Stops(result) => Legitimate(result.outcome)
    case Silent(w) => t.VoidType? && watchers <= Count(w)
    case Yields(v, w) => HasType(v, t, Count(w)) && watchers <= Count(w)
  }

  lemma {:induction false} LookupTyped(scopes: seq<Scope>, frames: seq<Frame>, watchers: nat, name: string)
    requires Typed(scopes, frames, watchers)
    ensures Lookup(scopes, name).Some? <==> Lookup(frames, name).Some?
    ensures Lookup(scopes, name).Some? ==>
              HasType(Lookup(frames, name).value, Lookup(scopes, name).value.kind, watchers)
    decreases |scopes|
  {
    if scopes != [] {
      var n := |scopes| - 1;
      assert LevelTyped(scopes[n], frames[n], watchers);
      if name !in scopes[n] {
        OuterTyped(scopes, frames, watchers);
        LookupTyped(scopes[..n], frames[..n], watchers, name);
      }
    }
  }

  lemma OuterTyped(scopes: seq<Scope>, frames: seq<Frame>, watchers: nat)
    requires scopes != [] && Typed(scopes, frames, watchers)
    ensures Typed(Outer(scopes), Outer(frames), watchers)
  {
    forall i | 0 <= i < |scopes| - 1
      ensures LevelTyped(Outer(scopes)[i], Outer(frames)[i], watchers)
    {
      assert LevelTyped(scopes[i], frames[i], watchers);
    }
  }

  lemma MoreWatchers(scopes: seq<Scope>, frames: seq<Frame>, watchers: nat, more: nat)
    requires Typed(scopes, frames, watchers) && watchers <= more
    ensures Typed(scopes, frames, more)
  {
    forall i | 0 <= i < |scopes|
      ensures LevelTyped(scopes[i], frames[i], more)
    {
      assert LevelTyped(scopes[i], frames[i], watchers);
    }
  }

  // ---------- primitive operations ----------

  lemma OperatorSound(op: BinaryOp, a: RuntimeValue, b: RuntimeValue, kind: Type, max: nat, watchers: nat)
    requires HasType(a, kind, watchers) && HasType(b, kind, watchers)
    requires BinaryType(op, kind).Ok? && !op.And? && !op.Or?
    ensures var r := ApplyBinary(op, a, b, max);
            if r.Ok? then HasType(r.value, BinaryType(op, kind).value, watchers) else RuntimeCode(r.code)
  {
  }

  lemma UnarySound(op: UnaryOp, v: RuntimeValue, watchers: nat)
    requires HasType(v, UnaryType(op), watchers)
    ensures var r := ApplyUnary(op, v); if r.Ok? then HasType(r.value, UnaryType(op), watchers) else RuntimeCode(r.code)
  {
  }

  /** The operand types of the builtins. */
  predicate Operands(builtin: Builtin, top: RuntimeValue, below: Option<RuntimeValue>, watchers: nat) {
    match builtin
    case Cmd => HasType(top, STRING, watchers)
    case CmdSendOnly => HasType(top, STRING, watchers)
    case Watch => HasType(top, STRING, watchers)
    case Delay => HasType(top, INTEGER, watchers)
    case Wait => HasType(top, INTEGER, watchers) && below.Some? && HasType(below.value, WatcherType, watchers)
    case Expect => HasType(top, INTEGER, watchers) && below.Some? && HasType(below.value, WatcherType, watchers)
  }

  function ResultType(builtin: Builtin): Type {
    match builtin
    case Watch => WatcherType
    case Wait => BOOLEAN
    case _ => VoidType
  }

  /** An effect that names a watcher names one that exists. */
  predicate EffectNames(effect: Effect, watchers: nat) {
    match effect.kind
    case WatchEffect(w, _) => w < watchers
    case WaitEffect(w, _, _) => w < watchers
    case _ => true
  }

  function EffectType(effect: Effect): Type {
    match effect.kind
    case WatchEffect(_, _) => WatcherType
    case WaitEffect(_, _, strict) => if strict then VoidType else BOOLEAN
    case _ => VoidType
  }

  lemma IssueSound(builtin: Builtin, top: RuntimeValue, below: Option<RuntimeValue>, ledger: Ledger, limits: Limits)
    requires Operands(builtin, top, below, |ledger.watchers|)
    ensures match IssueEffect(builtin, Some(top), below, ledger, limits)
            case Refused(code, _) => RuntimeCode(code)
            case Issued(effect, after) =>
              |ledger.watchers| <= |after.watchers| && EffectNames(effect, |after.watchers|)
              && EffectType(effect) == ResultType(builtin)
  {
  }

  lemma AnswerSound(effect: Effect, w: World)
    requires EffectNames(effect, Count(w))
    ensures SoundExpr(Answered(effect, w), EffectType(effect), Count(w))
  {
  }

  lemma EffectSound(builtin: Builtin, top: RuntimeValue, below: Option<RuntimeValue>, w: World, g: Setting)
    requires Operands(builtin, top, below, Count(w))
    ensures SoundExpr(ChargeEffect(builtin, top, below, w, g), ResultType(builtin), Count(w))
  {
    hide Answered, IssueEffect;
    var ledger := Charged(w).ledger;
    IssueSound(builtin, top, below, ledger, g.limits);
    match IssueEffect(builtin, Some(top), below, ledger, g.limits)
    case Refused(_, _) =>
    case Issued(effect, after) => AnswerSound(effect, Charged(w).(ledger := after, trace := w.trace + [effect]));
  }

  // ---------- expressions ----------

  lemma PrefixedTypes(e: Expr, scopes: seq<Scope>, st: Statics)
    requires IsPrefixed(e) && TypeOf(e, scopes, st).Ok?
    ensures e.Member? ==>
              TypeOf(e.base, scopes, st) == Ok(WatcherType) && TypeOf(e, scopes, st) == Ok(BOOLEAN)
              && PromptsOf(e) == PromptsOf(e.base)
    ensures e.Unary? ==>
              TypeOf(e.operand, scopes, st) == TypeOf(e, scopes, st) == Ok(UnaryType(e.uop))
              && PromptsOf(e) == PromptsOf(e.operand)
  {
  }

  lemma BinaryOperandTypes(e: Expr, scopes: seq<Scope>, st: Statics)
    requires e.Binary? && TypeOf(e, scopes, st).Ok?
    ensures TypeOf(e.left, scopes, st).Ok? && TypeOf(e.right, scopes, st) == TypeOf(e.left, scopes, st)
    ensures e.bop.And? || e.bop.Or? ==> TypeOf(e.left, scopes, st) == TypeOf(e, scopes, st) == Ok(BOOLEAN)
    ensures !e.bop.And? && !e.bop.Or? ==> BinaryType(e.bop, TypeOf(e.left, scopes, st).value) == TypeOf(e, scopes, st)
    ensures PromptsOf(e) == PromptsOf(e.left) + PromptsOf(e.right)
  {
  }

  lemma ArgumentType(e: Expr, scopes: seq<Scope>, st: Statics)
    requires IsOneArgument(e) && TypeOf(e, scopes, st).Ok?
    ensures |e.args| > 0 && PromptsOf(e.args[0]) <= PromptsOf(e)
    ensures e.callee == "str" ==> TypeOf(e.args[0], scopes, st) == Ok(INTEGER) && TypeOf(e, scopes, st) == Ok(STRING)
    ensures e.callee != "str" ==>
              && |CallOps(e.callee, e.args)| == 1 && CallOps(e.callee, e.args)[0].CallOp?
              && var builtin := CallOps(e.callee, e.args)[0].builtin;
                 && builtin in {Cmd, CmdSendOnly, Watch, Delay}
                 && TypeOf(e.args[0], scopes, st) == Ok(if builtin == Delay then INTEGER else STRING)
                 && TypeOf(e, scopes, st) == Ok(ResultType(builtin))
  {
  }

  lemma ArgumentTypes(e: Expr, scopes: seq<Scope>, st: Statics)
    requires e.Call? && TwoOperands(e.callee).Some? && TypeOf(e, scopes, st).Ok?
    ensures |e.args| == 2
    ensures TypeOf(e, scopes, st) == Ok(ResultType(TwoOperands(e.callee).value))
  {
  }

  lemma ArgumentPrompts(e: Expr)
    requires e.Call? && TwoOperands(e.callee).Some? && |e.args| == 2
    ensures PromptsOf(e.args[0]) + PromptsOf(e.args[1]) <= PromptsOf(e)
  {
    assert PromptsOfAll(e.args) == PromptsOf(e.args[0]) + PromptsOfAll(e.args[1..]);
    assert PromptsOfAll(e.args[1..]) == PromptsOf(e.args[1]) + PromptsOfAll(e.args[2..]);
  }

  lemma LeafSound(e: Expr, scopes: seq<Scope>, frames: seq<Frame>, w: World, g: Setting, st: Statics)
    requires IsLeaf(e) && TypeOf(e, scopes, st).Ok?
    requires Typed(scopes, frames, Count(w)) && Supplied(g, st, PromptsOf(e))
    ensures SoundExpr(Evaluate(e, frames, w, g), TypeOf(e, scopes, st).value, Count(w))
  {
    var _ := LeafCode(e, scopes, 0, st);
    LeafEvaluates(e, scopes, st, frames, w, g);
    if e.Variable? { LookupTyped(scopes, frames, Count(w), e.name); }
  }

  lemma {:induction false} ExpressionSound(e: Expr, scopes: seq<Scope>, frames: seq<Frame>, w: World, g: Setting,
                                           st: Statics)
    requires TypeOf(e, scopes, st).Ok?
    requires Typed(scopes, frames, Count(w)) && Supplied(g, st, PromptsOf(e))
    ensures SoundExpr(Evaluate(e, frames, w, g), TypeOf(e, scopes, st).value, Count(w))
    decreases e, 1
  {
    hide Evaluate, TypeOf, Typed, PromptsOf;
    if IsLeaf(e) {
      LeafSound(e, scopes, frames, w, g, st);
    } else if IsPrefixed(e) {
      PrefixedSound(e, scopes, frames, w, g, st);
    } else if e.Binary? {
      BinarySound(e, scopes, frames, w, g, st);
    } else if IsOneArgument(e) {
      OneArgumentSound(e, scopes, frames, w, g, st);
    } else {
      TwoArgumentsSound(e, scopes, frames, w, g, st);
    }
  }

  lemma {:induction false} PrefixedSound(e: Expr, scopes: seq<Scope>, frames: seq<Frame>, w: World, g: Setting,
                                         st: Statics)
    requires IsPrefixed(e) && TypeOf(e, scopes, st).Ok?
    requires Typed(scopes, frames, Count(w)) && Supplied(g, st, PromptsOf(e))
    ensures SoundExpr(Evaluate(e, frames, w, g), TypeOf(e, scopes, st).value, Count(w))
    decreases e, 0
  {
    hide Evaluate, TypeOf, Typed, PromptsOf, ApplyUnary;
    PrefixedTypes(e, scopes, st);
    PrefixedEvaluates(e, frames, w, g);
    var operand := if e.Member? then e.base else e.operand;
    ExpressionSound(operand, scopes, frames, w, g, st);
    var r := Evaluate(operand, frames, w, g);
    if r.Yields? && e.Unary? { UnarySound(e.uop, r.value, Count(r.world)); }
  }

  lemma {:induction false} BinarySound(e: Expr, scopes: seq<Scope>, frames: seq<Frame>, w: World, g: Setting,
                                       st: Statics)
    requires e.Binary? && TypeOf(e, scopes, st).Ok?
    requires Typed(scopes, frames, Count(w)) && Supplied(g, st, PromptsOf(e))
    ensures SoundExpr(Evaluate(e, frames, w, g), TypeOf(e, scopes, st).value, Count(w))
    decreases e, 0
  {
    hide Evaluate, TypeOf, Typed, PromptsOf, ApplyBinary;
    var logical := e.bop.And? || e.bop.Or?;
    BinaryOperandTypes(e, scopes, st);
    ExpressionSound(e.left, scopes, frames, w, g, st);
    if logical { ShortCircuitEvaluates(e, frames, w, g); } else { OperatorEvaluates(e, frames, w, g); }
    var r := Evaluate(e.left, frames, w, g);
    if r.Yields? {
      MoreWatchers(scopes, frames, Count(w), Count(r.world));
      var w1 := if logical then Charged(r.world) else r.world;
      ExpressionSound(e.right, scopes, frames, w1, g, st);
      var r2 := Evaluate(e.right, frames, w1, g);
      if r2.Yields? && !logical {
        var kind := TypeOf(e.left, scopes, st).value;
        OperatorSound(e.bop, r.value, r2.value, kind, g.limits.maxStringBytes, Count(r2.world));
      }
    }
  }

  lemma {:induction false} OneArgumentSound(e: Expr, scopes: seq<Scope>, frames: seq<Frame>, w: World, g: Setting,
                                            st: Statics)
    requires IsOneArgument(e) && TypeOf(e, scopes, st).Ok?
    requires Typed(scopes, frames, Count(w)) && Supplied(g, st, PromptsOf(e))
    ensures SoundExpr(Evaluate(e, frames, w, g), TypeOf(e, scopes, st).value, Count(w))
    decreases e, 0
  {
    hide Evaluate, TypeOf, Typed, PromptsOf, ChargeEffect, Gen, SizeOf, Need, CallOps;
    ArgumentType(e, scopes, st);
    OneOrTwo(e, scopes, st);
    var op := OneArgumentCode(e, scopes, 0, st);
    OneArgumentEvaluates(e, op, frames, w, g);
    ExpressionSound(e.args[0], scopes, frames, w, g, st);
    var r := Evaluate(e.args[0], frames, w, g);
    if r.Yields? && op.CallOp? {
      EffectSound(op.builtin, r.value, None, r.world, g);
    }
  }

  lemma {:induction false} TwoArgumentsSound(e: Expr, scopes: seq<Scope>, frames: seq<Frame>, w: World, g: Setting,
                                             st: Statics)
    requires e.Call? && TwoOperands(e.callee).Some? && TypeOf(e, scopes, st).Ok?
    requires Typed(scopes, frames, Count(w)) && Supplied(g, st, PromptsOf(e))
    ensures SoundExpr(Evaluate(e, frames, w, g), TypeOf(e, scopes, st).value, Count(w))
    decreases e, 0
  {
    hide Evaluate, TypeOf, Typed, PromptsOf, ChargeEffect;
    TwoArgumentsTypes(e, scopes, st);
    ArgumentTypes(e, scopes, st);
    ArgumentPrompts(e);
    TwoArgumentsEvaluate(e, frames, w, g);
    ExpressionSound(e.args[0], scopes, frames, w, g, st);
    var r := Evaluate(e.args[0], frames, w, g);
    if r.Yields? {
      MoreWatchers(scopes, frames, Count(w), Count(r.world));
      ExpressionSound(e.args[1], scopes, frames, r.world, g, st);
      var r2 := Evaluate(e.args[1], frames, r.world, g);
      if r2.Yields? {
        EffectSound(TwoOperands(e.callee).value, r2.value, Some(r.value), r2.world, g);
      }
    }
  }

  // ---------- statements ----------

  ghost predicate SoundStmt(r: StmtResult, inner: seq<Scope>, outer: seq<Scope>, watchers: nat) {
    match r
    case Aborts(result) => Legitimate(result.outcome)
    case Ends(signal, frames, w) =>
      && watchers <= Count(w) && |frames| == |inner| >= |outer|
      && (if signal.Proceed? then Typed(inner, frames, Count(w)) else Typed(outer, frames[..|outer|], Count(w)))
  }

  lemma DeclareTyped(ctx: Context, frames: seq<Frame>, watchers: nat, name: string, kind: Type, v: RuntimeValue)
    requires ctx.scopes != [] && Typed(ctx.scopes, frames, watchers) && HasType(v, kind, watchers)
    ensures Typed(Declare(ctx, name, kind).scopes, Declared(frames, name, v), watchers)
  {
    var scopes1, frames1 := Declare(ctx, name, kind).scopes, Declared(frames, name, v);
    forall i | 0 <= i < |scopes1|
      ensures LevelTyped(scopes1[i], frames1[i], watchers)
    {
      assert LevelTyped(ctx.scopes[i], frames[i], watchers);
    }
  }

  lemma {:induction false} AssignTyped(scopes: seq<Scope>, frames: seq<Frame>, watchers: nat, name: string,
                                       v: RuntimeValue)
    requires Typed(scopes, frames, watchers) && Lookup(scopes, name).Some?
    requires HasType(v, Lookup(scopes, name).value.kind, watchers)
    ensures Typed(scopes, Assigned(frames, name, v), watchers)
    decreases |scopes|
  {
    var n := |scopes| - 1;
    var frames1 := Assigned(frames, name, v);
    assert LevelTyped(scopes[n], frames[n], watchers);
    if name !in scopes[n] {
      OuterTyped(scopes, frames, watchers);
      AssignTyped(scopes[..n], frames[..n], watchers, name, v);
    }
    forall i | 0 <= i < |scopes|
      ensures LevelTyped(scopes[i], frames1[i], watchers)
    {
      assert LevelTyped(scopes[i], frames[i], watchers);
      if i < n && name !in scopes[n] { assert LevelTyped(scopes[..n][i], Assigned(frames[..n], name, v)[i], watchers); }
    }
  }

  lemma PushTyped(scopes: seq<Scope>, frames: seq<Frame>, watchers: nat)
    requires Typed(scopes, frames, watchers)
    ensures Typed(scopes + [map[]], frames + [map[]], watchers)
  {
    forall i | 0 <= i < |scopes| + 1
      ensures LevelTyped((scopes + [map[]])[i], (frames + [map[]])[i], watchers)
    {
      if i < |scopes| { assert LevelTyped(scopes[i], frames[i], watchers); }
    }
  }

  lemma TestSound(cond: Expr, ctx: Context, frames: seq<Frame>, w: World, g: Setting, st: Statics)
    requires CheckCondition(cond, ctx, st).Ok?
    requires Typed(ctx.scopes, frames, Count(w)) && Supplied(g, st, PromptsOf(cond))
    ensures match Test(cond, frames, w, g)
            case Stops(result) => Legitimate(result.outcome)
            case Silent(_) => true
            case Yields(_, w1) => Count(w) <= Count(w1)
  {
    hide Evaluate, TypeOf, Typed, PromptsOf;
    ExpressionSound(cond, ctx.scopes, frames, w, g, st);
  }

  lemma {:induction false} SimpleSound(s: Statement, ctx: Context, inLoop: bool, frames: seq<Frame>, w: World,
                                       g: Setting, st: Statics)
    requires s.Let? || s.Assign? || s.Expression?
    requires Scoped(ctx) && Check(s, ctx, inLoop, st).Ok?
    requires Typed(ctx.scopes, frames, Count(w)) && Supplied(g, st, StatementPrompts(s))
    ensures SoundStmt(Execute(s, frames, w, g), Check(s, ctx, inLoop, st).value.scopes, ctx.scopes, Count(w))
  {
    hide Evaluate, TypeOf, Typed, PromptsOf, Separate;
    var e := match s { case Let(_, e) => e case Assign(_, e) => e case Expression(e) => e };
    ExpressionSound(e, ctx.scopes, frames, w, g, st);
    var r := Evaluate(e, frames, w, g);
    if !r.Stops? { MoreWatchers(ctx.scopes, frames, Count(w), Count(r.world)); }
    FramesMatch(ctx.scopes, frames, Count(w));
    if s.Assign? { LookupTyped(ctx.scopes, frames, Count(w), s.target); }
    if r.Yields? {
      match s
      case Let(name, _) => DeclareTyped(ctx, frames, Count(r.world), name, TypeOf(e, ctx.scopes, st).value, r.value);
        FramesMatch(Declare(ctx, name, TypeOf(e, ctx.scopes, st).value).scopes, Declared(frames, name, r.value),
                    Count(r.world));
      case Assign(name, _) => AssignTyped(ctx.scopes, frames, Count(r.world), name, r.value);
        FramesMatch(ctx.scopes, Assigned(frames, name, r.value), Count(r.world));
      case Expression(_) =>
    }
  }

  lemma FramesMatch(scopes: seq<Scope>, frames: seq<Frame>, watchers: nat)
    requires Typed(scopes, frames, watchers)
    ensures |scopes| == |frames| && frames[..|scopes|] == frames
  {
  }

  lemma {:induction false} StatementSound(s: Statement, ctx: Context, inLoop: bool, frames: seq<Frame>, w: World,
                                          g: Setting, st: Statics)
    requires Scoped(ctx) && Braced(s) && Check(s, ctx, inLoop, st).Ok?
    requires Typed(ctx.scopes, frames, Count(w)) && Supplied(g, st, StatementPrompts(s))
    ensures SoundStmt(Execute(s, frames, w, g), Check(s, ctx, inLoop, st).value.scopes, ctx.scopes, Count(w))
    decreases Remaining(w, g), s, 4
  {
    hide Evaluate, TypeOf, Typed, PromptsOf, Separate, CheckAll, CheckOption, ExecuteAll, ExecuteOption, Loop;
    FramesMatch(ctx.scopes, frames, Count(w));
    match s
    case Let(_, _) => SimpleSound(s, ctx, inLoop, frames, w, g, st);
    case Assign(_, _) => SimpleSound(s, ctx, inLoop, frames, w, g, st);
    case Expression(_) => SimpleSound(s, ctx, inLoop, frames, w, g, st);
    case Block(body) => BlockSound(s, ctx, inLoop, frames, w, g, st);
    case If(_, _, _) => IfSound(s, ctx, inLoop, frames, w, g, st);
    case While(_, _) =>
      CheckExtends(s, ctx, inLoop, st);
      WhileChecked(s, ctx, inLoop, g, st);
      LoopSound(s, ctx, frames, w, g, st);
    case For(_, _, _, _) => ForSound(s, ctx, inLoop, frames, w, g, st);
    case _ =>
  }

  lemma {:induction false} BlockSound(s: Statement, ctx: Context, inLoop: bool, frames: seq<Frame>, w: World,
                                      g: Setting, st: Statics)
    requires s.Block? && Scoped(ctx) && Braced(s) && Check(s, ctx, inLoop, st).Ok?
    requires Typed(ctx.scopes, frames, Count(w)) && Supplied(g, st, StatementPrompts(s))
    ensures SoundStmt(Execute(s, frames, w, g), Check(s, ctx, inLoop, st).value.scopes, ctx.scopes, Count(w))
    decreases Remaining(w, g), s, 3
  {
    hide TypeOf, Typed, Separate, CheckAll, ExecuteAll;
    PushScoped(ctx);
    PushTyped(ctx.scopes, frames, Count(w));
    CheckAllExtends(s.body, PushScope(ctx), inLoop, st);
    var inner := CheckAll(s.body, PushScope(ctx), inLoop, st).value;
    AllSound(s.body, PushScope(ctx), inLoop, frames + [map[]], w, g, st);
    var r := ExecuteAll(s.body, frames + [map[]], w, g);
    if r.Ends? && r.signal.Proceed? {
      OuterTyped(inner.scopes, r.frames, Count(r.world));
    } else if r.Ends? {
      assert Outer(r.frames)[..|ctx.scopes|] == r.frames[..|ctx.scopes|];
    }
  }

  lemma {:induction false} AllSound(body: seq<Statement>, ctx: Context, inLoop: bool, frames: seq<Frame>, w: World,
                                    g: Setting, st: Statics)
    requires Scoped(ctx) && BracedAll(body) && CheckAll(body, ctx, inLoop, st).Ok?
    requires Typed(ctx.scopes, frames, Count(w)) && Supplied(g, st, AllPrompts(body))
    ensures SoundStmt(ExecuteAll(body, frames, w, g), CheckAll(body, ctx, inLoop, st).value.scopes, Outer(ctx.scopes),
                      Count(w))
    decreases Remaining(w, g), body, 3
  {
    hide Typed, Separate, Execute, Check, StatementPrompts, Braced;
    FramesMatch(ctx.scopes, frames, Count(w));
    if body != [] {
      var s, rest := body[0], body[1..];
      var ctx1 := Check(s, ctx, inLoop, st).value;
      CheckExtends(s, ctx, inLoop, st);
      CheckAllExtends(rest, ctx1, inLoop, st);
      StatementSound(s, ctx, inLoop, frames, w, g, st);
      var r := Execute(s, frames, w, g);
      if r.Ends? && r.signal.Proceed? {
        AllSound(rest, ctx1, inLoop, r.frames, r.world, g, st);
      } else if r.Ends? {
        OuterTyped(ctx.scopes, r.frames[..|ctx.scopes|], Count(r.world));
        assert Outer(r.frames[..|ctx.scopes|]) == r.frames[..|ctx.scopes| - 1];
      }
    }
  }

  lemma {:induction false} IfSound(s: Statement, ctx: Context, inLoop: bool, frames: seq<Frame>, w: World, g: Setting,
                                   st: Statics)
    requires s.If? && Scoped(ctx) && Braced(s) && Check(s, ctx, inLoop, st).Ok?
    requires Typed(ctx.scopes, frames, Count(w)) && Supplied(g, st, StatementPrompts(s))
    ensures SoundStmt(Execute(s, frames, w, g), Check(s, ctx, inLoop, st).value.scopes, ctx.scopes, Count(w))
    decreases Remaining(w, g), s, 3
  {
    hide Typed, Scoped, Check, Execute, ExecuteOption, Test, CheckCondition, Braced, PromptsOf;
    IfExecutes(s, frames, w, g);
    var ctx1 := IfContexts(s, ctx, inLoop, st);
    FramesMatch(ctx.scopes, frames, Count(w));
    TestSound(s.cond, ctx, frames, w, g, st);
    var t := Test(s.cond, frames, w, g);
    if t.Yields? {
      MoreWatchers(ctx.scopes, frames, Count(w), Count(t.world));
      if t.value.scalar.flag {
        StatementSound(s.thenBranch, ctx, inLoop, frames, t.world, g, st);
      } else {
        OptionSound(s.elseBranch, ctx1, inLoop, frames, t.world, g, st);
      }
    }
  }

  lemma {:induction false} OptionSound(s: Option<Statement>, ctx: Context, inLoop: bool, frames: seq<Frame>, w: World,
                                       g: Setting, st: Statics)
    requires Scoped(ctx) && BracedOption(s) && CheckOption(s, ctx, inLoop, st).Ok?
    requires Typed(ctx.scopes, frames, Count(w)) && Supplied(g, st, OptionPrompts(s))
    ensures SoundStmt(ExecuteOption(s, frames, w, g), CheckOption(s, ctx, inLoop, st).value.scopes, ctx.scopes,
                      Count(w))
    decreases Remaining(w, g), s, 5
  {
    hide Typed, Scoped, Check, Execute, Braced;
    FramesMatch(ctx.scopes, frames, Count(w));
    if s.Some? { StatementSound(s.value, ctx, inLoop, frames, w, g, st); }
  }

  // ---------- loops ----------

  /** What the type checker has established about a loop in the context at its head. */
  ghost predicate LoopChecked(s: Statement, head: Context, g: Setting, st: Statics) {
    && (s.While? || s.For?) && Scoped(head)
    && (LoopBound(s).Some? ==>
        CheckCondition(LoopBound(s).value, head, st).Ok? && Supplied(g, st, PromptsOf(LoopBound(s).value)))
    && LoopBody(s).Block? && Braced(LoopBody(s)) && Check(LoopBody(s), head, true, st).Ok?
    && SimpleOption(LoopStep(s)) && (LoopStep(s).Some? ==> !LoopStep(s).value.Let?)
    && CheckOption(LoopStep(s), Next(LoopBody(s), head, st), true, st).Ok?
    && Supplied(g, st, StatementPrompts(LoopBody(s))) && Supplied(g, st, OptionPrompts(LoopStep(s)))
  }

  lemma WhileChecked(s: Statement, ctx: Context, inLoop: bool, g: Setting, st: Statics)
    requires s.While? && Scoped(ctx) && Braced(s) && Check(s, ctx, inLoop, st).Ok?
             && Supplied(g, st, StatementPrompts(s))
    ensures LoopChecked(s, ctx, g, st)
  {
  }

  lemma {:induction false} LoopSound(s: Statement, head: Context, frames: seq<Frame>, w: World, g: Setting, st: Statics)
    requires LoopChecked(s, head, g, st) && Typed(head.scopes, frames, Count(w))
    ensures SoundStmt(Loop(s, frames, w, g), head.scopes, head.scopes, Count(w))
    decreases Remaining(w, g), s, 2
  {
    hide Typed, Test, Iterate, Scoped, Check, Braced;
    FramesMatch(head.scopes, frames, Count(w));
    if LoopBound(s).None? {
      IterateSound(s, head, frames, w, g, st);
    } else {
      TestSound(LoopBound(s).value, head, frames, w, g, st);
      var t := Test(LoopBound(s).value, frames, w, g);
      if t.Yields? {
        MoreWatchers(head.scopes, frames, Count(w), Count(t.world));
        if t.value.scalar.flag { IterateSound(s, head, frames, t.world, g, st); }
      }
    }
  }

  lemma {:induction false} IterateSound(s: Statement, head: Context, frames: seq<Frame>, w: World, g: Setting,
                                        st: Statics)
    requires LoopChecked(s, head, g, st) && Typed(head.scopes, frames, Count(w))
    ensures SoundStmt(Iterate(s, frames, w, g), head.scopes, head.scopes, Count(w))
    decreases Remaining(w, g), s, 1
  {
    hide Typed, Iterate, Loop, Execute, Scoped, Check, Braced, CheckCondition, CheckOption, StatementPrompts,
         OptionPrompts, PromptsOf;
    IterateUnfolds(s, frames, w, g);
    LoopCheckedContexts(s, head, g, st);
    StatementSound(LoopBody(s), head, true, frames, w, g, st);
    var r := Execute(LoopBody(s), frames, w, g);
    if r.Ends? {
      assert r.frames[..|head.scopes|] == r.frames;
      if s.While? && r.signal.Continued? {
        LoopSound(s, head, r.frames, r.world, g, st);
      } else if !r.signal.Broke? {
        StepSound(s, head, r.frames, r.world, g, st);
        var r2 := ExecuteOption(LoopStep(s), r.frames, r.world, g);
        if r2.Ends? && CanCharge(r2.world, g) { LoopSound(s, head, r2.frames, Charged(r2.world), g, st); }
      }
    }
  }

  lemma LoopCheckedContexts(s: Statement, head: Context, g: Setting, st: Statics)
    requires LoopChecked(s, head, g, st)
    ensures var ctx := Next(LoopBody(s), head, st);
            && Check(LoopBody(s), head, true, st) == Ok(ctx) && Scoped(ctx) && ctx.scopes == head.scopes
            && CheckOption(LoopStep(s), ctx, true, st).value.scopes == head.scopes
  {
    hide Separate;
    CheckExtends(LoopBody(s), head, true, st);
    CheckOptionExtends(LoopStep(s), Next(LoopBody(s), head, st), true, st);
  }

  lemma {:induction false} StepSound(s: Statement, head: Context, frames: seq<Frame>, w: World, g: Setting, st: Statics)
    requires LoopChecked(s, head, g, st) && Typed(head.scopes, frames, Count(w))
    ensures var r := ExecuteOption(LoopStep(s), frames, w, g);
            SoundStmt(r, head.scopes, head.scopes, Count(w)) && (r.Ends? ==> r.signal.Proceed?)
  {
    hide Typed, Execute, Scoped, Check;
    LoopCheckedContexts(s, head, g, st);
    FramesMatch(head.scopes, frames, Count(w));
    if LoopStep(s).Some? {
      SimpleProceeds(LoopStep(s).value, frames, w, g);
      SimpleSound(LoopStep(s).value, Next(LoopBody(s), head, st), true, frames, w, g, st);
    }
  }

  lemma {:induction false} ForSound(s: Statement, ctx: Context, inLoop: bool, frames: seq<Frame>, w: World, g: Setting,
                                    st: Statics)
    requires s.For? && Scoped(ctx) && Braced(s) && Check(s, ctx, inLoop, st).Ok?
    requires Typed(ctx.scopes, frames, Count(w)) && Supplied(g, st, StatementPrompts(s))
    ensures SoundStmt(Execute(s, frames, w, g), Check(s, ctx, inLoop, st).value.scopes, ctx.scopes, Count(w))
    decreases Remaining(w, g), s, 3
  {
    hide Typed, Execute, Loop, Check, Separate, CheckCondition, PromptsOf;
    PushScoped(ctx);
    PushTyped(ctx.scopes, frames, Count(w));
    CheckExtends(s, ctx, inLoop, st);
    var head := ForContexts(s, ctx, inLoop, st);
    ForExecutes(s, frames, w, g);
    if s.start.Some? {
      SimpleProceeds(s.start.value, frames + [map[]], w, g);
      SimpleSound(s.start.value, PushScope(ctx), inLoop, frames + [map[]], w, g, st);
    }
    var r := ExecuteOption(s.start, frames + [map[]], w, g);
    if r.Ends? {
      LoopSound(s, head, r.frames, r.world, g, st);
      var r1 := Loop(s, r.frames, r.world, g);
      if r1.Ends? { OuterTyped(head.scopes, r1.frames, Count(r1.world)); }
    }
  }

  // ---------- programs ----------

  lemma MeaningSound(program: seq<Statement>, st: Statics, g: Setting, answers: seq<Answer>, deliveries: seq<Delivery>)
    requires BracedAll(program) && CheckProgram(program, st).Ok? && Supplied(g, st, AllPrompts(program))
    ensures Legitimate(Meaning(program, answers, deliveries, g).outcome)
  {
    hide CheckAll, Separate, BracedAll, ExecuteAll, AllPrompts;
    EmptyScoped();
    var w := World(FRESH_LEDGER, answers, [], deliveries);
    assert LevelTyped(OUTERMOST.scopes[0], map[], Count(w));
    AllSound(program, OUTERMOST, false, [map[]], w, g, st);
  }

  /** No run of a compiled program, under any answers and deliveries, fails with `vm_invariant`,
      `unknown_watcher` or `stack_limit`, reads an unassigned variable, or indexes a missing argument,
      prompt or slot. */
  lemma ProgramSound(program: seq<Statement>, st: Statics, args: map<string, Value>, prompts: map<string, string>,
                     answers: seq<Answer>, deliveries: seq<Delivery>)
    requires WellFormed(program, st.limits) && CodeOf(program, st).Ok?
    requires Supplied(Setting(st.limits, args, prompts), st, AllPrompts(program))
    ensures var m := Machine(CodeOf(program, st).value, args, prompts);
            Legitimate(Run(m, StartConfig(m, answers, deliveries)).outcome)
  {
    hide Run, Meaning, CheckAll, GenAll, BracedAll, ShallowAll;
    ProgramPreserved(program, st, args, prompts, answers, deliveries);
    MeaningSound(program, st, Setting(st.limits, args, prompts), answers, deliveries);
  }
}
