/** The typing rules of Macro Script v1 as relations, and that the compiler accepts exactly the programs
    they admit (crates/serial-macro/src/compiler.rs). */
module MacroTyping {
  import opened Wrappers
  import opened MacroCore
  import opened MacroCompile
  import opened MacroSemantics
  import opened MacroStatements
  import opened MacroCompiler

  // ---------- the rules ----------

  /** The types of the names in each scope, outermost first. */
  type Env = seq<map<string, Type>>

  /** The innermost declaration of `name` gives it type `t`. */
  ghost predicate NameHas(env: Env, name: string, t: Type) {
    exists k | 0 <= k < |env| :: name in env[k] && env[k][name] == t && forall j | k < j < |env| :: name !in env[j]
  }

  /** Operand types and result type of a binary operator. */
  predicate Signature(op: BinaryOp, a: Type, b: Type, t: Type) {
    match op
    case Add => (a == b == t == INTEGER) || (a == b == t == STRING)
    case Subtract | Multiply | Divide | Remainder => a == b == t == INTEGER
    case Less | LessEqual | Greater | GreaterEqual => a == b == INTEGER && t == BOOLEAN
    case Equal | NotEqual => a == b && a in {STRING, INTEGER, BOOLEAN} && t == BOOLEAN
    case And | Or => a == b == t == BOOLEAN
  }

  /** A text that is known when the program is compiled: a literal, or a concatenation of such texts. */
  predicate IsText(e: Expr) {
    || (e.Literal? && e.value.Str?)
    || (e.Binary? && e.bop == Add && IsText(e.left) && IsText(e.right))
  }

  function TextOf(e: Expr): string
    requires IsText(e)
  {
    if e.Literal? then e.value.text else TextOf(e.left) + TextOf(e.right)
  }

  /** No concatenation of known texts in a chain of `+` exceeds the limit. */
  predicate TextsFit(e: Expr, max: nat) {
    e.Binary? && e.bop == Add ==>
      TextsFit(e.left, max) && TextsFit(e.right, max) && (IsText(e) ==> Utf8Len(TextOf(e)) <= max)
  }

  predicate Sendable(e: Expr, limits: Limits) {
    && TextsFit(e, limits.maxStringBytes)
    && (IsText(e) ==>
          && Utf8Len(TextOf(e)) <= limits.maxStringBytes
          && forall i | 0 <= i < |TextOf(e)| :: !IsControl(TextOf(e)[i]))
  }

  predicate Watchable(e: Expr, limits: Limits) {
    TextsFit(e, limits.maxStringBytes) && (IsText(e) ==> TextOf(e) != "")
  }

  predicate Brief(e: Expr, limits: Limits) {
    e.Literal? && e.value.Int? ==> 0 <= e.value.number <= limits.maxDurationMs
  }

  /** `e` has type `t`. */
  ghost predicate Typed(e: Expr, env: Env, st: Statics, t: Type)
    decreases e
  {
    match e
    case Literal(v) => t == if v.Str? then STRING else if v.Int? then INTEGER else BOOLEAN
    case Variable(name) => NameHas(env, name, t)
    case Member(base, field) =>
      if base == Variable("args") then field in st.parameters && t == Plain(st.parameters[field])
      else field == "matched" && t == BOOLEAN && Typed(base, env, st, WatcherType)
    case Unary(op, operand) => t == (if op == Negate then INTEGER else BOOLEAN) && Typed(operand, env, st, t)
    case Binary(op, left, right) =>
      exists a, b :: Typed(left, env, st, a) && Typed(right, env, st, b) && Signature(op, a, b, t)
    case Call(name, args) =>
      || (name == "cmd" && t == VoidType && (|args| == 1 || (|args| == 2 && args[1] == Literal(Str("send_only"))))
          && Typed(args[0], env, st, STRING) && Sendable(args[0], st.limits))
      || (name == "watch" && t == WatcherType && |args| == 1
          && Typed(args[0], env, st, STRING) && Watchable(args[0], st.limits))
      || (name == "delay" && t == VoidType && |args| == 1
          && Typed(args[0], env, st, INTEGER) && Brief(args[0], st.limits))
      || (name in {"wait", "expect"} && t == (if name == "wait" then BOOLEAN else VoidType) && |args| == 2
          && Typed(args[0], env, st, WatcherType) && Typed(args[1], env, st, INTEGER) && Brief(args[1], st.limits))
      || (name == "str" && t == STRING && |args| == 1 && Typed(args[0], env, st, INTEGER))
      || (name == "prompt" && t == STRING && |args| == 1 && args[0] in {Literal(Str("shell")), Literal(Str("uboot"))})
  }

  /** A name that may be declared here. */
  predicate Declarable(env: Env, name: string) {
    && env != [] && name !in env[|env| - 1]
    && name !in {"cmd", "watch", "prompt", "wait", "expect", "delay", "str"}
    && name !in {"let", "if", "else", "for", "while", "break", "continue", "true", "false", "args", "return", "fn",
                 "function", "import", "eval"}
  }

  function Bind(env: Env, name: string, t: Type): Env
    requires env != []
  {
    env[|env| - 1 := env[|env| - 1][name := t]]
  }

  /** `s` is well typed in `env`, and `after` is what is declared behind it. */
  ghost predicate Admits(s: Statement, env: Env, inLoop: bool, st: Statics, after: Env)
    decreases s, 1
  {
    match s
    case Let(name, e) =>
      exists t :: Typed(e, env, st, t) && t != VoidType && Declarable(env, name) && after == Bind(env, name, t)
    case Assign(name, e) => after == env && exists t :: NameHas(env, name, t) && Typed(e, env, st, t)
    case Expression(e) => after == env && exists t :: Typed(e, env, st, t)
    case Block(body) => after == env && exists inner :: AdmitsAll(body, env + [map[]], inLoop, st, inner)
    case If(cond, a, b) =>
      Typed(cond, env, st, BOOLEAN) && exists mid ::
        Admits(a, env, inLoop, st, mid) && AdmitsOption(b, mid, inLoop, st, after)
    case While(test, body) => Typed(test, env, st, BOOLEAN) && Admits(body, env, true, st, after)
    case For(start, bound, step, body) =>
      && after == env && !(step.Some? && step.value.Let?)
      && exists head, mid, end ::
           && AdmitsOption(start, env + [map[]], inLoop, st, head)
           && (bound.Some? ==> Typed(bound.value, head, st, BOOLEAN))
           && Admits(body, head, true, st, mid) && AdmitsOption(step, mid, true, st, end)
    case Break => inLoop && after == env
    case Continue => inLoop && after == env
    case Empty => after == env
  }

  ghost predicate AdmitsOption(s: Option<Statement>, env: Env, inLoop: bool, st: Statics, after: Env)
    decreases s, 0
  {
    match s
    case None => after == env
    case Some(inner) => Admits(inner, env, inLoop, st, after)
  }

  ghost predicate AdmitsAll(body: seq<Statement>, env: Env, inLoop: bool, st: Statics, after: Env)
    decreases body, 0
  {
    if body == [] then after == env
    else exists mid :: Admits(body[0], env, inLoop, st, mid) && AdmitsAll(body[1..], mid, inLoop, st, after)
  }

  /** The declarations in a program, wherever they stand. */
  function Lets(s: Statement): nat
    decreases s, 1
  {
    match s
    case Let(_, _) => 1
    case Block(body) => LetsAll(body)
    case If(_, a, b) => Lets(a) + LetsOption(b)
    case While(_, body) => Lets(body)
    case For(start, _, step, body) => LetsOption(start) + Lets(body) + LetsOption(step)
    case _ => 0
  }

  function LetsOption(s: Option<Statement>): nat
    decreases s, 0
  {
    match s
    case None => 0
    case Some(inner) => Lets(inner)
  }

  function LetsAll(body: seq<Statement>): nat
    decreases body, 0
  {
    if body == [] then 0 else Lets(body[0]) + LetsAll(body[1..])
  }

  // ---------- expressions ----------

  function Erase(scopes: seq<Scope>): (env: Env)
    ensures |env| == |scopes| && forall i | 0 <= i < |scopes| :: env[i].Keys == scopes[i].Keys
  {
    seq(|scopes|, i requires 0 <= i < |scopes| => map name | name in scopes[i] :: scopes[i][name].kind)
  }

  lemma {:induction false} LookupIsInnermost(scopes: seq<Scope>, name: string)
    ensures forall t :: NameHas(Erase(scopes), name, t) <==>
              Lookup(scopes, name).Some? && Lookup(scopes, name).value.kind == t
  {
    if scopes != [] {
      var n := |scopes| - 1;
      LookupIsInnermost(scopes[..n], name);
      assert Erase(scopes)[..n] == Erase(scopes[..n]);
      if name in scopes[n] {
        forall t | t == scopes[n][name].kind ensures NameHas(Erase(scopes), name, t) {
          assert name in Erase(scopes)[n] && Erase(scopes)[n][name] == t;
        }
      } else {
        forall t ensures NameHas(Erase(scopes), name, t) <==> NameHas(Erase(scopes[..n]), name, t) {
          OuterName(Erase(scopes), name, t);
        }
      }
    }
  }

  lemma OuterName(env: Env, name: string, t: Type)
    requires env != [] && name !in env[|env| - 1]
    ensures NameHas(env, name, t) <==> NameHas(env[..|env| - 1], name, t)
  {
    var outer := env[..|env| - 1];
    assert forall j | 0 <= j < |outer| :: outer[j] == env[j];
    if NameHas(env, name, t) {
      var k :| 0 <= k < |env| && name in env[k] && env[k][name] == t && forall j | k < j < |env| :: name !in env[j];
      assert name in outer[k] && outer[k][name] == t;
    }
    if NameHas(outer, name, t) {
      var k :| 0 <= k < |outer| && name in outer[k] && outer[k][name] == t
               && forall j | k < j < |outer| :: name !in outer[j];
      assert name in env[k] && env[k][name] == t;
    }
  }

  /** The static text computation knows the text of known texts within the limit, and nothing else. */
  lemma {:induction false} ConstantIsText(e: Expr, max: nat)
    ensures ConstantString(e, max).Ok? <==> TextsFit(e, max)
    ensures TextsFit(e, max) ==> ConstantString(e, max) == Ok(if IsText(e) then Some(TextOf(e)) else None)
  {
    if e.Binary? && e.bop == Add {
      ConstantIsText(e.left, max);
      ConstantIsText(e.right, max);
      if IsText(e) { Utf8LenConcat(TextOf(e.left), TextOf(e.right)); }
    }
  }

  lemma StaticChecks(e: Expr, limits: Limits)
    ensures CheckCommandText(e, limits.maxStringBytes).Ok? <==> Sendable(e, limits)
    ensures CheckPattern(e, limits.maxStringBytes).Ok? <==> Watchable(e, limits)
    ensures CheckDuration(e, limits.maxDurationMs).Ok? <==> Brief(e, limits)
  {
    hide ConstantString, TextsFit, IsText, TextOf, Utf8Len;
    ConstantIsText(e, limits.maxStringBytes);
  }

  /** One operator at a time: the table is what the compiler accepts. */
  lemma SignatureIsVerdict(op: BinaryOp, a: Type, b: Type, t: Type)
    ensures Signature(op, a, b, t) <==> b == a && BinaryType(op, a) == Ok(t)
  {
    assert a.Plain? <==> a in {STRING, INTEGER, BOOLEAN} by {
      if a.Plain? { assert a.scalar.StringType? || a.scalar.IntegerType? || a.scalar.BooleanType?; }
    }
  }

  /** The type of an expression is the one the rules give it. */
  lemma {:induction false} TypedIsTypeOf(e: Expr, scopes: seq<Scope>, st: Statics)
    ensures forall t :: Typed(e, Erase(scopes), st, t) <==> TypeOf(e, scopes, st) == Ok(t)
    decreases e, 1
  {
    hide Signature, BinaryType, NameHas, Lookup;
    match e
    case Literal(_) =>
    case Variable(name) => LookupIsInnermost(scopes, name);
    case Member(base, _) => TypedIsTypeOf(base, scopes, st);
    case Unary(_, operand) => TypedIsTypeOf(operand, scopes, st);
    case Binary(_, left, right) => BinaryIsTypeOf(e, scopes, st);
    case Call(_, args) => CallIsTypeOf(e, scopes, st);
  }

  lemma {:induction false} BinaryIsTypeOf(e: Expr, scopes: seq<Scope>, st: Statics)
    requires e.Binary?
    ensures forall t :: Typed(e, Erase(scopes), st, t) <==> TypeOf(e, scopes, st) == Ok(t)
    decreases e, 0
  {
    hide Signature, BinaryType, Typed, TypeOf;
    TypedIsTypeOf(e.left, scopes, st);
    TypedIsTypeOf(e.right, scopes, st);
    BinaryVerdict(e, scopes, st);
    forall t ensures Typed(e, Erase(scopes), st, t) <==> TypeOf(e, scopes, st) == Ok(t) {
      TypedBinary(e, Erase(scopes), st, t);
      if TypeOf(e.left, scopes, st).Ok? && TypeOf(e.right, scopes, st).Ok? {
        SignatureIsVerdict(e.bop, TypeOf(e.left, scopes, st).value, TypeOf(e.right, scopes, st).value, t);
        ConnectiveVerdict(e.bop, TypeOf(e.left, scopes, st).value);
      }
    }
  }

  lemma TypedBinary(e: Expr, env: Env, st: Statics, t: Type)
    requires e.Binary?
    ensures Typed(e, env, st, t) <==>
              exists a, b :: Typed(e.left, env, st, a) && Typed(e.right, env, st, b) && Signature(e.bop, a, b, t)
  {
  }

  lemma ConnectiveVerdict(op: BinaryOp, a: Type)
    ensures op.And? || op.Or? ==> BinaryType(op, a) == if a == BOOLEAN then Ok(BOOLEAN) else Err(TypeError)
  {
  }

  lemma {:induction false} CallIsTypeOf(e: Expr, scopes: seq<Scope>, st: Statics)
    requires e.Call?
    ensures forall t :: Typed(e, Erase(scopes), st, t) <==> TypeOf(e, scopes, st) == Ok(t)
    decreases e, 0
  {
    hide Sendable, Watchable, Brief, CheckCommandText, CheckPattern, CheckDuration;
    if |e.args| > 0 {
      TypedIsTypeOf(e.args[0], scopes, st);
      StaticChecks(e.args[0], st.limits);
    }
    if |e.args| > 1 {
      TypedIsTypeOf(e.args[1], scopes, st);
      StaticChecks(e.args[1], st.limits);
    }
  }

  // ---------- statements ----------

  /** `n` more declarations are allowed after `used`. */
  predicate Room(used: nat, n: nat, st: Statics) {
    n > 0 ==> used + n <= st.limits.maxVariables
  }

  /** The verdict on a statement is what the rules say, as long as there is room for its declarations. */
  ghost predicate Agrees(s: Statement, ctx: Context, inLoop: bool, st: Statics) {
    var r, env, n := Check(s, ctx, inLoop, st), Erase(ctx.scopes), Lets(s);
    && (r.Ok? ==> Fine(r.value, ctx.variables, n, st) && Admits(s, env, inLoop, st, Erase(r.value.scopes)))
    && forall after :: Admits(s, env, inLoop, st, after) && Room(ctx.variables, n, st) ==>
      r.Ok? && after == Erase(r.value.scopes)
  }

  ghost predicate AgreesOption(s: Option<Statement>, ctx: Context, inLoop: bool, st: Statics) {
    var r, env, n := CheckOption(s, ctx, inLoop, st), Erase(ctx.scopes), LetsOption(s);
    && (r.Ok? ==> Fine(r.value, ctx.variables, n, st) && AdmitsOption(s, env, inLoop, st, Erase(r.value.scopes)))
    && forall after :: AdmitsOption(s, env, inLoop, st, after) && Room(ctx.variables, n, st) ==>
         r.Ok? && after == Erase(r.value.scopes)
  }

  ghost predicate AgreesAll(body: seq<Statement>, ctx: Context, inLoop: bool, st: Statics) {
    var r, env, n := CheckAll(body, ctx, inLoop, st), Erase(ctx.scopes), LetsAll(body);
    && (r.Ok? ==> Fine(r.value, ctx.variables, n, st) && AdmitsAll(body, env, inLoop, st, Erase(r.value.scopes)))
    && forall after :: AdmitsAll(body, env, inLoop, st, after) && Room(ctx.variables, n, st) ==>
         r.Ok? && after == Erase(r.value.scopes)
  }

  predicate Fine(after: Context, used: nat, n: nat, st: Statics) {
    after.scopes != [] && after.variables == used + n && Room(used, n, st)
  }

  lemma ErasePush(ctx: Context)
    ensures Erase(PushScope(ctx).scopes) == Erase(ctx.scopes) + [map[]]
  {
  }

  lemma EraseDeclare(ctx: Context, name: string, kind: Type)
    requires ctx.scopes != []
    ensures Erase(Declare(ctx, name, kind).scopes) == Bind(Erase(ctx.scopes), name, kind)
  {
    var n := |ctx.scopes| - 1;
    var a, b := Erase(Declare(ctx, name, kind).scopes), Bind(Erase(ctx.scopes), name, kind);
    assert forall i | 0 <= i < n :: a[i] == b[i];
    assert a[n] == b[n];
  }

  lemma ConditionTyped(e: Expr, ctx: Context, st: Statics)
    ensures CheckCondition(e, ctx, st).Ok? <==> Typed(e, Erase(ctx.scopes), st, BOOLEAN)
  {
    hide Typed, TypeOf;
    TypedIsTypeOf(e, ctx.scopes, st);
  }

  lemma SimpleAgrees(s: Statement, ctx: Context, inLoop: bool, st: Statics)
    requires ctx.scopes != [] && (s.Let? || s.Assign? || s.Expression? || s.Break? || s.Continue? || s.Empty?)
    ensures Agrees(s, ctx, inLoop, st)
  {
    hide Typed, TypeOf, NameHas, Lookup, Erase;
    match s
    case Let(name, e) =>
      TypedIsTypeOf(e, ctx.scopes, st);
      if TypeOf(e, ctx.scopes, st).Ok? { EraseDeclare(ctx, name, TypeOf(e, ctx.scopes, st).value); }
    case Assign(name, e) =>
      TypedIsTypeOf(e, ctx.scopes, st);
      LookupIsInnermost(ctx.scopes, name);
    case Expression(e) => TypedIsTypeOf(e, ctx.scopes, st);
    case _ =>
  }

  lemma {:induction false} StatementAgrees(s: Statement, ctx: Context, inLoop: bool, st: Statics)
    requires ctx.scopes != []
    ensures Agrees(s, ctx, inLoop, st)
    decreases s, 2
  {
    hide Agrees, AgreesAll;
    match s
    case Block(body) =>
      AllAgrees(body, PushScope(ctx), inLoop, st);
      BlockAgrees(body, ctx, inLoop, st);
    case If(_, _, _) => IfAgrees(s, ctx, inLoop, st);
    case While(test, body) =>
      StatementAgrees(body, ctx, true, st);
      WhileAgrees(test, body, ctx, inLoop, st);
    case For(_, _, _, _) => ForAgrees(s, ctx, inLoop, st);
    case _ => SimpleAgrees(s, ctx, inLoop, st);
  }

  lemma {:induction false} OptionAgrees(s: Option<Statement>, ctx: Context, inLoop: bool, st: Statics)
    requires ctx.scopes != []
    ensures AgreesOption(s, ctx, inLoop, st)
    decreases s, 0
  {
    if s.Some? { StatementAgrees(s.value, ctx, inLoop, st); }
  }

  lemma {:induction false} AllAgrees(body: seq<Statement>, ctx: Context, inLoop: bool, st: Statics)
    requires ctx.scopes != []
    ensures AgreesAll(body, ctx, inLoop, st)
    decreases body, 0
  {
    if body == [] {
      NothingAgrees(ctx, inLoop, st);
    } else {
      hide Agrees, AgreesAll, Check;
      StatementAgrees(body[0], ctx, inLoop, st);
      var r := Check(body[0], ctx, inLoop, st);
      if r.Ok? {
        AgreesFine(body[0], ctx, inLoop, st);
        AllAgrees(body[1..], r.value, inLoop, st);
      }
      SequenceAgrees(body, ctx, inLoop, st);
    }
  }

  lemma AgreesFine(s: Statement, ctx: Context, inLoop: bool, st: Statics)
    requires Agrees(s, ctx, inLoop, st) && Check(s, ctx, inLoop, st).Ok?
    ensures Fine(Check(s, ctx, inLoop, st).value, ctx.variables, Lets(s), st)
  {
    hide Check, Lets, Admits;
  }

  lemma NothingAgrees(ctx: Context, inLoop: bool, st: Statics)
    requires ctx.scopes != []
    ensures AgreesAll([], ctx, inLoop, st)
  {
  }

  lemma SequenceTaken(body: seq<Statement>, env: Env, inLoop: bool, st: Statics, after: Env) returns (mid: Env)
    requires body != [] && AdmitsAll(body, env, inLoop, st, after)
    ensures Admits(body[0], env, inLoop, st, mid) && AdmitsAll(body[1..], mid, inLoop, st, after)
  {
    mid :| Admits(body[0], env, inLoop, st, mid) && AdmitsAll(body[1..], mid, inLoop, st, after);
  }

  lemma SequenceGiven(body: seq<Statement>, env: Env, inLoop: bool, st: Statics, mid: Env, after: Env)
    requires body != [] && Admits(body[0], env, inLoop, st, mid) && AdmitsAll(body[1..], mid, inLoop, st, after)
    ensures AdmitsAll(body, env, inLoop, st, after)
  {
  }

  lemma SequenceAgrees(body: seq<Statement>, ctx: Context, inLoop: bool, st: Statics)
    requires body != [] && ctx.scopes != [] && Agrees(body[0], ctx, inLoop, st)
    requires var r := Check(body[0], ctx, inLoop, st); r.Ok? ==> AgreesAll(body[1..], r.value, inLoop, st)
    ensures AgreesAll(body, ctx, inLoop, st)
  {
    hide Admits, AdmitsAll, Check, Lets, Erase;
    var s, rest, env, n := body[0], body[1..], Erase(ctx.scopes), LetsAll(body);
    var r, whole := Check(s, ctx, inLoop, st), CheckAll(body, ctx, inLoop, st);
    if whole.Ok? { SequenceGiven(body, env, inLoop, st, Erase(r.value.scopes), Erase(whole.value.scopes)); }
    forall after | AdmitsAll(body, env, inLoop, st, after) && Room(ctx.variables, n, st)
      ensures whole.Ok? && after == Erase(whole.value.scopes)
    {
      var mid := SequenceTaken(body, env, inLoop, st, after);
      assert Room(ctx.variables, Lets(s), st);
      assert r.Ok? && mid == Erase(r.value.scopes) && Room(r.value.variables, LetsAll(rest), st);
    }
  }

  lemma BlockAgrees(body: seq<Statement>, ctx: Context, inLoop: bool, st: Statics)
    requires ctx.scopes != [] && AgreesAll(body, PushScope(ctx), inLoop, st)
    ensures Agrees(Block(body), ctx, inLoop, st)
  {
    hide Admits, AdmitsAll, CheckAll, LetsAll, Erase;
    ErasePush(ctx);
    var env, n, inner := Erase(ctx.scopes), LetsAll(body), CheckAll(body, PushScope(ctx), inLoop, st);
    if inner.Ok? {
      CheckAllDepth(body, PushScope(ctx), inLoop, st);
      assert PopScope(inner.value).scopes == ctx.scopes;
      BlockGiven(body, env, inLoop, st, Erase(inner.value.scopes));
    }
    assert Lets(Block(body)) == n;
    forall after | Admits(Block(body), env, inLoop, st, after) && Room(ctx.variables, n, st)
      ensures inner.Ok? && after == env
    {
      var within := BlockTaken(body, env, inLoop, st, after);
    }
  }

  lemma BlockTaken(body: seq<Statement>, env: Env, inLoop: bool, st: Statics, after: Env) returns (inner: Env)
    requires Admits(Block(body), env, inLoop, st, after)
    ensures AdmitsAll(body, env + [map[]], inLoop, st, inner) && after == env
  {
    inner :| AdmitsAll(body, env + [map[]], inLoop, st, inner);
  }

  lemma BlockGiven(body: seq<Statement>, env: Env, inLoop: bool, st: Statics, inner: Env)
    requires AdmitsAll(body, env + [map[]], inLoop, st, inner)
    ensures Admits(Block(body), env, inLoop, st, env)
  {
  }

  lemma WhileAgrees(test: Expr, body: Statement, ctx: Context, inLoop: bool, st: Statics)
    requires ctx.scopes != [] && Agrees(body, ctx, true, st)
    ensures Agrees(While(test, body), ctx, inLoop, st)
  {
    hide Typed, CheckCondition, Erase;
    ConditionTyped(test, ctx, st);
    var s, env := While(test, body), Erase(ctx.scopes);
    assert Lets(s) == Lets(body);
    assert Check(s, ctx, inLoop, st) == match CheckCondition(test, ctx, st) { case Err(code) => Err(code) case Ok(_) =>
             Check(body, ctx, true, st) };
    forall after ensures Admits(s, env, inLoop, st, after) <==>
      Typed(test, env, st, BOOLEAN) && Admits(body, env, true, st, after) {
    }
  }

  lemma {:induction false} IfAgrees(s: Statement, ctx: Context, inLoop: bool, st: Statics)
    requires s.If? && ctx.scopes != []
    ensures Agrees(s, ctx, inLoop, st)
    decreases s, 1
  {
    hide Agrees, AgreesOption, Check;
    StatementAgrees(s.thenBranch, ctx, inLoop, st);
    var r := Check(s.thenBranch, ctx, inLoop, st);
    if r.Ok? {
      AgreesFine(s.thenBranch, ctx, inLoop, st);
      OptionAgrees(s.elseBranch, r.value, inLoop, st);
    }
    BranchesAgree(s, ctx, inLoop, st);
  }

  lemma BranchesAgree(s: Statement, ctx: Context, inLoop: bool, st: Statics)
    requires s.If? && ctx.scopes != [] && Agrees(s.thenBranch, ctx, inLoop, st)
    requires var r := Check(s.thenBranch, ctx, inLoop, st); r.Ok? ==> AgreesOption(s.elseBranch, r.value, inLoop, st)
    ensures Agrees(s, ctx, inLoop, st)
  {
    hide Typed, CheckCondition, Erase, Check, CheckOption, AdmitsOption, Lets, LetsOption, Admits;
    ConditionTyped(s.cond, ctx, st);
    IfUnfolds(s, ctx, inLoop, st);
    var a, b, env, n := s.thenBranch, s.elseBranch, Erase(ctx.scopes), Lets(s);
    var r, whole := Check(a, ctx, inLoop, st), Check(s, ctx, inLoop, st);
    if whole.Ok? { IfGiven(s, env, inLoop, st, Erase(r.value.scopes), Erase(whole.value.scopes)); }
    forall after | Admits(s, env, inLoop, st, after) && Room(ctx.variables, n, st)
      ensures whole.Ok? && after == Erase(whole.value.scopes)
    {
      var mid := IfTaken(s, env, inLoop, st, after);
      assert Room(ctx.variables, Lets(a), st);
      assert r.Ok? && mid == Erase(r.value.scopes) && Room(r.value.variables, LetsOption(b), st);
    }
  }

  lemma IfUnfolds(s: Statement, ctx: Context, inLoop: bool, st: Statics)
    requires s.If?
    ensures Lets(s) == Lets(s.thenBranch) + LetsOption(s.elseBranch)
    ensures var r := Check(s.thenBranch, ctx, inLoop, st);
            Check(s, ctx, inLoop, st) == if CheckCondition(s.cond, ctx, st).Err? then
              Err(CheckCondition(s.cond, ctx, st).code)
                                         else if r.Err? then r else CheckOption(s.elseBranch, r.value, inLoop, st)
  {
    hide CheckCondition;
  }

  lemma IfTaken(s: Statement, env: Env, inLoop: bool, st: Statics, after: Env) returns (mid: Env)
    requires s.If? && Admits(s, env, inLoop, st, after)
    ensures Typed(s.cond, env, st, BOOLEAN)
    ensures Admits(s.thenBranch, env, inLoop, st, mid) && AdmitsOption(s.elseBranch, mid, inLoop, st, after)
  {
    mid :| Admits(s.thenBranch, env, inLoop, st, mid) && AdmitsOption(s.elseBranch, mid, inLoop, st, after);
  }

  lemma IfGiven(s: Statement, env: Env, inLoop: bool, st: Statics, mid: Env, after: Env)
    requires s.If? && Typed(s.cond, env, st, BOOLEAN)
    requires Admits(s.thenBranch, env, inLoop, st, mid) && AdmitsOption(s.elseBranch, mid, inLoop, st, after)
    ensures Admits(s, env, inLoop, st, after)
  {
  }

  lemma {:induction false} ForAgrees(s: Statement, ctx: Context, inLoop: bool, st: Statics)
    requires s.For? && ctx.scopes != []
    ensures Agrees(s, ctx, inLoop, st)
    decreases s, 1
  {
    hide Agrees, AgreesOption, Check, CheckOption;
    OptionAgrees(s.start, PushScope(ctx), inLoop, st);
    var start := CheckOption(s.start, PushScope(ctx), inLoop, st);
    if start.Ok? {
      OptionFine(s.start, PushScope(ctx), inLoop, st);
      StatementAgrees(s.forBody, start.value, true, st);
      var body := Check(s.forBody, start.value, true, st);
      if body.Ok? {
        AgreesFine(s.forBody, start.value, true, st);
        OptionAgrees(s.step, body.value, true, st);
      }
    }
    ForPartsAgree(s, ctx, inLoop, st);
  }

  lemma OptionFine(s: Option<Statement>, ctx: Context, inLoop: bool, st: Statics)
    requires AgreesOption(s, ctx, inLoop, st) && CheckOption(s, ctx, inLoop, st).Ok?
    ensures Fine(CheckOption(s, ctx, inLoop, st).value, ctx.variables, LetsOption(s), st)
  {
    hide CheckOption, LetsOption, AdmitsOption;
  }

  /** The parts of a `for` are accepted. */
  ghost predicate ForAdmits(s: Statement, env: Env, inLoop: bool, st: Statics, head: Env, mid: Env, end: Env)
    requires s.For?
  {
    && AdmitsOption(s.start, env + [map[]], inLoop, st, head)
    && (s.bound.Some? ==> Typed(s.bound.value, head, st, BOOLEAN))
    && Admits(s.forBody, head, true, st, mid) && AdmitsOption(s.step, mid, true, st, end)
  }

  lemma ForTaken(s: Statement, env: Env, inLoop: bool, st: Statics, after: Env) returns (head: Env, mid: Env, end: Env)
    requires s.For? && Admits(s, env, inLoop, st, after)
    ensures after == env && !(s.step.Some? && s.step.value.Let?) && ForAdmits(s, env, inLoop, st, head, mid, end)
  {
    head, mid, end :|
      && AdmitsOption(s.start, env + [map[]], inLoop, st, head)
      && (s.bound.Some? ==> Typed(s.bound.value, head, st, BOOLEAN))
      && Admits(s.forBody, head, true, st, mid) && AdmitsOption(s.step, mid, true, st, end);
  }

  lemma ForGiven(s: Statement, env: Env, inLoop: bool, st: Statics, head: Env, mid: Env, end: Env)
    requires s.For? && !(s.step.Some? && s.step.value.Let?) && ForAdmits(s, env, inLoop, st, head, mid, end)
    ensures Admits(s, env, inLoop, st, env)
  {
  }

  lemma ForLets(s: Statement)
    requires s.For?
    ensures Lets(s) == LetsOption(s.start) + Lets(s.forBody) + LetsOption(s.step)
  {
  }

  lemma ForPartsAgree(s: Statement, ctx: Context, inLoop: bool, st: Statics)
    requires s.For? && ctx.scopes != [] && AgreesOption(s.start, PushScope(ctx), inLoop, st)
    requires var start := CheckOption(s.start, PushScope(ctx), inLoop, st);
             start.Ok? ==>
               && Agrees(s.forBody, start.value, true, st)
               && var body := Check(s.forBody, start.value, true, st);
                  body.Ok? ==> AgreesOption(s.step, body.value, true, st)
    ensures Agrees(s, ctx, inLoop, st)
  {
    hide Typed, CheckCondition, Erase, Check, CheckOption, AdmitsOption, Lets, LetsOption, Admits;
    ErasePush(ctx);
    ForVerdict(s, ctx, inLoop, st);
    ForLets(s);
    var env, n, whole := Erase(ctx.scopes), Lets(s), Check(s, ctx, inLoop, st);
    var start := CheckOption(s.start, PushScope(ctx), inLoop, st);
    if start.Ok? && s.bound.Some? { ConditionTyped(s.bound.value, start.value, st); }
    if whole.Ok? {
      var body := Check(s.forBody, start.value, true, st);
      var step := CheckOption(s.step, body.value, true, st);
      ForKeepsScopes(s, ctx, inLoop, st);
      ForGiven(s, env, inLoop, st, Erase(start.value.scopes), Erase(body.value.scopes), Erase(step.value.scopes));
    }
    forall after | Admits(s, env, inLoop, st, after) && Room(ctx.variables, n, st)
      ensures whole.Ok? && after == Erase(whole.value.scopes)
    {
      var head, mid, end := ForTaken(s, env, inLoop, st, after);
      assert Room(ctx.variables, LetsOption(s.start), st);
      assert start.Ok? && head == Erase(start.value.scopes);
      var body := Check(s.forBody, start.value, true, st);
      assert Room(start.value.variables, Lets(s.forBody), st);
      assert body.Ok? && mid == Erase(body.value.scopes);
      assert Room(body.value.variables, LetsOption(s.step), st);
      ForKeepsScopes(s, ctx, inLoop, st);
    }
  }

  lemma ForKeepsScopes(s: Statement, ctx: Context, inLoop: bool, st: Statics)
    requires s.For? && Check(s, ctx, inLoop, st).Ok? && ctx.scopes != []
    ensures Check(s, ctx, inLoop, st).value.scopes == ctx.scopes
  {
    hide CheckCondition;
    var inner := PushScope(ctx);
    if s.start.Some? { CheckDepth(s.start.value, inner, inLoop, st); }
    var head := CheckOption(s.start, inner, inLoop, st).value;
    CheckDepth(s.forBody, head, true, st);
    if s.step.Some? { CheckDepth(s.step.value, Check(s.forBody, head, true, st).value, true, st); }
  }

  // ---------- programs ----------

  /** A program is well typed: the rules admit it at the top level, outside any loop. */
  ghost predicate WellTyped(program: seq<Statement>, st: Statics) {
    exists after :: AdmitsAll(program, [map[]], false, st, after)
  }

  /** The compiler accepts exactly the well typed programs that declare no more variables than allowed. */
  lemma AcceptsWellTyped(program: seq<Statement>, st: Statics)
    ensures CodeOf(program, st).Ok? <==> WellTyped(program, st) && LetsAll(program) <= st.limits.maxVariables
    ensures CodeOf(program, st).Ok? ==> CodeOf(program, st).value.variables == LetsAll(program)
  {
    hide CheckAll, AdmitsAll, GenAll, LetsAll;
    AllAgrees(program, OUTERMOST, false, st);
    assert Erase(OUTERMOST.scopes) == [map[]];
    var r := CheckAll(program, OUTERMOST, false, st);
    if r.Ok? { assert AdmitsAll(program, [map[]], false, st, Erase(r.value.scopes)); }
  }
}
