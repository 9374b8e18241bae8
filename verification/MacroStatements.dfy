/** Compilation preserves meaning, for statements, loops and whole programs. */
module MacroStatements {
  import opened Wrappers
  import opened MacroCore
  import opened MacroSemantics
  import opened MacroMachine
  import opened MacroCompile
  import opened MacroPreservation

  // ---------- contexts ----------

  /** Every variable in scope has a slot of its own, below the next free one. */
  ghost predicate Separate(scopes: seq<Scope>, limit: nat) {
    && (forall i, a | 0 <= i < |scopes| && a in scopes[i] :: scopes[i][a].index < limit)
    && (forall i, a, j, b | 0 <= i < |scopes| && 0 <= j < |scopes| && a in scopes[i] && b in scopes[j]
        && (i != j || a != b)
          :: scopes[i][a].index != scopes[j][b].index)
  }

  ghost predicate Scoped(ctx: Context) {
    ctx.scopes != [] && Separate(ctx.scopes, ctx.variables)
  }

  function Outer<T>(levels: seq<T>): seq<T>
    requires levels != []
  {
    levels[..|levels| - 1]
  }

  lemma DeclareScoped(ctx: Context, name: string, kind: Type)
    requires Scoped(ctx)
    ensures Scoped(Declare(ctx, name, kind))
    ensures |Declare(ctx, name, kind).scopes| == |ctx.scopes|
            && Outer(Declare(ctx, name, kind).scopes) == Outer(ctx.scopes)
  {
  }

  lemma PushScoped(ctx: Context)
    requires Scoped(ctx)
    ensures Scoped(PushScope(ctx)) && Outer(PushScope(ctx).scopes) == ctx.scopes
  {
  }

  lemma OuterSeparate(scopes: seq<Scope>, limit: nat, higher: nat)
    requires scopes != [] && Separate(scopes, limit) && limit <= higher
    ensures Separate(Outer(scopes), higher)
  {
  }

  /** What a statement does to the context: it may declare names in the innermost scope. */
  ghost predicate Extends(before: Context, after: Context) {
    && Scoped(after)
    && |after.scopes| == |before.scopes| && before.scopes != []
    && Outer(after.scopes) == Outer(before.scopes)
    && before.variables <= after.variables
  }

  /** Being inside a loop only allows more. */
  lemma {:induction false} LoopIrrelevant(s: Statement, ctx: Context, inLoop: bool, st: Statics)
    requires Check(s, ctx, inLoop, st).Ok?
    ensures Check(s, ctx, true, st) == Check(s, ctx, inLoop, st)
    decreases s, 1
  {
    match s
    case Block(body) => LoopIrrelevantAll(body, PushScope(ctx), inLoop, st);
    case If(_, a, b) =>
      LoopIrrelevant(a, ctx, inLoop, st);
      if b.Some? { LoopIrrelevant(b.value, Check(a, ctx, inLoop, st).value, inLoop, st); }
    case For(start, _, _, _) =>
      if start.Some? { LoopIrrelevant(start.value, PushScope(ctx), inLoop, st); }
    case _ =>
  }

  lemma {:induction false} LoopIrrelevantAll(body: seq<Statement>, ctx: Context, inLoop: bool, st: Statics)
    requires CheckAll(body, ctx, inLoop, st).Ok?
    ensures CheckAll(body, ctx, true, st) == CheckAll(body, ctx, inLoop, st)
    decreases body, 0
  {
    if body != [] {
      LoopIrrelevant(body[0], ctx, inLoop, st);
      LoopIrrelevantAll(body[1..], Check(body[0], ctx, inLoop, st).value, inLoop, st);
    }
  }

  lemma PopExtends(ctx: Context, inner: Context)
    requires Scoped(ctx) && Extends(PushScope(ctx), inner)
    ensures Extends(ctx, PopScope(inner)) && PopScope(inner).scopes == ctx.scopes
  {
    assert PopScope(inner).scopes == Outer(inner.scopes) == ctx.scopes;
    OuterSeparate(inner.scopes, inner.variables, inner.variables);
  }

  lemma {:induction false} CheckExtends(s: Statement, ctx: Context, inLoop: bool, st: Statics)
    requires Scoped(ctx) && Braced(s) && Check(s, ctx, inLoop, st).Ok?
    ensures Extends(ctx, Check(s, ctx, inLoop, st).value)
    ensures !s.Let? ==> Check(s, ctx, inLoop, st).value.scopes == ctx.scopes
    decreases s, 1
  {
    hide Separate, TypeOf;
    match s
    case Let(name, e) =>
      DeclareScoped(ctx, name, TypeOf(e, ctx.scopes, st).value);
    case Block(body) =>
      PushScoped(ctx);
      CheckAllExtends(body, PushScope(ctx), inLoop, st);
      PopExtends(ctx, CheckAll(body, PushScope(ctx), inLoop, st).value);
    case If(_, a, b) =>
      CheckExtends(a, ctx, inLoop, st);
      CheckOptionExtends(b, Check(a, ctx, inLoop, st).value, inLoop, st);
    case While(_, body) =>
      CheckExtends(body, ctx, true, st);
    case For(start, bound, step, body) =>
      PushScoped(ctx);
      CheckOptionExtends(start, PushScope(ctx), inLoop, st);
      var ctx1 := CheckOption(start, PushScope(ctx), inLoop, st).value;
      CheckExtends(body, ctx1, true, st);
      var ctx2 := Check(body, ctx1, true, st).value;
      CheckOptionExtends(step, ctx2, true, st);
      PopExtends(ctx, CheckOption(step, ctx2, true, st).value);
    case _ =>
  }

  lemma {:induction false} CheckOptionExtends(s: Option<Statement>, ctx: Context, inLoop: bool, st: Statics)
    requires Scoped(ctx) && BracedOption(s) && CheckOption(s, ctx, inLoop, st).Ok?
    ensures Extends(ctx, CheckOption(s, ctx, inLoop, st).value)
    ensures (s.Some? ==> !s.value.Let?) ==> CheckOption(s, ctx, inLoop, st).value.scopes == ctx.scopes
    decreases s, 0
  {
    if s.Some? { CheckExtends(s.value, ctx, inLoop, st); }
  }

  lemma {:induction false} CheckAllExtends(body: seq<Statement>, ctx: Context, inLoop: bool, st: Statics)
    requires Scoped(ctx) && BracedAll(body) && CheckAll(body, ctx, inLoop, st).Ok?
    ensures Extends(ctx, CheckAll(body, ctx, inLoop, st).value)
    decreases body, 0
  {
    if body != [] {
      CheckExtends(body[0], ctx, inLoop, st);
      CheckAllExtends(body[1..], Check(body[0], ctx, inLoop, st).value, inLoop, st);
    }
  }

  // ---------- stores ----------

  lemma StoreDeclares(ctx: Context, frames: seq<Frame>, slots: Slots, name: string, kind: Type, v: RuntimeValue)
    requires Scoped(ctx) && Agree(ctx.scopes, frames, slots) && ctx.variables < |slots| && !kind.VoidType?
    ensures Agree(Declare(ctx, name, kind).scopes, Declared(frames, name, v), slots[ctx.variables := Some(v)])
  {
    var n := |ctx.scopes| - 1;
    var scopes1, frames1, slots1 := Declare(ctx, name, kind).scopes, Declared(frames, name, v),
        slots[ctx.variables := Some(v)];
    forall i | 0 <= i < |scopes1|
      ensures LevelAgrees(scopes1[i], frames1[i], slots1)
    {
      assert LevelAgrees(ctx.scopes[i], frames[i], slots);
    }
  }

  /** The level that holds the innermost declaration of `name`. */
  function LevelOf<V>(levels: seq<map<string, V>>, name: string): (k: nat)
    requires Lookup(levels, name).Some?
    ensures k < |levels| && name in levels[k] && levels[k][name] == Lookup(levels, name).value
    decreases |levels|
  {
    if name in levels[|levels| - 1] then |levels| - 1 else LevelOf(Outer(levels), name)
  }

  lemma {:induction false} SameLevel(scopes: seq<Scope>, frames: seq<Frame>, slots: Slots, name: string,
                                     v: RuntimeValue)
    requires Agree(scopes, frames, slots) && Lookup(scopes, name).Some?
    ensures var k := LevelOf(scopes, name);
            name in frames[k] && Assigned(frames, name, v) == frames[k := frames[k][name := v]]
    decreases |scopes|
  {
    var n := |scopes| - 1;
    assert LevelAgrees(scopes[n], frames[n], slots);
    if name !in scopes[n] {
      OuterAgrees(scopes, frames, slots);
      SameLevel(Outer(scopes), Outer(frames), slots, name, v);
      hide Agree;
      var k := LevelOf(Outer(scopes), name);
      var frame := frames[k][name := v];
      assert Outer(frames)[k := frame] + [frames[n]] == frames[k := frame];
    }
  }

  lemma StoreAssigns(scopes: seq<Scope>, limit: nat, frames: seq<Frame>, slots: Slots, name: string, v: RuntimeValue)
    requires Separate(scopes, limit) && Agree(scopes, frames, slots) && Lookup(scopes, name).Some?
    ensures SlotOf(name, scopes) < |slots|
    ensures Agree(scopes, Assigned(frames, name, v), slots[SlotOf(name, scopes) := Some(v)])
  {
    LookupAgrees(scopes, frames, slots, name);
    SameLevel(scopes, frames, slots, name, v);
    var k := LevelOf(scopes, name);
    var frames1, slots1 := Assigned(frames, name, v), slots[SlotOf(name, scopes) := Some(v)];
    forall i | 0 <= i < |scopes|
      ensures LevelAgrees(scopes[i], frames1[i], slots1)
    {
      assert LevelAgrees(scopes[i], frames[i], slots);
    }
  }

  lemma OuterAgrees(scopes: seq<Scope>, frames: seq<Frame>, slots: Slots)
    requires scopes != [] && Agree(scopes, frames, slots)
    ensures Agree(Outer(scopes), Outer(frames), slots)
  {
    forall i | 0 <= i < |scopes| - 1
      ensures LevelAgrees(Outer(scopes)[i], Outer(frames)[i], slots)
    {
      assert LevelAgrees(scopes[i], frames[i], slots);
    }
  }

  lemma PushAgrees(scopes: seq<Scope>, frames: seq<Frame>, slots: Slots)
    requires Agree(scopes, frames, slots)
    ensures Agree(scopes + [map[]], frames + [map[]], slots)
  {
    forall i | 0 <= i < |scopes| + 1
      ensures LevelAgrees((scopes + [map[]])[i], (frames + [map[]])[i], slots)
    {
      if i < |scopes| { assert LevelAgrees(scopes[i], frames[i], slots); }
    }
  }
}
