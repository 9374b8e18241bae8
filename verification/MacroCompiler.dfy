/** The one-pass compiler of crates/serial-macro/src/compiler.rs as the object it is: it emits
    jumps with no target, remembers them, and patches them in place when a loop ends. */
module MacroCompiler {
  import opened Wrappers
  import opened MacroCore
  import opened MacroSemantics
  import opened MacroMachine
  import opened MacroCompile
  import opened MacroPreservation
  import opened MacroStatements

  /** Jumps of the innermost loop that still need a target. */
  datatype LoopRecord = LoopRecord(breaks: seq<nat>, continues: seq<nat>)

  // ---------- where the open jumps of a statement are ----------

  /** Addresses of the `break` jumps (or the `continue` jumps) of `s` that leave `s`. */
  function Open(s: Statement, at: nat, isBreak: bool): seq<nat>
    decreases s, 1
  {
    match s
    case Block(body) => OpenAll(body, at, isBreak)
    case If(cond, a, b) =>
      var thenAt := at + SizeOf(cond) + 1;
      Open(a, thenAt, isBreak) + OpenOption(b, thenAt + SizeOfStatement(a) + 1, isBreak)
    case For(start, _, _, _) => OpenOption(start, at, isBreak)
    case Break => if isBreak then [at] else []
    case Continue => if isBreak then [] else [at]
    case _ => []
  }

  function OpenOption(s: Option<Statement>, at: nat, isBreak: bool): seq<nat>
    decreases s, 0
  {
    match s
    case None => []
    case Some(inner) => Open(inner, at, isBreak)
  }

  function OpenAll(body: seq<Statement>, at: nat, isBreak: bool): seq<nat>
    decreases body, 0
  {
    if body == [] then [] else Open(body[0], at, isBreak) + OpenAll(body[1..], at + SizeOfStatement(body[0]), isBreak)
  }

  /** Addresses of the jumps a loop must patch when it ends. */
  function LoopOpen(s: Statement, at: nat, isBreak: bool): seq<nat>
    requires s.While? || s.For?
  {
    Open(LoopBody(s), BodyAt(s, at), isBreak) + OpenOption(LoopStep(s), StepAt(s, at), isBreak)
  }

  ghost predicate Within(positions: seq<nat>, lo: nat, hi: nat) {
    forall i | 0 <= i < |positions| :: lo <= positions[i] < hi
  }

  lemma {:induction false} OpenWithin(s: Statement, at: nat, isBreak: bool)
    ensures Within(Open(s, at, isBreak), at, at + SizeOfStatement(s))
    decreases s, 1
  {
    match s
    case Block(body) => OpenAllWithin(body, at, isBreak);
    case If(cond, a, b) =>
      var thenAt := at + SizeOf(cond) + 1;
      OpenWithin(a, thenAt, isBreak);
      if b.Some? { OpenWithin(b.value, thenAt + SizeOfStatement(a) + 1, isBreak); }
    case For(start, _, _, _) => if start.Some? { OpenWithin(start.value, at, isBreak); }
    case _ =>
  }

  lemma {:induction false} OpenAllWithin(body: seq<Statement>, at: nat, isBreak: bool)
    ensures Within(OpenAll(body, at, isBreak), at, at + SizeOfAll(body))
    decreases body, 0
  {
    if body != [] {
      OpenWithin(body[0], at, isBreak);
      OpenAllWithin(body[1..], at + SizeOfStatement(body[0]), isBreak);
    }
  }

  // ---------- resolving open jumps ----------

  /** `part`, placed at `at`, with its open jumps given their targets. */
  function Resolve(part: seq<Op>, at: nat, breaks: seq<nat>, continues: seq<nat>, exits: Exits): (code: seq<Op>)
    ensures |code| == |part|
  {
    seq(|part|, k requires 0 <= k < |part| =>
      if at + k in continues then Jump(exits.continueTo)
      else if at + k in breaks then Jump(exits.breakTo)
      else part[k])
  }

  lemma ResolveConcat(a: seq<Op>, b: seq<Op>, at: nat, breaksA: seq<nat>, breaksB: seq<nat>,
                      continuesA: seq<nat>, continuesB: seq<nat>, exits: Exits)
    requires Within(breaksA, at, at + |a|) && Within(continuesA, at, at + |a|)
    requires Within(breaksB, at + |a|, at + |a| + |b|) && Within(continuesB, at + |a|, at + |a| + |b|)
    ensures Resolve(a + b, at, breaksA + breaksB, continuesA + continuesB, exits)
         == Resolve(a, at, breaksA, continuesA, exits) + Resolve(b, at + |a|, breaksB, continuesB, exits)
  {
    var left := Resolve(a + b, at, breaksA + breaksB, continuesA + continuesB, exits);
    var right := Resolve(a, at, breaksA, continuesA, exits) + Resolve(b, at + |a|, breaksB, continuesB, exits);
    forall k | 0 <= k < |a + b|
      ensures left[k] == right[k]
    {
      if k < |a| {
        assert at + k in continuesA + continuesB <==> at + k in continuesA;
        assert at + k in breaksA + breaksB <==> at + k in breaksA;
      } else {
        assert at + |a| + (k - |a|) == at + k;
        assert at + k in continuesA + continuesB <==> at + k in continuesB;
        assert at + k in breaksA + breaksB <==> at + k in breaksB;
      }
    }
  }

  lemma ResolveNothing(part: seq<Op>, at: nat, exits: Exits)
    ensures Resolve(part, at, [], [], exits) == part
  {
  }

  /** Code generated with its exits known is code generated without them and then resolved. */
  lemma {:induction false} GenResolves(s: Statement, ctx: Context, at: nat, exits: Exits, st: Statics)
    ensures GenStatement(s, ctx, at, exits, st)
         == Resolve(GenStatement(s, ctx, at, NO_EXITS, st), at, Open(s, at, true), Open(s, at, false), exits)
    decreases s, 3
  {
    hide Gen, Next, Resolve, GenLoop;
    match s
    case Block(body) => GenAllResolves(body, PushScope(ctx), at, exits, st);
    case If(_, _, _) => IfResolves(s, ctx, at, exits, st);
    case For(start, _, _, _) => ForResolves(s, ctx, at, exits, st);
    case Break => JumpResolves(at, true, exits);
    case Continue => JumpResolves(at, false, exits);
    case _ => ResolveNothing(GenStatement(s, ctx, at, NO_EXITS, st), at, exits);
  }

  lemma JumpResolves(at: nat, isBreak: bool, exits: Exits)
    ensures Resolve([Jump(0)], at, if isBreak then [at] else [], if isBreak then [] else [at], exits)
         == [Jump(if isBreak then exits.breakTo else exits.continueTo)]
  {
  }

  lemma {:induction false} GenAllResolves(body: seq<Statement>, ctx: Context, at: nat, exits: Exits, st: Statics)
    ensures GenAll(body, ctx, at, exits, st)
         == Resolve(GenAll(body, ctx, at, NO_EXITS, st), at, OpenAll(body, at, true), OpenAll(body, at, false), exits)
    decreases body, 0
  {
    hide GenStatement, Next, Resolve, SizeOfStatement, Open;
    if body == [] {
      ResolveNothing([], at, exits);
    } else {
      var s, rest, ctx1, restAt := body[0], body[1..], Next(body[0], ctx, st), at + SizeOfStatement(body[0]);
      GenResolves(s, ctx, at, exits, st);
      GenAllResolves(rest, ctx1, restAt, exits, st);
      OpenWithin(s, at, true);
      OpenWithin(s, at, false);
      OpenAllWithin(rest, restAt, true);
      OpenAllWithin(rest, restAt, false);
      ResolveConcat(GenStatement(s, ctx, at, NO_EXITS, st), GenAll(rest, ctx1, restAt, NO_EXITS, st), at,
                    Open(s, at, true), OpenAll(rest, restAt, true), Open(s, at, false), OpenAll(rest, restAt, false),
                        exits);
    }
  }

  lemma {:induction false} OptionResolves(s: Option<Statement>, ctx: Context, at: nat, exits: Exits, st: Statics)
    ensures GenOption(s, ctx, at, exits, st)
         == Resolve(GenOption(s, ctx, at, NO_EXITS, st), at, OpenOption(s, at, true), OpenOption(s, at, false), exits)
    ensures Within(OpenOption(s, at, true), at, at + SizeOfOption(s))
    ensures Within(OpenOption(s, at, false), at, at + SizeOfOption(s))
    decreases s, 2
  {
    hide GenStatement, Resolve, SizeOfStatement, Open;
    if s.None? {
      ResolveNothing([], at, exits);
    } else {
      GenResolves(s.value, ctx, at, exits, st);
      OpenWithin(s.value, at, true);
      OpenWithin(s.value, at, false);
    }
  }

  lemma ForUnfolds(s: Statement, ctx: Context, at: nat, exits: Exits, st: Statics)
    requires s.For?
    ensures GenStatement(s, ctx, at, exits, st)
         == GenOption(s.start, PushScope(ctx), at, exits, st)
            + GenLoop(s, NextOption(s.start, PushScope(ctx), st), at + SizeOfOption(s.start), st)
    ensures forall isBreak :: Open(s, at, isBreak) == OpenOption(s.start, at, isBreak)
  {
    hide GenLoop, GenOption, NextOption, SizeOfOption;
  }

  lemma {:induction false} ForResolves(s: Statement, ctx: Context, at: nat, exits: Exits, st: Statics)
    requires s.For?
    ensures GenStatement(s, ctx, at, exits, st)
         == Resolve(GenStatement(s, ctx, at, NO_EXITS, st), at, Open(s, at, true), Open(s, at, false), exits)
    decreases s, 2
  {
    hide GenStatement, GenOption, NextOption, Resolve, GenLoop, Open, OpenOption, Within, SizeOfOption;
    var inner, loopAt := PushScope(ctx), at + SizeOfOption(s.start);
    var loop := GenLoop(s, NextOption(s.start, inner, st), loopAt, st);
    ForUnfolds(s, ctx, at, exits, st);
    ForUnfolds(s, ctx, at, NO_EXITS, st);
    ResolveNothing(loop, loopAt, exits);
    OptionResolves(s.start, inner, at, exits, st);
    var breaks, continues := OpenOption(s.start, at, true), OpenOption(s.start, at, false);
    NothingWithin(loopAt, loopAt + |loop|);
    ResolveConcat(GenOption(s.start, inner, at, NO_EXITS, st), loop, at, breaks, [], continues, [], exits);
    assert breaks + [] == breaks && continues + [] == continues;
  }

  lemma NothingWithin(lo: nat, hi: nat)
    ensures Within([], lo, hi)
  {
  }

  /** The parts of the code of an `if`. */
  function IfHead(s: Statement, ctx: Context, at: nat): seq<Op>
    requires s.If?
  {
    var end := at + SizeOf(s.cond) + 1 + SizeOfStatement(s.thenBranch);
    Gen(s.cond, ctx.scopes, at) + [JumpIfFalse(if s.elseBranch.None? then end else end + 1)]
  }

  function IfJoin(s: Statement, at: nat): seq<Op>
    requires s.If?
  {
    var end := at + SizeOf(s.cond) + 1 + SizeOfStatement(s.thenBranch);
    if s.elseBranch.None? then [] else [Jump(end + 1 + SizeOfOption(s.elseBranch))]
  }

  lemma IfUnfolds(s: Statement, ctx: Context, at: nat, exits: Exits, st: Statics)
    requires s.If?
    ensures var thenAt := at + SizeOf(s.cond) + 1;
            var elseAt := thenAt + SizeOfStatement(s.thenBranch) + 1;
            && GenStatement(s, ctx, at, exits, st)
               == IfHead(s, ctx, at) + GenStatement(s.thenBranch, ctx, thenAt, exits, st) + IfJoin(s, at)
                  + GenOption(s.elseBranch, Next(s.thenBranch, ctx, st), elseAt, exits, st)
            && forall isBreak ::
                 Open(s, at, isBreak) == Open(s.thenBranch, thenAt, isBreak) + OpenOption(s.elseBranch, elseAt, isBreak)
  {
    hide Gen, SizeOf, Next;
  }

  lemma {:induction false} IfResolves(s: Statement, ctx: Context, at: nat, exits: Exits, st: Statics)
    requires s.If?
    ensures GenStatement(s, ctx, at, exits, st)
         == Resolve(GenStatement(s, ctx, at, NO_EXITS, st), at, Open(s, at, true), Open(s, at, false), exits)
    decreases s, 2
  {
    hide Gen, SizeOf, Next, GenStatement, GenOption, Resolve, Open, OpenOption, SizeOfOption, SizeOfStatement, Within;
    var a, b, ctx1 := s.thenBranch, s.elseBranch, Next(s.thenBranch, ctx, st);
    var thenAt := at + SizeOf(s.cond) + 1;
    var joinAt := thenAt + SizeOfStatement(a);
    IfUnfolds(s, ctx, at, exits, st);
    IfUnfolds(s, ctx, at, NO_EXITS, st);
    GenResolves(a, ctx, thenAt, exits, st);
    OpenWithin(a, thenAt, true);
    OpenWithin(a, thenAt, false);
    var head, join := IfHead(s, ctx, at), IfJoin(s, at);
    var thenCode, elseCode := GenStatement(a, ctx, thenAt, NO_EXITS, st), GenOption(b, ctx1, joinAt + 1, NO_EXITS, st);
    ResolveNothing(head, at, exits);
    ResolveNothing(join, joinAt, exits);
    NothingWithin(at, thenAt);
    NothingWithin(joinAt, joinAt + |join|);
    var breaks, continues := Open(a, thenAt, true), Open(a, thenAt, false);
    ResolveConcat(head, thenCode, at, [], breaks, [], continues, exits);
    WithinWider(breaks, thenAt, joinAt, at, joinAt);
    WithinWider(continues, thenAt, joinAt, at, joinAt);
    assert [] + breaks == breaks && [] + continues == continues;
    ResolveConcat(head + thenCode, join, at, breaks, [], continues, [], exits);
    assert breaks + [] == breaks && continues + [] == continues;
    ElseResolves(s, ctx1, joinAt, exits, st);
    var breaks2, continues2 := OpenOption(b, joinAt + 1, true), OpenOption(b, joinAt + 1, false);
    WithinWider(breaks, thenAt, joinAt, at, joinAt + |join|);
    WithinWider(continues, thenAt, joinAt, at, joinAt + |join|);
    ResolveConcat(head + thenCode + join, elseCode, at, breaks, breaks2, continues, continues2, exits);
  }

  lemma WithinWider(positions: seq<nat>, lo: nat, hi: nat, lo1: nat, hi1: nat)
    requires Within(positions, lo, hi) && lo1 <= lo && hi <= hi1
    ensures Within(positions, lo1, hi1)
  {
  }

  /** The `else` part starts after the join jump; without one there is nothing to resolve. */
  lemma {:induction false} ElseResolves(s: Statement, ctx: Context, joinAt: nat, exits: Exits, st: Statics)
    requires s.If?
    ensures var b, elseAt := s.elseBranch, joinAt + |IfJoin(s, 0)|;
            && GenOption(b, ctx, joinAt + 1, exits, st)
               == Resolve(GenOption(b, ctx, joinAt + 1, NO_EXITS, st), elseAt, OpenOption(b, joinAt + 1, true),
                          OpenOption(b, joinAt + 1, false), exits)
            && Within(OpenOption(b, joinAt + 1, true), elseAt, elseAt + SizeOfOption(b))
            && Within(OpenOption(b, joinAt + 1, false), elseAt, elseAt + SizeOfOption(b))
    decreases s, 1
  {
    hide GenStatement, Resolve, SizeOfStatement, Open;
    if s.elseBranch.None? {
      ResolveNothing([], joinAt, exits);
    } else {
      OptionResolves(s.elseBranch, ctx, joinAt + 1, exits, st);
    }
  }

  // ---------- patching ----------

  predicate AreJumps(code: seq<Op>, positions: seq<nat>) {
    forall i | 0 <= i < |positions| :: positions[i] < |code| && code[positions[i]].Jump?
  }

  /** `code` with every instruction at `positions` jumping to `target`. */
  function Patched(code: seq<Op>, positions: seq<nat>, target: nat): (patched: seq<Op>)
    ensures |patched| == |code|
  {
    seq(|code|, k requires 0 <= k < |code| => if k in positions then Jump(target) else code[k])
  }

  lemma PatchedStep(code: seq<Op>, positions: seq<nat>, i: nat, target: nat)
    requires i < |positions| && positions[i] < |code|
    ensures Patched(code, positions[..i + 1], target) ==
              Patched(code, positions[..i], target)[positions[i] := Jump(target)]
  {
    var before, after := Patched(code, positions[..i], target), Patched(code, positions[..i + 1], target);
    assert positions[..i + 1] == positions[..i] + [positions[i]];
    forall k | 0 <= k < |code|
      ensures after[k] == before[positions[i] := Jump(target)][k]
    {
    }
  }

  lemma PatchedIsResolve(before: seq<Op>, part: seq<Op>, breaks: seq<nat>, continues: seq<nat>, exits: Exits)
    requires Within(breaks, |before|, |before| + |part|) && Within(continues, |before|, |before| + |part|)
    ensures Patched(Patched(before + part, breaks, exits.breakTo), continues, exits.continueTo)
         == before + Resolve(part, |before|, breaks, continues, exits)
  {
    var left := Patched(Patched(before + part, breaks, exits.breakTo), continues, exits.continueTo);
    var right := before + Resolve(part, |before|, breaks, continues, exits);
    forall k | 0 <= k < |before + part|
      ensures left[k] == right[k]
    {
      if k < |before| { assert k !in breaks && k !in continues; } else { assert |before| + (k - |before|) == k; }
    }
  }

  /** A loop before its open jumps are patched. */
  function OpenLoop(s: Statement, ctx: Context, at: nat, st: Statics): seq<Op>
    requires s.While? || s.For?
  {
    GenBound(LoopBound(s), ctx.scopes, at, at + LoopSize(s))
      + GenStatement(LoopBody(s), ctx, BodyAt(s, at), NO_EXITS, st)
      + GenOption(LoopStep(s), Next(LoopBody(s), ctx, st), StepAt(s, at), NO_EXITS, st)
      + [Jump(at)]
  }

  lemma LoopResolves(s: Statement, ctx: Context, at: nat, st: Statics)
    requires s.While? || s.For?
    ensures Resolve(OpenLoop(s, ctx, at, st), at, LoopOpen(s, at, true), LoopOpen(s, at, false), LoopExits(s, at)) ==
              GenLoop(s, ctx, at, st)
    ensures Within(LoopOpen(s, at, true), at, at + LoopSize(s)) && Within(LoopOpen(s, at, false), at, at + LoopSize(s))
  {
    hide Gen, GenStatement, GenOption, Resolve, Next, Open, OpenOption, SizeOfStatement, SizeOfOption, SizeOfBound,
         GenBound, Within;
    var exits, body, step := LoopExits(s, at), LoopBody(s), LoopStep(s);
    var bodyAt, stepAt := BodyAt(s, at), StepAt(s, at);
    var ctx1 := Next(body, ctx, st);
    var bound := GenBound(LoopBound(s), ctx.scopes, at, at + LoopSize(s));
    var bodyCode, stepCode := GenStatement(body, ctx, bodyAt, NO_EXITS, st),
        GenOption(step, ctx1, stepAt, NO_EXITS, st);
    var jumpAt := stepAt + SizeOfOption(step);
    var b1, b2, c1, c2 := Open(body, bodyAt, true), OpenOption(step, stepAt, true), Open(body, bodyAt, false),
        OpenOption(step, stepAt, false);
    GenResolves(body, ctx, bodyAt, exits, st);
    OpenWithin(body, bodyAt, true);
    OpenWithin(body, bodyAt, false);
    OptionResolves(step, ctx1, stepAt, exits, st);
    ResolveNothing(bound, at, exits);
    ResolveNothing([Jump(at)], jumpAt, exits);
    NothingWithin(at, bodyAt);
    NothingWithin(jumpAt, jumpAt + 1);
    ResolveConcat(bound, bodyCode, at, [], b1, [], c1, exits);
    assert [] + b1 == b1 && [] + c1 == c1;
    WithinWider(b1, bodyAt, stepAt, at, stepAt);
    WithinWider(c1, bodyAt, stepAt, at, stepAt);
    ResolveConcat(bound + bodyCode, stepCode, at, b1, b2, c1, c2, exits);
    WithinConcat(b1, b2, at, stepAt, jumpAt);
    WithinConcat(c1, c2, at, stepAt, jumpAt);
    ResolveConcat(bound + bodyCode + stepCode, [Jump(at)], at, b1 + b2, [], c1 + c2, [], exits);
    assert b1 + b2 + [] == b1 + b2 && c1 + c2 + [] == c1 + c2;
    WithinWider(b1 + b2, at, jumpAt, at, jumpAt + 1);
    WithinWider(c1 + c2, at, jumpAt, at, jumpAt + 1);
    LoopUnfolds(s, ctx, at, st);
  }

  lemma LoopUnfolds(s: Statement, ctx: Context, at: nat, st: Statics)
    requires s.While? || s.For?
    ensures GenLoop(s, ctx, at, st)
         == GenBound(LoopBound(s), ctx.scopes, at, at + LoopSize(s))
            + GenStatement(LoopBody(s), ctx, BodyAt(s, at), LoopExits(s, at), st)
            + GenOption(LoopStep(s), Next(LoopBody(s), ctx, st), StepAt(s, at), LoopExits(s, at), st)
            + [Jump(at)]
  {
    hide Gen, GenStatement, Next, GenBound;
  }

  lemma WithinConcat(a: seq<nat>, b: seq<nat>, lo: nat, mid: nat, hi: nat)
    requires Within(a, lo, mid) && Within(b, mid, hi) && lo <= mid <= hi
    ensures Within(a + b, lo, hi)
  {
  }

  /** The open jumps of a statement compiled without exits are plain jumps. */
  lemma OpenAreJumps(part: seq<Op>, at: nat, breaks: seq<nat>, continues: seq<nat>)
    requires part == Resolve(part, at, breaks, continues, NO_EXITS)
    ensures forall k | 0 <= k < |part| && (at + k in breaks || at + k in continues) :: part[k].Jump?
  {
  }

  lemma JumpsInside(before: seq<Op>, part: seq<Op>, after: seq<Op>, positions: seq<nat>)
    requires Within(positions, |before|, |before| + |part|)
    requires forall k | 0 <= k < |part| && |before| + k in positions :: part[k].Jump?
    ensures AreJumps(before + part + after, positions)
  {
    forall i | 0 <= i < |positions|
      ensures positions[i] < |before + part + after| && (before + part + after)[positions[i]].Jump?
    {
      var k := positions[i] - |before|;
      assert |before| + k in positions;
    }
  }

  lemma StatementJumps(before: seq<Op>, s: Statement, ctx: Context, after: seq<Op>, st: Statics, isBreak: bool)
    ensures AreJumps(before + GenStatement(s, ctx, |before|, NO_EXITS, st) + after, Open(s, |before|, isBreak))
  {
    hide GenStatement, Open, SizeOfStatement;
    var part := GenStatement(s, ctx, |before|, NO_EXITS, st);
    GenResolves(s, ctx, |before|, NO_EXITS, st);
    OpenAreJumps(part, |before|, Open(s, |before|, true), Open(s, |before|, false));
    OpenWithin(s, |before|, isBreak);
    JumpsInside(before, part, after, Open(s, |before|, isBreak));
  }

  lemma AreJumpsConcat(code: seq<Op>, a: seq<nat>, b: seq<nat>)
    requires AreJumps(code, a) && AreJumps(code, b)
    ensures AreJumps(code, a + b)
  {
  }

  lemma OpenLoopJumps(before: seq<Op>, s: Statement, ctx: Context, st: Statics, isBreak: bool)
    requires s.While? || s.For?
    ensures AreJumps(before + OpenLoop(s, ctx, |before|, st), LoopOpen(s, |before|, isBreak))
  {
    hide GenStatement, Open, SizeOfStatement, GenBound, Next, SizeOfBound, AreJumps;
    var at, body, step := |before|, LoopBody(s), LoopStep(s);
    var bound := GenBound(LoopBound(s), ctx.scopes, at, at + LoopSize(s));
    var bodyCode := GenStatement(body, ctx, BodyAt(s, at), NO_EXITS, st);
    var stepCode := GenOption(step, Next(body, ctx, st), StepAt(s, at), NO_EXITS, st);
    var whole := before + OpenLoop(s, ctx, at, st);
    assert whole == (before + bound) + bodyCode + (stepCode + [Jump(at)]);
    StatementJumps(before + bound, body, ctx, stepCode + [Jump(at)], st, isBreak);
    assert AreJumps(whole, OpenOption(step, StepAt(s, at), isBreak)) by {
      if step.Some? {
        assert whole == (before + bound + bodyCode) + stepCode + [Jump(at)];
        StatementJumps(before + bound + bodyCode, step.value, Next(body, ctx, st), [Jump(at)], st, isBreak);
      } else { NoJumps(whole); }
    }
    AreJumpsConcat(whole, Open(body, BodyAt(s, at), isBreak), OpenOption(step, StepAt(s, at), isBreak));
  }

  lemma NoJumps(code: seq<Op>)
    ensures AreJumps(code, [])
  {
  }

  /** Patching the open jumps of a finished loop gives the loop. */
  lemma LoopFinished(before: seq<Op>, s: Statement, ctx: Context, st: Statics)
    requires s.While? || s.For?
    ensures var exits := LoopExits(s, |before|);
            Patched(Patched(before + OpenLoop(s, ctx, |before|, st), LoopOpen(s, |before|, true), exits.breakTo),
                    LoopOpen(s, |before|, false), exits.continueTo)
            == before + GenLoop(s, ctx, |before|, st)
    ensures AreJumps(before + OpenLoop(s, ctx, |before|, st), LoopOpen(s, |before|, true))
    ensures AreJumps(before + OpenLoop(s, ctx, |before|, st), LoopOpen(s, |before|, false))
    ensures |OpenLoop(s, ctx, |before|, st)| == LoopSize(s)
  {
    hide GenLoop, LoopOpen, Patched, Resolve, AreJumps, Within;
    OpenLoopSize(s, ctx, |before|, st);
    hide OpenLoop;
    LoopResolves(s, ctx, |before|, st);
    PatchedIsResolve(before, OpenLoop(s, ctx, |before|, st), LoopOpen(s, |before|, true), LoopOpen(s, |before|, false),
                     LoopExits(s, |before|));
    OpenLoopJumps(before, s, ctx, st, true);
    OpenLoopJumps(before, s, ctx, st, false);
  }

  lemma OpenLoopSize(s: Statement, ctx: Context, at: nat, st: Statics)
    requires s.While? || s.For?
    ensures |OpenLoop(s, ctx, at, st)| == LoopSize(s)
  {
  }

  // ---------- the compiler ----------

  predicate IsBranch(op: Op) {
    op.Jump? || op.JumpIfFalse? || op.AndJump? || op.OrJump?
  }

  function Retargeted(op: Op, target: nat): Op
    requires IsBranch(op)
  {
    match op
    case Jump(_) => Jump(target)
    case JumpIfFalse(_) => JumpIfFalse(target)
    case AndJump(_) => AndJump(target)
    case OrJump(_) => OrJump(target)
  }

  function Recorded(record: LoopRecord, s: Statement, at: nat): LoopRecord {
    LoopRecord(record.breaks + Open(s, at, true), record.continues + Open(s, at, false))
  }

  /** The loop records after compiling `s`: the innermost loop has its open jumps added. */
  function RecordedIn(loops: seq<LoopRecord>, s: Statement, at: nat): seq<LoopRecord> {
    if loops == [] then [] else Outer(loops) + [Recorded(loops[|loops| - 1], s, at)]
  }

  /** The verdict on a binary operation, one level down. */
  lemma BinaryVerdict(e: Expr, scopes: seq<Scope>, st: Statics)
    requires e.Binary?
    ensures TypeOf(e, scopes, st) ==
            match TypeOf(e.left, scopes, st) {
              case Err(code) => Err(code)
              case Ok(a) =>
                if (e.bop.And? || e.bop.Or?) && a != BOOLEAN then Err(TypeError) else
                match TypeOf(e.right, scopes, st)
                case Err(code) => Err(code)
                case Ok(b) =>
                  if e.bop.And? || e.bop.Or? then (if b != BOOLEAN then Err(TypeError) else Ok(BOOLEAN))
                  else if b != a then Err(TypeError) else BinaryType(e.bop, a)
            }
    ensures PromptsOf(e) == PromptsOf(e.left) + PromptsOf(e.right)
  {
    hide BinaryType;
  }

  function FirstType(name: string): Type {
    if TwoOperands(name).Some? then WatcherType else if name == "delay" then INTEGER else STRING
  }

  function CallType(name: string): Type {
    if name == "watch" then WatcherType else if name == "wait" then BOOLEAN else VoidType
  }

  lemma CallVerdict(e: Expr, scopes: seq<Scope>, st: Statics)
    requires e.Call?
    ensures e.callee == "str" ==>
              TypeOf(e, scopes, st) ==
              if |e.args| != 1 then Err(ArgumentCount) else
              match TypeOf(e.args[0], scopes, st)
              case Err(code) => Err(code)
              case Ok(kind) => if kind == INTEGER then Ok(STRING) else Err(TypeError)
    ensures e.callee == "cmd" && |e.args| == 2 ==>
              TypeOf(e, scopes, st) ==
              if !SendOnly(e.args) then Err(InvalidCommandMode) else
              match TypeOf(e.args[0], scopes, st)
              case Err(code) => Err(code)
              case Ok(kind) =>
                if kind != STRING then Err(TypeError) else
                match CheckCommandText(e.args[0], st.limits.maxStringBytes)
                case Err(code) => Err(code)
                case Ok(_) => Ok(VoidType)
    ensures e.callee == "prompt" ==>
              TypeOf(e, scopes, st) ==
              if |e.args| != 1 then Err(ArgumentCount)
              else if !(e.args[0].Literal? && e.args[0].value.Str?) then Err(StaticPromptRequired)
              else if e.args[0].value.text !in {"shell", "uboot"} then Err(UnknownPrompt)
              else Ok(STRING)
  {
    hide CheckCommandText;
  }

  lemma BuiltinVerdict(e: Expr, scopes: seq<Scope>, st: Statics)
    requires e.Call? && e.callee != "str" && e.callee != "prompt" && !(e.callee == "cmd" && |e.args| == 2)
    ensures TypeOf(e, scopes, st) ==
            if OneOperand(e.callee).Some? then
              if |e.args| != 1 then Err(ArgumentCount) else
              match TypeOf(e.args[0], scopes, st)
              case Err(code) => Err(code)
              case Ok(a) =>
                if a != FirstType(e.callee) then Err(TypeError) else
                match CheckOneOperand(e.callee, e.args[0], st.limits)
                case Err(code) => Err(code)
                case Ok(_) => Ok(CallType(e.callee))
            else if TwoOperands(e.callee).Some? then
              if |e.args| != 2 then Err(ArgumentCount) else
              match TypeOf(e.args[0], scopes, st)
              case Err(code) => Err(code)
              case Ok(a) =>
                if a != WatcherType then Err(TypeError) else
                match TypeOf(e.args[1], scopes, st)
                case Err(code) => Err(code)
                case Ok(b) =>
                  if b != INTEGER then Err(TypeError) else
                  match CheckDuration(e.args[1], st.limits.maxDurationMs)
                  case Err(code) => Err(code)
                  case Ok(_) => Ok(CallType(e.callee))
            else Err(UnknownFunction)
  {
    hide CheckOneOperand, CheckDuration;
  }

  /** The code and the prompts of a call with the right number of arguments. */
  lemma CallCode(e: Expr, scopes: seq<Scope>, at: nat)
    requires e.Call?
    ensures e.callee == "prompt" && |e.args| == 1 && e.args[0].Literal? && e.args[0].value.Str? ==>
              Gen(e, scopes, at) == [PromptOp(e.args[0].value.text)] && PromptsOf(e) == {e.args[0].value.text}
    ensures e.callee != "prompt" && (|e.args| == 1 || (e.callee == "cmd" && |e.args| == 2)) ==>
              Gen(e, scopes, at) == Gen(e.args[0], scopes, at) + CallOps(e.callee, e.args)
              && PromptsOf(e) == PromptsOf(e.args[0])
    ensures TwoOperands(e.callee).Some? && |e.args| == 2 ==>
              && Gen(e, scopes, at)
                 == Gen(e.args[0], scopes, at) + Gen(e.args[1], scopes, at + SizeOf(e.args[0]))
                     + CallOps(e.callee, e.args)
              && PromptsOf(e) == PromptsOf(e.args[0]) + PromptsOf(e.args[1])
  {
    hide CallOps;
    if e.callee != "prompt" && 1 <= |e.args| <= 2 && !(e.callee == "cmd" && |e.args| == 2) {
      assert PromptsOfAll(e.args) == PromptsOf(e.args[0]) + PromptsOfAll(e.args[1..]);
      if |e.args| == 2 { assert PromptsOfAll(e.args[1..]) == PromptsOf(e.args[1]) + PromptsOfAll(e.args[2..]); }
    }
  }

  /** No variable has type void. */
  ghost predicate NoVoid(scopes: seq<Scope>) {
    forall i, name | 0 <= i < |scopes| && name in scopes[i] :: !scopes[i][name].kind.VoidType?
  }

  lemma VoidCalls(e: Expr, scopes: seq<Scope>, st: Statics)
    requires NoVoid(scopes) && TypeOf(e, scopes, st).Ok?
    ensures TypeOf(e, scopes, st).value.VoidType? <==> IsVoidCall(e)
  {
    if e.Variable? {
      var k := LevelOf(scopes, e.name);
      assert e.name in scopes[k];
    }
  }

  /** The compiler reports an error exactly when the type checker does, and the same one. */
  predicate Verdict(r: Result<()>, checked: Result<Context>) {
    match checked
    case Ok(_) => r.Ok?
    case Err(code) => r == Err(code)
  }

  function RecordedAll(loops: seq<LoopRecord>, body: seq<Statement>, at: nat): seq<LoopRecord> {
    if loops == [] then [] else
    var record := loops[|loops| - 1];
    Outer(loops) + [LoopRecord(record.breaks + OpenAll(body, at, true), record.continues + OpenAll(body, at, false))]
  }

  lemma NothingRecorded(loops: seq<LoopRecord>, s: Statement, at: nat)
    requires Open(s, at, true) == [] && Open(s, at, false) == []
    ensures RecordedIn(loops, s, at) == loops
  {
    if loops != [] {
      var record := loops[|loops| - 1];
      assert record.breaks + [] == record.breaks && record.continues + [] == record.continues;
    }
  }

  lemma RecordedStep(loops: seq<LoopRecord>, body: seq<Statement>, at: nat)
    requires body != []
    ensures RecordedAll(loops, body, at)
         == RecordedAll(RecordedIn(loops, body[0], at), body[1..], at + SizeOfStatement(body[0]))
  {
    hide Open, SizeOfStatement;
    if loops != [] {
      var record, s, rest, restAt := loops[|loops| - 1], body[0], body[1..], at + SizeOfStatement(body[0]);
      assert Outer(RecordedIn(loops, s, at)) == Outer(loops);
      assert record.breaks + (Open(s, at, true) + OpenAll(rest, restAt, true)) ==
               record.breaks + Open(s, at, true) + OpenAll(rest, restAt, true);
      assert record.continues + (Open(s, at, false) + OpenAll(rest, restAt, false))
          == record.continues + Open(s, at, false) + OpenAll(rest, restAt, false);
    }
  }

  lemma AllUnfolds(body: seq<Statement>, ctx: Context, inLoop: bool, at: nat, st: Statics)
    requires body != []
    ensures CheckAll(body, ctx, inLoop, st) ==
            match Check(body[0], ctx, inLoop, st) {
              case Err(code) => Err(code)
              case Ok(ctx1) => CheckAll(body[1..], ctx1, inLoop, st)
            }
    ensures Check(body[0], ctx, inLoop, st).Ok? ==> Check(body[0], ctx, inLoop, st).value == Next(body[0], ctx, st)
    ensures GenAll(body, ctx, at, NO_EXITS, st)
         == GenStatement(body[0], ctx, at, NO_EXITS, st)
             + GenAll(body[1..], Next(body[0], ctx, st), at + SizeOfStatement(body[0]), NO_EXITS, st)
    ensures AllPrompts(body) == StatementPrompts(body[0]) + AllPrompts(body[1..])
  {
    hide Check, GenStatement, StatementPrompts, SizeOfStatement;
    if Check(body[0], ctx, inLoop, st).Ok? { LoopIrrelevant(body[0], ctx, inLoop, st); }
  }

  lemma AllEmpty(ctx: Context, inLoop: bool, at: nat, st: Statics)
    ensures CheckAll([], ctx, inLoop, st) == Ok(ctx) && GenAll([], ctx, at, NO_EXITS, st) == [] && AllPrompts([]) == {}
  {
  }

  /** The records of the two branches of an `if`, one after the other. */
  lemma RecordedIf(loops: seq<LoopRecord>, s: Statement, at: nat)
    requires s.If?
    ensures var thenAt := at + SizeOf(s.cond) + 1;
            var after := RecordedIn(loops, s.thenBranch, thenAt);
            RecordedIn(loops, s, at)
            == if s.elseBranch.None? then after
               else RecordedIn(after, s.elseBranch.value, thenAt + SizeOfStatement(s.thenBranch) + 1)
  {
    if loops != [] {
      var record, a, thenAt := loops[|loops| - 1], s.thenBranch, at + SizeOf(s.cond) + 1;
      var elseAt := thenAt + SizeOfStatement(a) + 1;
      assert Outer(RecordedIn(loops, a, thenAt)) == Outer(loops);
      forall isBreak
        ensures Open(s, at, isBreak) == Open(a, thenAt, isBreak) + OpenOption(s.elseBranch, elseAt, isBreak)
      {
      }
      var b1, c1 := OpenOption(s.elseBranch, elseAt, true), OpenOption(s.elseBranch, elseAt, false);
      assert s.elseBranch.None? ==>
               Open(s, at, true) == Open(a, thenAt, true) && Open(s, at, false) == Open(a, thenAt, false);
      assert record.breaks + (Open(a, thenAt, true) + b1) == record.breaks + Open(a, thenAt, true) + b1;
      assert record.continues + (Open(a, thenAt, false) + c1) == record.continues + Open(a, thenAt, false) + c1;
    }
  }

  lemma NothingRecordedAll(loops: seq<LoopRecord>, at: nat)
    ensures RecordedAll(loops, [], at) == loops
  {
    if loops != [] {
      var record := loops[|loops| - 1];
      assert record.breaks + [] == record.breaks && record.continues + [] == record.continues;
    }
  }

  /** A statement changes at most the innermost scope. */
  ghost predicate SameDepth(before: Context, after: Context) {
    |after.scopes| == |before.scopes| && (before.scopes != [] ==> Outer(after.scopes) == Outer(before.scopes))
  }

  lemma {:induction false} CheckDepth(s: Statement, ctx: Context, inLoop: bool, st: Statics)
    requires Check(s, ctx, inLoop, st).Ok?
    ensures SameDepth(ctx, Check(s, ctx, inLoop, st).value)
    decreases s, 1
  {
    match s
    case Block(body) => CheckAllDepth(body, PushScope(ctx), inLoop, st);
    case If(_, a, b) =>
      CheckDepth(a, ctx, inLoop, st);
      if b.Some? { CheckDepth(b.value, Check(a, ctx, inLoop, st).value, inLoop, st); }
    case While(_, body) => CheckDepth(body, ctx, true, st);
    case For(_, _, _, _) => ForDepth(s, ctx, inLoop, st);
    case _ =>
  }

  lemma {:induction false} ForDepth(s: Statement, ctx: Context, inLoop: bool, st: Statics)
    requires s.For? && Check(s, ctx, inLoop, st).Ok?
    ensures SameDepth(ctx, Check(s, ctx, inLoop, st).value)
    decreases s, 0
  {
    hide CheckCondition;
    var ctx0 := PushScope(ctx);
    if s.start.Some? { CheckDepth(s.start.value, ctx0, inLoop, st); }
    var ctx1 := CheckOption(s.start, ctx0, inLoop, st).value;
    CheckDepth(s.forBody, ctx1, true, st);
    if s.step.Some? { CheckDepth(s.step.value, Check(s.forBody, ctx1, true, st).value, true, st); }
  }

  lemma {:induction false} CheckAllDepth(body: seq<Statement>, ctx: Context, inLoop: bool, st: Statics)
    requires CheckAll(body, ctx, inLoop, st).Ok?
    ensures SameDepth(ctx, CheckAll(body, ctx, inLoop, st).value)
    decreases body, 0
  {
    hide Check;
    if body != [] {
      CheckDepth(body[0], ctx, inLoop, st);
      CheckAllDepth(body[1..], Check(body[0], ctx, inLoop, st).value, inLoop, st);
    }
  }

  /** A statement leaves the outer loop records as they are and only adds to the innermost one, and what
      it adds are addresses of its own code. */
  lemma RecordedLoops(loops: seq<LoopRecord>, s: Statement, at: nat)
    ensures |RecordedIn(loops, s, at)| == |loops|
    ensures loops != [] ==>
              var before, after := Last(loops), Last(RecordedIn(loops, s, at));
              && Outer(RecordedIn(loops, s, at)) == Outer(loops)
              && before.breaks <= after.breaks && Within(after.breaks[|before.breaks|..], at, at + SizeOfStatement(s))
              && before.continues <= after.continues && Within(after.continues[|before.continues|..], at,
                                                               at + SizeOfStatement(s))
  {
    hide Open, SizeOfStatement, Within;
    OpenWithin(s, at, true);
    OpenWithin(s, at, false);
    if loops != [] {
      var before, after := Last(loops), Last(RecordedIn(loops, s, at));
      assert after.breaks[|before.breaks|..] == Open(s, at, true)
             && after.continues[|before.continues|..] == Open(s, at, false);
    }
  }

  lemma IfVerdict(s: Statement, ctx: Context, inLoop: bool, st: Statics)
    requires s.If?
    ensures Check(s, ctx, inLoop, st) ==
            match CheckCondition(s.cond, ctx, st) {
              case Err(code) => Err(code)
              case Ok(_) =>
                match Check(s.thenBranch, ctx, inLoop, st)
                case Err(code) => Err(code)
                case Ok(ctx1) => if s.elseBranch.None? then Ok(ctx1) else Check(s.elseBranch.value, ctx1, inLoop, st)
            }
    ensures Check(s.thenBranch, ctx, inLoop, st).Ok? ==>
              Check(s.thenBranch, ctx, inLoop, st).value == Next(s.thenBranch, ctx, st)
    ensures StatementPrompts(s)
         == PromptsOf(s.cond) + StatementPrompts(s.thenBranch)
             + (if s.elseBranch.None? then {} else StatementPrompts(s.elseBranch.value))
  {
    if Check(s.thenBranch, ctx, inLoop, st).Ok? { LoopIrrelevant(s.thenBranch, ctx, inLoop, st); }
  }

  lemma UpdateMiddle(a: seq<Op>, x: Op, y: Op, b: seq<Op>)
    ensures (a + [x] + b)[|a| := y] == a + [y] + b
  {
  }

  lemma UpdateAfter(before: seq<Op>, head: seq<Op>, x: Op, y: Op, tail: seq<Op>)
    ensures (before + head + [x] + tail)[|before| + |head| := y] == before + (head + [y]) + tail
  {
    UpdateMiddle(before + head, x, y, tail);
    assert before + head + [y] == before + (head + [y]);
  }

  lemma Regroup(before: seq<Op>, a: seq<Op>, b: seq<Op>, c: seq<Op>, d: seq<Op>)
    ensures before + a + b + c + d == before + (a + b + c + d)
  {
  }

  lemma IfHeads(s: Statement, ctx: Context, at: nat)
    requires s.If?
    ensures IfHead(s, ctx, at)
         == Gen(s.cond, ctx.scopes, at)
            + [JumpIfFalse(at + SizeOf(s.cond) + 1 + SizeOfStatement(s.thenBranch)
                           + (if s.elseBranch.None? then 0 else 1))]
  {
    hide Gen, SizeOf, SizeOfStatement;
  }

  lemma IfJoins(s: Statement, at: nat)
    requires s.If?
    ensures IfJoin(s, at) == if s.elseBranch.None? then [] else [Jump(at + SizeOfStatement(s))]
  {
    hide SizeOf;
  }

  /** The verdict on a `for` from its condition on, in the context after its start clause. */
  function CheckRest(s: Statement, head: Context, st: Statics): Result<Context>
    requires s.For?
  {
    var _ :- if s.bound.Some? then CheckCondition(s.bound.value, head, st) else Ok(());
    var ctx :- Check(s.forBody, head, true, st);
    CheckStep(s.step, ctx, st)
  }

  function CheckStep(s: Option<Statement>, ctx: Context, st: Statics): Result<Context> {
    if s.Some? && s.value.Let? then Err(SyntaxError) else CheckOption(s, ctx, true, st)
  }

  function Last<T>(levels: seq<T>): T
    requires levels != []
  {
    levels[|levels| - 1]
  }

  /** A loop after its condition, with its jump back. */
  function LoopTail(s: Statement, ctx: Context, at: nat, st: Statics): seq<Op>
    requires s.While? || s.For?
  {
    GenStatement(LoopBody(s), ctx, BodyAt(s, at), NO_EXITS, st)
      + GenOption(LoopStep(s), Next(LoopBody(s), ctx, st), StepAt(s, at), NO_EXITS, st)
      + [Jump(at)]
  }

  /** A loop before the jump back is emitted and before anything is patched. */
  function UnclosedLoop(s: Statement, ctx: Context, at: nat, st: Statics): seq<Op>
    requires s.While? || s.For?
  {
    GenBound(LoopBound(s), ctx.scopes, at, 0)
      + GenStatement(LoopBody(s), ctx, BodyAt(s, at), NO_EXITS, st)
      + GenOption(LoopStep(s), Next(LoopBody(s), ctx, st), StepAt(s, at), NO_EXITS, st)
  }

  lemma LoopEnds(s: Statement, ctx: Context, at: nat, st: Statics)
    requires s.While? || s.For?
    ensures |UnclosedLoop(s, ctx, at, st)| + 1 == LoopSize(s)
    ensures OpenLoop(s, ctx, at, st) == GenBound(LoopBound(s), ctx.scopes, at, at + LoopSize(s))
            + LoopTail(s, ctx, at, st)
    ensures UnclosedLoop(s, ctx, at, st) + [Jump(at)] ==
              GenBound(LoopBound(s), ctx.scopes, at, 0) + LoopTail(s, ctx, at, st)
  {
    hide GenStatement, Next, GenBound, GenOption;
  }

  lemma WhileVerdict(s: Statement, ctx: Context, inLoop: bool, st: Statics)
    requires s.While?
    ensures Check(s, ctx, inLoop, st) ==
            match CheckCondition(s.test, ctx, st) {
              case Err(code) => Err(code)
              case Ok(_) => Check(s.loopBody, ctx, true, st)
            }
    ensures StatementPrompts(s) == PromptsOf(s.test) + StatementPrompts(s.loopBody)
  {
  }

  lemma BoundPatched(before: seq<Op>, bound: Option<Expr>, scopes: seq<Scope>, rest: seq<Op>, end: nat)
    ensures var code := before + GenBound(bound, scopes, |before|, 0) + rest;
            && (bound.Some? ==>
                  && |before| + SizeOf(bound.value) < |code| && code[|before| + SizeOf(bound.value)] == JumpIfFalse(0)
                  && code[|before| + SizeOf(bound.value) := JumpIfFalse(end)] ==
                    before + GenBound(bound, scopes, |before|, end) + rest)
            && (bound.None? ==> code == before + GenBound(bound, scopes, |before|, end) + rest)
  {
    hide Gen, SizeOf;
    if bound.Some? {
      var head := Gen(bound.value, scopes, |before|);
      UpdateAfter(before, head, JumpIfFalse(0), JumpIfFalse(end), rest);
      assert before + head + [JumpIfFalse(0)] == before + (head + [JumpIfFalse(0)]);
    }
  }

  function LoopPrompts(s: Statement): set<string>
    requires s.For?
  {
    (if s.bound.Some? then PromptsOf(s.bound.value) else {}) + StatementPrompts(s.forBody) + OptionPrompts(s.step)
  }

  lemma ForVerdict(s: Statement, ctx: Context, inLoop: bool, st: Statics)
    requires s.For?
    ensures Check(s, ctx, inLoop, st) ==
            match CheckOption(s.start, PushScope(ctx), inLoop, st) {
              case Err(code) => Err(code)
              case Ok(head) =>
                match CheckRest(s, head, st)
                case Err(code) => Err(code)
                case Ok(after) => Ok(PopScope(after))
            }
    ensures CheckOption(s.start, PushScope(ctx), inLoop, st).Ok? ==>
              CheckOption(s.start, PushScope(ctx), inLoop, st).value == NextOption(s.start, PushScope(ctx), st)
    ensures StatementPrompts(s) == OptionPrompts(s.start) + LoopPrompts(s)
  {
    hide CheckCondition;
    if s.start.Some? && Check(s.start.value, PushScope(ctx), inLoop, st).Ok? {
      LoopIrrelevant(s.start.value, PushScope(ctx), inLoop, st);
    }
  }

  lemma RecordedFor(loops: seq<LoopRecord>, s: Statement, at: nat)
    requires s.For?
    ensures RecordedIn(loops, s, at) == if s.start.None? then loops else RecordedIn(loops, s.start.value, at)
  {
    assert Open(s, at, true) == OpenOption(s.start, at, true) && Open(s, at, false) == OpenOption(s.start, at, false);
    if s.start.None? { NothingRecorded(loops, s, at); }
  }

  lemma NoVoidPush(scopes: seq<Scope>)
    requires NoVoid(scopes)
    ensures NoVoid(scopes + [map[]])
  {
  }

  lemma NoVoidPop(scopes: seq<Scope>)
    requires NoVoid(scopes) && scopes != []
    ensures NoVoid(scopes[..|scopes| - 1])
  {
  }

  /** The rest of a `for` leaves the scopes outside it alone. */
  lemma RestDepth(s: Statement, inner: Context, head: Context, inLoop: bool, st: Statics)
    requires s.For? && inner.scopes != [] && CheckOption(s.start, inner, inLoop, st) == Ok(head)
             && CheckRest(s, head, st).Ok?
    ensures |CheckRest(s, head, st).value.scopes| == |inner.scopes|
  {
    hide CheckCondition, Check;
    if s.start.Some? { CheckDepth(s.start.value, inner, inLoop, st); }
    CheckDepth(s.forBody, head, true, st);
    if s.step.Some? { CheckDepth(s.step.value, Check(s.forBody, head, true, st).value, true, st); }
  }

  lemma LoopBodyContext(s: Statement, head: Context, st: Statics)
    requires s.For? && Check(s.forBody, head, true, st).Ok?
    ensures Check(s.forBody, head, true, st).value == Next(s.forBody, head, st)
  {
    hide Check;
  }

  class Compiler {
    var code: seq<Op>
    var scopes: seq<Scope>
    var loops: seq<LoopRecord>
    var variables: nat
    var prompts: set<string>
    const st: Statics

    constructor (st: Statics)
      ensures code == [] && Ctx() == OUTERMOST && loops == [] && prompts == {} && this.st == st
    {
      this.st := st;
      code, scopes, loops, variables, prompts := [], [map[]], [], 0, {};
    }

    function Ctx(): Context
      reads this`scopes, this`variables
    {
      Context(scopes, variables)
    }

    method Emit(op: Op) returns (index: nat)
      modifies this`code
      ensures code == old(code) + [op] && index == |old(code)|
    {
      index := |code|;
      code := code + [op];
    }

    method Patch(instruction: nat, target: nat)
      requires instruction < |code| && IsBranch(code[instruction])
      modifies this`code
      ensures code == old(code)[instruction := Retargeted(old(code)[instruction], target)]
    {
      code := code[instruction := Retargeted(code[instruction], target)];
    }

    /** Patch the jumps in `positions`, one after the other. */
    method PatchAll(positions: seq<nat>, target: nat)
      requires AreJumps(code, positions)
      modifies this`code
      ensures code == Patched(old(code), positions, target)
    {
      assert code == Patched(code, positions[..0], target);
      for i := 0 to |positions|
        invariant code == Patched(old(code), positions[..i], target)
      {
        PatchedStep(old(code), positions, i, target);
        Patch(positions[i], target);
      }
      assert positions[..|positions|] == positions;
    }

    method FinishLoop(continueAt: nat, end: nat)
      requires loops != []
      requires AreJumps(code, loops[|loops| - 1].breaks) && AreJumps(code, loops[|loops| - 1].continues)
      modifies this`code, this`loops
      ensures loops == Outer(old(loops))
      ensures var record := old(loops)[|old(loops)| - 1];
              code == Patched(Patched(old(code), record.breaks, end), record.continues, continueAt)
    {
      var current := loops[|loops| - 1];
      loops := loops[..|loops| - 1];
      PatchAll(current.breaks, end);
      PatchAll(current.continues, continueAt);
    }

    method CompileExpression(e: Expr) returns (r: Result<Type>)
      modifies this`code, this`prompts
      ensures r == TypeOf(e, scopes, st)
      ensures r.Ok? ==> code == old(code) + Gen(e, scopes, |old(code)|) && prompts == old(prompts) + PromptsOf(e)
      decreases e, 2
    {
      match e
      case Literal(v) =>
        var _ := Emit(Push(v));
        return Ok(Plain(v.Type()));
      case Variable(name) =>
        var variable := Lookup(scopes, name);
        if variable.None? { return Err(UnknownVariable); }
        var _ := Emit(Load(variable.value.index));
        return Ok(variable.value.kind);
      case Member(base, field) =>
        if IsArgs(base) {
          if field !in st.parameters { return Err(UnknownParameter); }
          var _ := Emit(Arg(field));
          return Ok(Plain(st.parameters[field]));
        }
        var kind :- CompileExpression(base);
        if kind != WatcherType || field != "matched" { return Err(UnknownField); }
        var _ := Emit(MatchedOp);
        return Ok(BOOLEAN);
      case Unary(op, operand) =>
        var kind :- CompileExpression(operand);
        var _ :- Require(kind, UnaryType(op));
        var _ := Emit(UnaryOperation(op));
        return Ok(kind);
      case Binary(op, left, right) =>
        if op.And? || op.Or? { r := CompileShortCircuit(e); } else { r := CompileOperator(e); }
      case Call(_, _) => r := CompileCall(e);
    }

    method CompileShortCircuit(e: Expr) returns (r: Result<Type>)
      requires e.Binary? && (e.bop.And? || e.bop.Or?)
      modifies this`code, this`prompts
      ensures r == TypeOf(e, scopes, st)
      ensures r.Ok? ==> code == old(code) + Gen(e, scopes, |old(code)|) && prompts == old(prompts) + PromptsOf(e)
      decreases e, 0
    {
      hide TypeOf, Gen, PromptsOf, SizeOf, Need;
      ghost var branchOp := ShortCircuitUnfolds(e, scopes, |code|);
      BinaryVerdict(e, scopes, st);
      var leftType :- CompileExpression(e.left);
      var _ :- Require(leftType, BOOLEAN);
      var branch := Emit(if e.bop.Or? then OrJump(0) else AndJump(0));
      label Branched:
      var rightType :- CompileExpression(e.right);
      var _ :- Require(rightType, BOOLEAN);
      Patch(branch, |code|);
      assert code == old@Branched(code)[branch := branchOp] + Gen(e.right, scopes, branch + 1);
      return Ok(BOOLEAN);
    }

    method CompileOperator(e: Expr) returns (r: Result<Type>)
      requires e.Binary? && !e.bop.And? && !e.bop.Or?
      modifies this`code, this`prompts
      ensures r == TypeOf(e, scopes, st)
      ensures r.Ok? ==> code == old(code) + Gen(e, scopes, |old(code)|) && prompts == old(prompts) + PromptsOf(e)
      decreases e, 0
    {
      hide TypeOf, Gen, PromptsOf, SizeOf, Need, BinaryType;
      OperatorUnfolds(e, scopes, |code|);
      BinaryVerdict(e, scopes, st);
      var leftType :- CompileExpression(e.left);
      var rightType :- CompileExpression(e.right);
      var _ :- Require(rightType, leftType);
      var output :- BinaryType(e.bop, leftType);
      var _ := Emit(BinaryOperation(e.bop));
      return Ok(output);
    }

    method CompileCall(e: Expr) returns (r: Result<Type>)
      requires e.Call?
      modifies this`code, this`prompts
      ensures r == TypeOf(e, scopes, st)
      ensures r.Ok? ==> code == old(code) + Gen(e, scopes, |old(code)|) && prompts == old(prompts) + PromptsOf(e)
      decreases e, 1
    {
      hide TypeOf, Gen, PromptsOf, SizeOf, CheckCommandText;
      var name, args := e.callee, e.args;
      CallVerdict(e, scopes, st);
      CallCode(e, scopes, |code|);
      if name == "str" {
        if |args| != 1 { return Err(ArgumentCount); }
        var actual :- CompileExpression(args[0]);
        var _ :- Require(actual, INTEGER);
        var _ := Emit(IntegerToString);
        return Ok(STRING);
      }
      if name == "cmd" && |args| == 2 {
        if !SendOnly(args) { return Err(InvalidCommandMode); }
        var actual :- CompileExpression(args[0]);
        var _ :- Require(actual, STRING);
        var _ :- CheckCommandText(args[0], st.limits.maxStringBytes);
        var _ := Emit(CallOp(CmdSendOnly));
        return Ok(VoidType);
      }
      if name == "prompt" {
        if |args| != 1 { return Err(ArgumentCount); }
        if !(args[0].Literal? && args[0].value.Str?) { return Err(StaticPromptRequired); }
        var prompt := args[0].value.text;
        if prompt !in {"shell", "uboot"} { return Err(UnknownPrompt); }
        prompts := prompts + {prompt};
        var _ := Emit(PromptOp(prompt));
        return Ok(STRING);
      }
      r := CompileBuiltin(e);
    }

    /** The table-driven part: check and compile the arguments in order, then the static checks. */
    method CompileBuiltin(e: Expr) returns (r: Result<Type>)
      requires e.Call? && e.callee != "str" && e.callee != "prompt" && !(e.callee == "cmd" && |e.args| == 2)
      modifies this`code, this`prompts
      ensures r == TypeOf(e, scopes, st)
      ensures r.Ok? ==> code == old(code) + Gen(e, scopes, |old(code)|) && prompts == old(prompts) + PromptsOf(e)
      decreases e, 0
    {
      hide TypeOf, Gen, PromptsOf, SizeOf, CheckOneOperand, CheckDuration;
      var name, args := e.callee, e.args;
      BuiltinVerdict(e, scopes, st);
      CallCode(e, scopes, |code|);
      var one, two := OneOperand(name), TwoOperands(name);
      if one.None? && two.None? { return Err(UnknownFunction); }
      if |args| != (if one.Some? then 1 else 2) { return Err(ArgumentCount); }
      var first :- CompileExpression(args[0]);
      var _ :- Require(first, FirstType(name));
      if one.Some? {
        var _ :- CheckOneOperand(name, args[0], st.limits);
        var _ := Emit(CallOp(one.value));
      } else {
        var second :- CompileExpression(args[1]);
        var _ :- Require(second, INTEGER);
        var _ :- CheckDuration(args[1], st.limits.maxDurationMs);
        var _ := Emit(CallOp(two.value));
      }
      return Ok(CallType(name));
    }

    // ---------- statements ----------

    method CompileStatement(s: Statement) returns (r: Result<()>)
      requires scopes != [] && NoVoid(scopes)
      modifies this
      ensures Verdict(r, Check(s, old(Ctx()), old(loops) != [], st))
      ensures r.Ok? ==> Check(s, old(Ctx()), old(loops) != [], st) == Ok(Ctx()) && scopes != [] && NoVoid(scopes)
      ensures r.Ok? ==> code == old(code) + GenStatement(s, old(Ctx()), |old(code)|, NO_EXITS, st)
      ensures r.Ok? ==> loops == RecordedIn(old(loops), s, |old(code)|) && prompts == old(prompts) + StatementPrompts(s)
      decreases s, 3
    {
      hide TypeOf, Gen, PromptsOf, SizeOf, GenLoop, GenAll, CheckAll, CheckCondition, SizeOfStatement, OpenAll;
      match s
      case Let(name, e) => r := CompileLet(name, e); NothingRecorded(old(loops), s, |old(code)|);
      case Assign(name, e) =>
        var variable := Lookup(scopes, name);
        if variable.None? { return Err(UnknownVariable); }
        var kind :- CompileExpression(e);
        var _ :- Require(kind, variable.value.kind);
        var _ := Emit(Store(variable.value.index));
        NothingRecorded(old(loops), s, |old(code)|);
        return Ok(());
      case Expression(e) =>
        var kind :- CompileExpression(e);
        VoidCalls(e, scopes, st);
        if kind != VoidType {
          var _ := Emit(Pop);
        }
        NothingRecorded(old(loops), s, |old(code)|);
        return Ok(());
      case Block(body) => r := CompileBlock(body);
      case If(_, _, _) => r := CompileIf(s);
      case While(_, _) => r := CompileWhile(s); NothingRecorded(old(loops), s, |old(code)|);
      case For(_, _, _, _) => r := CompileFor(s);
      case Break => r := CompileLoopControl(s);
      case Continue => r := CompileLoopControl(s);
      case Empty =>
        var _ := Emit(Jump(|code| + 1));
        NothingRecorded(old(loops), s, |old(code)|);
        return Ok(());
    }

    method CompileLet(name: string, e: Expr) returns (r: Result<()>)
      requires scopes != [] && NoVoid(scopes)
      modifies this
      ensures Verdict(r, Check(Let(name, e), old(Ctx()), old(loops) != [], st))
      ensures r.Ok? ==>
                Check(Let(name, e), old(Ctx()), old(loops) != [], st) == Ok(Ctx()) && scopes != [] && NoVoid(scopes)
      ensures r.Ok? ==> code == old(code) + (Gen(e, old(scopes), |old(code)|) + [Store(old(variables))])
      ensures r.Ok? ==> loops == old(loops) && prompts == old(prompts) + PromptsOf(e)
    {
      hide TypeOf, Gen, PromptsOf, SizeOf;
      if name in scopes[|scopes| - 1] || BuiltinName(name) || Reserved(name) { return Err(DuplicateVariable); }
      var kind :- CompileExpression(e);
      if kind == VoidType { return Err(TypeError); }
      if variables >= st.limits.maxVariables { return Err(VariableLimit); }
      var index := variables;
      variables := variables + 1;
      scopes := scopes[..|scopes| - 1] + [scopes[|scopes| - 1][name := Declaration(index, kind)]];
      var _ := Emit(Store(index));
      return Ok(());
    }

    method CompileLoopControl(s: Statement) returns (r: Result<()>)
      requires s.Break? || s.Continue?
      modifies this`code, this`loops
      ensures Verdict(r, Check(s, Ctx(), old(loops) != [], st))
      ensures r.Ok? ==> code == old(code) + [Jump(0)] && loops == RecordedIn(old(loops), s, |old(code)|)
    {
      if loops == [] { return Err(InvalidLoopControl); }
      var jump := Emit(Jump(0));
      var current := loops[|loops| - 1];
      var extended := if s.Break? then current.(breaks := current.breaks + [jump])
                      else current.(continues := current.continues + [jump]);
      loops := loops[..|loops| - 1] + [extended];
      assert current.breaks + [] == current.breaks && current.continues + [] == current.continues;
      return Ok(());
    }

    method CompileStatements(body: seq<Statement>) returns (r: Result<()>)
      requires scopes != [] && NoVoid(scopes)
      modifies this
      ensures Verdict(r, CheckAll(body, old(Ctx()), old(loops) != [], st))
      ensures r.Ok? ==> CheckAll(body, old(Ctx()), old(loops) != [], st) == Ok(Ctx()) && scopes != [] && NoVoid(scopes)
      ensures r.Ok? ==> code == old(code) + GenAll(body, old(Ctx()), |old(code)|, NO_EXITS, st)
      ensures r.Ok? ==>
                loops == RecordedAll(old(loops), body, |old(code)|) && prompts == old(prompts) + AllPrompts(body)
      decreases body, 2
    {
      hide Check, CheckAll, GenStatement, GenAll, SizeOfStatement, StatementPrompts, AllPrompts, NoVoid, RecordedIn,
           RecordedAll, Next;
      ghost var inLoop := loops != [];
      for i := 0 to |body|
        invariant scopes != [] && NoVoid(scopes) && (loops != []) == inLoop
        invariant CheckAll(body, old(Ctx()), inLoop, st) == CheckAll(body[i..], Ctx(), inLoop, st)
        invariant old(code) + GenAll(body, old(Ctx()), |old(code)|, NO_EXITS, st) ==
                    code + GenAll(body[i..], Ctx(), |code|, NO_EXITS, st)
        invariant RecordedAll(old(loops), body, |old(code)|) == RecordedAll(loops, body[i..], |code|)
        invariant old(prompts) + AllPrompts(body) == prompts + AllPrompts(body[i..])
      {
        ghost var ctx := Ctx();
        ghost var before, records, s := code, loops, body[i];
        assert body[i..][0] == s && body[i..][1..] == body[i + 1..];
        AllUnfolds(body[i..], ctx, inLoop, |before|, st);
        RecordedStep(records, body[i..], |before|);
        RecordedLoops(records, s, |before|);
        var _ :- CompileStatement(body[i]);
        assert code + GenAll(body[i + 1..], Ctx(), |code|, NO_EXITS, st) ==
                 before + GenAll(body[i..], ctx, |before|, NO_EXITS, st);
      }
      AllEmpty(Ctx(), inLoop, |code|, st);
      NothingRecordedAll(loops, |code|);
      return Ok(());
    }

    method CompileBlock(body: seq<Statement>) returns (r: Result<()>)
      requires scopes != [] && NoVoid(scopes)
      modifies this
      ensures Verdict(r, Check(Block(body), old(Ctx()), old(loops) != [], st))
      ensures r.Ok? ==>
                Check(Block(body), old(Ctx()), old(loops) != [], st) == Ok(Ctx()) && scopes != [] && NoVoid(scopes)
      ensures r.Ok? ==> code == old(code) + GenAll(body, PushScope(old(Ctx())), |old(code)|, NO_EXITS, st)
      ensures r.Ok? ==>
                loops == RecordedIn(old(loops), Block(body), |old(code)|) && prompts == old(prompts) + AllPrompts(body)
      decreases body, 3
    {
      hide CheckAll, GenAll, OpenAll, AllPrompts;
      ghost var depth := |scopes|;
      scopes := scopes + [map[]];
      var _ :- CompileStatements(body);
      CheckAllDepth(body, PushScope(old(Ctx())), old(loops) != [], st);
      scopes := scopes[..|scopes| - 1];
      return Ok(());
    }

    method CompileCondition(e: Expr) returns (r: Result<()>)
      modifies this`code, this`prompts
      ensures r == CheckCondition(e, Ctx(), st)
      ensures r.Ok? ==> code == old(code) + Gen(e, scopes, |old(code)|) && prompts == old(prompts) + PromptsOf(e)
    {
      hide TypeOf, Gen, PromptsOf;
      var kind :- CompileExpression(e);
      return Require(kind, BOOLEAN);
    }

    method CompileIf(s: Statement) returns (r: Result<()>)
      requires s.If? && scopes != [] && NoVoid(scopes)
      modifies this
      ensures Verdict(r, Check(s, old(Ctx()), old(loops) != [], st))
      ensures r.Ok? ==> Check(s, old(Ctx()), old(loops) != [], st) == Ok(Ctx()) && scopes != [] && NoVoid(scopes)
      ensures r.Ok? ==> code == old(code) + GenStatement(s, old(Ctx()), |old(code)|, NO_EXITS, st)
      ensures r.Ok? ==> loops == RecordedIn(old(loops), s, |old(code)|) && prompts == old(prompts) + StatementPrompts(s)
      decreases s, 2
    {
      hide Gen, SizeOf, PromptsOf, CheckCondition, Check, GenStatement, Open, NoVoid, RecordedIn, SizeOfStatement,
           StatementPrompts;
      ghost var ctx, inLoop, at := Ctx(), loops != [], |code|;
      IfVerdict(s, ctx, inLoop, st);
      RecordedIf(loops, s, at);
      RecordedLoops(loops, s.thenBranch, at + SizeOf(s.cond) + 1);
      ghost var before := code;
      var _ :- CompileCondition(s.cond);
      var skip := Emit(JumpIfFalse(0));
      var _ :- CompileStatement(s.thenBranch);
      r := CloseIf(s, ctx, before, skip);
    }

    /** An `if` after its first branch. */
    method CloseIf(s: Statement, ghost ctx: Context, ghost before: seq<Op>, skip: nat) returns (r: Result<()>)
      requires s.If? && scopes != [] && NoVoid(scopes) && Ctx() == Next(s.thenBranch, ctx, st)
      requires skip == |before| + SizeOf(s.cond)
      requires code == before + Gen(s.cond, ctx.scopes, |before|) + [JumpIfFalse(0)]
               + GenStatement(s.thenBranch, ctx, skip + 1, NO_EXITS, st)
      modifies this
      ensures s.elseBranch.None? ==> r.Ok? && Ctx() == old(Ctx()) && loops == old(loops) && prompts == old(prompts)
      ensures s.elseBranch.Some? ==> Verdict(r, Check(s.elseBranch.value, old(Ctx()), old(loops) != [], st))
      ensures r.Ok? ==> scopes != [] && NoVoid(scopes) && code == before + GenStatement(s, ctx, |before|, NO_EXITS, st)
      ensures r.Ok? && s.elseBranch.Some? ==>
                && Check(s.elseBranch.value, old(Ctx()), old(loops) != [], st) == Ok(Ctx())
                && loops == RecordedIn(old(loops), s.elseBranch.value, |old(code)| + 1)
                && prompts == old(prompts) + StatementPrompts(s.elseBranch.value)
      decreases s, 1
    {
      hide Gen, SizeOf, Check, GenStatement, NoVoid, RecordedIn, SizeOfStatement, StatementPrompts, IfHead, IfJoin,
           Next;
      ghost var at, end, head := |before|, |code|, Gen(s.cond, ctx.scopes, |before|);
      ghost var thenCode := GenStatement(s.thenBranch, ctx, skip + 1, NO_EXITS, st);
      IfUnfolds(s, ctx, at, NO_EXITS, st);
      IfHeads(s, ctx, at);
      IfJoins(s, at);
      if s.elseBranch.Some? {
        UpdateAfter(before, head, JumpIfFalse(0), JumpIfFalse(end + 1), thenCode);
        var _ :- CompileElse(s.elseBranch.value, skip);
        ghost var elseCode := GenOption(s.elseBranch, Next(s.thenBranch, ctx, st), end + 1, NO_EXITS, st);
        assert code == before + (head + [JumpIfFalse(end + 1)]) + thenCode + [Jump(|code|)] + elseCode;
        Regroup(before, head + [JumpIfFalse(end + 1)], thenCode, [Jump(|code|)], elseCode);
      } else {
        UpdateAfter(before, head, JumpIfFalse(0), JumpIfFalse(end), thenCode);
        Patch(skip, |code|);
        Regroup(before, head + [JumpIfFalse(end)], thenCode, [], []);
      }
      return Ok(());
    }

    /** The `else` of an `if` whose conditional jump is at `skip`. */
    method CompileElse(s: Statement, skip: nat) returns (r: Result<()>)
      requires scopes != [] && NoVoid(scopes) && skip < |code| && code[skip].JumpIfFalse?
      modifies this
      ensures Verdict(r, Check(s, old(Ctx()), old(loops) != [], st))
      ensures r.Ok? ==> Check(s, old(Ctx()), old(loops) != [], st) == Ok(Ctx()) && scopes != [] && NoVoid(scopes)
      ensures r.Ok? ==>
                code == old(code)[skip := JumpIfFalse(|old(code)| + 1)] + [Jump(|code|)]
                        + GenStatement(s, old(Ctx()), |old(code)| + 1, NO_EXITS, st)
      ensures r.Ok? ==>
                loops == RecordedIn(old(loops), s, |old(code)| + 1) && prompts == old(prompts) + StatementPrompts(s)
      decreases s, 4
    {
      hide Check, GenStatement, SizeOfStatement, NoVoid, RecordedIn, StatementPrompts;
      var end := Emit(Jump(0));
      Patch(skip, |code|);
      label Headed:
      var _ :- CompileStatement(s);
      UpdateMiddle(old@Headed(code)[..end], Jump(0), Jump(|code|), code[end + 1..]);
      Patch(end, |code|);
      return Ok(());
    }

    method CompileWhile(s: Statement) returns (r: Result<()>)
      requires s.While? && scopes != [] && NoVoid(scopes)
      modifies this
      ensures Verdict(r, Check(s, old(Ctx()), old(loops) != [], st))
      ensures r.Ok? ==> Check(s, old(Ctx()), old(loops) != [], st) == Ok(Ctx()) && scopes != [] && NoVoid(scopes)
      ensures r.Ok? ==> code == old(code) + GenLoop(s, old(Ctx()), |old(code)|, st)
      ensures r.Ok? ==> loops == old(loops) && prompts == old(prompts) + StatementPrompts(s)
      decreases s, 2
    {
      hide Gen, SizeOf, PromptsOf, CheckCondition, GenStatement, Open, NoVoid, GenLoop, Check, SizeOfStatement,
           StatementPrompts;
      ghost var ctx, before := Ctx(), code;
      WhileVerdict(s, ctx, loops != [], st);
      var begin := |code|;
      var _ :- CompileCondition(s.test);
      var stop := Emit(JumpIfFalse(0));
      loops := loops + [LoopRecord([], [])];
      var _ :- CompileStatement(s.loopBody);
      assert code == before + UnclosedLoop(s, ctx, begin, st);
      CloseLoop(s, ctx, before, begin, Some(stop), begin);
      return Ok(());
    }

    method CompileFor(s: Statement) returns (r: Result<()>)
      requires s.For? && scopes != [] && NoVoid(scopes)
      modifies this
      ensures Verdict(r, Check(s, old(Ctx()), old(loops) != [], st))
      ensures r.Ok? ==> Check(s, old(Ctx()), old(loops) != [], st) == Ok(Ctx()) && scopes != [] && NoVoid(scopes)
      ensures r.Ok? ==> code == old(code) + GenStatement(s, old(Ctx()), |old(code)|, NO_EXITS, st)
      ensures r.Ok? ==> loops == RecordedIn(old(loops), s, |old(code)|) && prompts == old(prompts) + StatementPrompts(s)
      decreases s, 2
    {
      hide Gen, SizeOf, PromptsOf, CheckCondition, Check, GenStatement, Open, GenLoop, RecordedIn, SizeOfStatement,
           StatementPrompts, CheckRest, NoVoid, LoopPrompts;
      ghost var ctx, inLoop, at := Ctx(), loops != [], |code|;
      ForVerdict(s, ctx, inLoop, st);
      ForUnfolds(s, ctx, at, NO_EXITS, st);
      RecordedFor(loops, s, at);
      NoVoidPush(scopes);
      scopes := scopes + [map[]];
      if s.start.Some? {
        var _ :- CompileStatement(s.start.value);
      }
      ghost var head := Ctx();
      var _ :- CompileRest(s);
      RestDepth(s, PushScope(ctx), head, inLoop, st);
      NoVoidPop(scopes);
      scopes := scopes[..|scopes| - 1];
      return Ok(());
    }

    /** The condition of a `for`, if it has one, and the address of its conditional jump. */
    method CompileBound(bound: Option<Expr>) returns (r: Result<Option<nat>>)
      modifies this`code, this`prompts
      ensures r.Err? <==> bound.Some? && CheckCondition(bound.value, Ctx(), st).Err?
      ensures r.Err? ==> CheckCondition(bound.value, Ctx(), st) == Err(r.code)
      ensures r.Ok? ==> code == old(code) + GenBound(bound, scopes, |old(code)|, 0)
      ensures r.Ok? ==> prompts == old(prompts) + if bound.Some? then PromptsOf(bound.value) else {}
      ensures r.Ok? ==> r.value == if bound.Some? then Some(|old(code)| + SizeOf(bound.value)) else None
    {
      hide Gen, PromptsOf, CheckCondition, SizeOf;
      if bound.None? { return Ok(None); }
      var _ :- CompileCondition(bound.value);
      var stop := Emit(JumpIfFalse(0));
      return Ok(Some(stop));
    }

    /** The update of a `for`, which must not declare a variable. */
    method CompileStep(s: Option<Statement>) returns (r: Result<()>)
      requires scopes != [] && NoVoid(scopes) && loops != []
      modifies this
      ensures Verdict(r, CheckStep(s, old(Ctx()), st))
      ensures r.Ok? ==> CheckStep(s, old(Ctx()), st) == Ok(Ctx()) && scopes != [] && NoVoid(scopes)
      ensures r.Ok? ==>
                code == old(code) + GenOption(s, old(Ctx()), |old(code)|, NO_EXITS, st)
                && prompts == old(prompts) + OptionPrompts(s)
      ensures r.Ok? ==>
                loops == Outer(old(loops)) + [LoopRecord(Last(old(loops)).breaks + OpenOption(s, |old(code)|, true),
                                                         Last(old(loops)).continues + OpenOption(s, |old(code)|,
                                                             false))]
      decreases s, 5
    {
      hide GenStatement, NoVoid, Check, StatementPrompts, Open;
      if s.None? {
        assert Last(loops).breaks + [] == Last(loops).breaks && Last(loops).continues + [] == Last(loops).continues;
        return Ok(());
      }
      if s.value.Let? { return Err(SyntaxError); }
      r := CompileStatement(s.value);
    }

    /** The end of a loop: jump back, patch the conditional jump and the jumps of the body. */
    method CloseLoop(ghost s: Statement, ghost ctx: Context, ghost before: seq<Op>, begin: nat, stop: Option<nat>,
                     continueAt: nat)
      requires (s.While? || s.For?) && begin == |before|
      requires code == before + UnclosedLoop(s, ctx, begin, st)
      requires stop == if LoopBound(s).Some? then Some(begin + SizeOf(LoopBound(s).value)) else None
      requires loops != [] && Last(loops) == LoopRecord(LoopOpen(s, begin, true), LoopOpen(s, begin, false))
      requires continueAt == LoopExits(s, begin).continueTo
      modifies this`code, this`loops
      ensures code == before + GenLoop(s, ctx, begin, st) && loops == Outer(old(loops))
    {
      hide Gen, SizeOf, GenStatement, GenOption, GenLoop, Patched, AreJumps, GenBound, LoopOpen;
      hide LoopTail, UnclosedLoop, OpenLoop;
      ghost var rest := LoopTail(s, ctx, begin, st);
      LoopEnds(s, ctx, begin, st);
      var _ := Emit(Jump(begin));
      var end := |code|;
      assert code == before + (UnclosedLoop(s, ctx, begin, st) + [Jump(begin)]);
      assert code == before + GenBound(LoopBound(s), ctx.scopes, begin, 0) + rest;
      BoundPatched(before, LoopBound(s), ctx.scopes, rest, end);
      if stop.Some? { Patch(stop.value, end); }
      assert code == before + (GenBound(LoopBound(s), ctx.scopes, begin, end) + rest);
      LoopFinished(before, s, ctx, st);
      FinishLoop(continueAt, end);
    }

    /** A `for` from its condition on. */
    method CompileRest(s: Statement) returns (r: Result<()>)
      requires s.For? && scopes != [] && NoVoid(scopes)
      modifies this
      ensures Verdict(r, CheckRest(s, old(Ctx()), st))
      ensures r.Ok? ==> CheckRest(s, old(Ctx()), st) == Ok(Ctx()) && scopes != [] && NoVoid(scopes)
      ensures r.Ok? ==> code == old(code) + GenLoop(s, old(Ctx()), |old(code)|, st)
      ensures r.Ok? ==> loops == old(loops) && prompts == old(prompts) + LoopPrompts(s)
      decreases s, 1
    {
      hide Gen, SizeOf, PromptsOf, CheckCondition, GenStatement, GenOption, Open, OpenOption, NoVoid, GenLoop, Patched,
           AreJumps, Check, CheckStep,
           SizeOfStatement, SizeOfOption, StatementPrompts, OptionPrompts, GenBound;
      ghost var ctx, before := Ctx(), code;
      var begin := |code|;
      var stop :- CompileBound(s.bound);
      loops := loops + [LoopRecord([], [])];
      var _ :- CompileStatement(s.forBody);
      LoopBodyContext(s, ctx, st);
      var continueAt := |code|;
      var _ :- CompileStep(s.step);
      CloseLoop(s, ctx, before, begin, stop, continueAt);
      return Ok(());
    }
  }

  // ---------- compile ----------

  predicate ParameterName(name: string) {
    IsName(name) && !Reserved(name)
  }

  /** The checks of `compile` before the source is looked at. */
  function PreflightError(st: Statics): Option<ErrorCode> {
    if st.limits.maxNesting == 0 || st.limits.maxNesting > 128 || st.limits.instructionsPerYield == 0 then
      Some(InvalidLimits)
    else if exists name | name in st.parameters :: !ParameterName(name) then Some(InvalidParameter)
    else if |st.parameters| > st.limits.maxVariables then Some(ParameterLimit)
    else None
  }

  /** `compile` on a syntax tree: the one-pass compiler reports the type checker's verdict and produces
      the code the layout describes. */
  method CompileTree(program: seq<Statement>, st: Statics) returns (r: Result<Program>)
    ensures r == match PreflightError(st) { case Some(code) => Err(code) case None => CodeOf(program, st) }
  {
    hide CheckAll, GenAll, AllPrompts, NoVoid;
    var early := PreflightError(st);
    if early.Some? { return Err(early.value); }
    var compiler := new Compiler(st);
    NoneVoid();
    var _ :- compiler.CompileStatements(program);
    assert compiler.code == GenAll(program, OUTERMOST, 0, NO_EXITS, st);
    assert compiler.prompts == AllPrompts(program);
    return Ok(Program(compiler.code, st.parameters, compiler.prompts, compiler.variables, st.limits));
  }

  lemma NoneVoid()
    ensures NoVoid([map[]])
  {
  }
}
