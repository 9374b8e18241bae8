/** Strings: the size bound in every reachable state, and the agreement of the compiler's
    static string checks with execution. */
module MacroStrings {
  import opened Wrappers
  import opened MacroCore
  import opened MacroSemantics
  import opened MacroMachine
  import opened MacroCompile
  import opened MacroPreservation
  import opened MacroStatements
  import opened MacroSoundness
  import opened MacroVm
  import opened MacroProtocol
  import opened MacroFits

  // ---------- every string a run holds is short ----------

  predicate Small(v: RuntimeValue, max: nat) {
    v.Scalar? ==> ShortText(v.scalar, max)
  }

  ghost predicate SmallCore(c: Core, max: nat) {
    && (forall i | 0 <= i < |c.stack| :: Small(c.stack[i], max))
    && (forall i | 0 <= i < |c.slots| && c.slots[i].Some? :: Small(c.slots[i].value, max))
  }

  /** The literals are the lexer's, the arguments and prompts are those `Vm::new` lets through. */
  ghost predicate SmallInputs(m: Machine) {
    var max := m.program.limits.maxStringBytes;
    && (forall i | 0 <= i < |m.program.code| && m.program.code[i].Push? :: ShortText(m.program.code[i].value, max))
    && (forall name | name in m.args :: ShortText(m.args[name], max))
    && (forall i | 0 <= i < |m.program.code| && m.program.code[i].PromptOp? :: ShortPrompt(m, m.program.code[i].prompt))
  }

  predicate ShortPrompt(m: Machine, name: string) {
    name in m.prompts ==> Utf8Len(m.prompts[name]) <= m.program.limits.maxStringBytes
  }

  lemma BinarySmall(op: BinaryOp, a: RuntimeValue, b: RuntimeValue, max: nat)
    requires Small(a, max) && Small(b, max)
    ensures ApplyBinary(op, a, b, max).Ok? ==> Small(ApplyBinary(op, a, b, max).value, max)
  {
    if op.Add? && a.Scalar? && b.Scalar? && a.scalar.Str? && b.scalar.Str? {
      Utf8LenConcat(a.scalar.text, b.scalar.text);
    }
  }

  lemma ReplaceSmall(c: Core, k: nat, r: Result<RuntimeValue>, max: nat)
    requires SmallCore(c, max) && (r.Ok? ==> Small(r.value, max))
    ensures Replace(c, k, r).Moved? ==> SmallCore(Replace(c, k, r).core, max)
    ensures !Replace(c, k, r).Suspended?
  {
  }

  lemma OpSmall(m: Machine, op: Op, c: Core)
    requires SmallInputs(m) && SmallCore(c, m.program.limits.maxStringBytes)
    requires op.Push? ==> ShortText(op.value, m.program.limits.maxStringBytes)
    requires op.PromptOp? ==> ShortPrompt(m, op.prompt)
    ensures ExecuteOp(m, op, c).Moved? ==> SmallCore(ExecuteOp(m, op, c).core, m.program.limits.maxStringBytes)
    ensures ExecuteOp(m, op, c).Suspended? ==> SmallCore(ExecuteOp(m, op, c).core, m.program.limits.maxStringBytes)
  {
    hide IssueEffect, Replace, ApplyBinary;
    var max := m.program.limits.maxStringBytes;
    match op
    case Push(v) => ReplaceSmall(c, 0, Ok(Scalar(v)), max);
    case Arg(name) => ReplaceSmall(c, 0, Argument(name, m.Setting()), max);
    case PromptOp(name) => ReplaceSmall(c, 0, Prompt(name, m.Setting()), max);
    case Load(i) => ReplaceSmall(c, 0, LoadSlot(c.slots, i), max);
    case MatchedOp =>
      if c.stack != [] {
        ReplaceSmall(c, 1, WatcherFlag(Peek(c.stack, 0).value, c.ledger.watchers), max);
      }
    case IntegerToString => if c.stack != [] { ReplaceSmall(c, 1, FormatInteger(Peek(c.stack, 0).value, max), max); }
    case UnaryOperation(u) => if c.stack != [] { ReplaceSmall(c, 1, ApplyUnary(u, Peek(c.stack, 0).value), max); }
    case BinaryOperation(o) =>
      if |c.stack| >= 2 {
        var a, b := Peek(c.stack, 1).value, Peek(c.stack, 0).value;
        BinarySmall(o, a, b, max);
        ReplaceSmall(c, 2, ApplyBinary(o, a, b, max), max);
      }
    case _ =>
  }

  lemma TickSmall(m: Machine, vm: VmState)
    requires SmallInputs(m) && SmallCore(vm.core, m.program.limits.maxStringBytes)
    ensures SmallCore(Tick(m, vm).0.core, m.program.limits.maxStringBytes)
  {
    hide ExecuteOp;
    if vm.core.pc < |m.program.code| { OpSmall(m, m.program.code[vm.core.pc], Fetched(vm.core)); }
  }

  lemma {:induction false} AdvanceSmall(m: Machine, vm: VmState, slice: nat)
    requires SmallInputs(m) && SmallCore(vm.core, m.program.limits.maxStringBytes)
    ensures SmallCore(AdvanceInner(m, vm, slice).0.core, m.program.limits.maxStringBytes)
    decreases slice
  {
    hide Tick, SmallCore, SmallInputs;
    if slice > 0 {
      TickSmall(m, vm);
      AdvanceSmall(m, Tick(m, vm).0, slice - 1);
    }
  }

  lemma {:induction false} HandleAllSmall(m: Machine, h: History, slice: nat, requests: seq<Request>)
    requires SmallInputs(m) && SmallCore(h.vm.core, m.program.limits.maxStringBytes)
    ensures SmallCore(HandleAll(m, h, slice, requests).vm.core, m.program.limits.maxStringBytes)
    decreases |requests|
  {
    hide AdvanceInner, SmallInputs;
    if requests != [] {
      AdvanceSmall(m, h.vm, slice);
      HandleAllSmall(m, Handle(m, h, slice, requests[0]), slice, requests[1..]);
    }
  }

  /** In every state the API can reach, every string on the stack and in a variable is within the
      limit, so a command is never refused for its length. */
  lemma StringsStayShort(m: Machine, slice: nat, requests: seq<Request>, builtin: Builtin)
    requires SmallInputs(m)
    ensures var core := HandleAll(m, History(InitialVm(m), NO_EFFECTS), slice, requests).vm.core;
            && SmallCore(core, m.program.limits.maxStringBytes)
            && var issue := IssueEffect(builtin, Peek(core.stack, 0), Peek(core.stack, 1), core.ledger,
                                        m.program.limits);
               !(issue.Refused? && issue.code == StringLimit)
  {
    HandleAllSmall(m, History(InitialVm(m), NO_EFFECTS), slice, requests);
  }

  /** A compiled program whose literals passed the lexer starts that way. */
  lemma CompiledInputsSmall(program: seq<Statement>, st: Statics, args: map<string, Value>,
                            prompts: map<string, string>)
    requires BracedAll(program) && ShortAll(program, st.limits.maxStringBytes) && CodeOf(program, st).Ok?
    requires forall name | name in args :: ShortText(args[name], st.limits.maxStringBytes)
    requires forall name | name in prompts && name in CodeOf(program, st).value.prompts ::
               Utf8Len(prompts[name]) <= st.limits.maxStringBytes
    ensures SmallInputs(Machine(CodeOf(program, st).value, args, prompts))
  {
    CompiledCodeFits(program, st);
    var p := CodeOf(program, st).value;
    forall i | 0 <= i < |p.code| && p.code[i].Push?
      ensures ShortText(p.code[i].value, p.limits.maxStringBytes)
    {
      assert Fits(p.code[i], BoundsOf(p));
    }
    forall i | 0 <= i < |p.code| && p.code[i].PromptOp?
      ensures ShortPrompt(Machine(p, args, prompts), p.code[i].prompt)
    {
      assert Fits(p.code[i], BoundsOf(p));
    }
  }

  // ---------- static checks agree with execution ----------

  lemma LiteralEvaluates(v: Value, frames: seq<Frame>, w: World, g: Setting)
    ensures Evaluate(Literal(v), frames, w, g) == Charge(Ok(Scalar(v)), w, g)
  {
  }

  /** Work was charged and watchers may have been marked, but no effect was issued. */
  predicate NothingIssued(before: World, after: World) {
    && after.trace == before.trace
    && after.ledger == before.ledger.(instructions := after.ledger.instructions, watchers := after.ledger.watchers)
  }

  /** The budget ran out or the driver stopped the run. */
  predicate CutShort(outcome: Outcome) {
    outcome.Failed? && outcome.code in {InstructionBudget, Interrupted, EffectProtocol}
  }

  /** A constant string evaluates to the text the compiler computed, unless the run is cut short
      first; an overflow the compiler reports is one that evaluation cannot
      get past. */
  lemma {:induction false} ConstantStringAgrees(e: Expr, frames: seq<Frame>, w: World, g: Setting)
    ensures var constant := ConstantString(e, g.limits.maxStringBytes);
            var r := Evaluate(e, frames, w, g);
            && (constant.Ok? && constant.value.Some? ==>
                  match r
                  case Yields(v, w1) => v == Scalar(Str(constant.value.value)) && NothingIssued(w, w1)
                  case Stops(result) => CutShort(result.outcome)
                  case Silent(_) => false)
            && (constant.Err? ==> constant.code == StringLimit && r.Stops?)
    decreases e
  {
    hide Evaluate;
    match e
    case Binary(Add, left, right) =>
      OperatorEvaluates(e, frames, w, g);
      ConstantStringAgrees(left, frames, w, g);
      ConstantStringAgrees(right, frames, w, g);
      var r := Evaluate(left, frames, w, g);
      if r.Yields? { ConstantStringAgrees(right, frames, r.world, g); }
    case Literal(v) => LiteralEvaluates(v, frames, w, g);
    case _ =>
  }

  /** Reasons a command can be refused or a run can stop that are not about its text. */
  predicate NotAboutText(outcome: Outcome) {
    outcome.Failed? ==> outcome.code !in {StringLimit, CommandControlCharacter, EmptyPattern}
  }

  /** A constant command the compiler accepted is never refused for its text at run time, and the
      text it issues is the one the compiler checked. */
  lemma ConstantCommandIssues(e: Expr, scopes: seq<Scope>, st: Statics, frames: seq<Frame>, w: World, g: Setting)
    requires e.Call? && e.callee == "cmd" && TypeOf(e, scopes, st).Ok? && g.limits == st.limits
    requires ConstantString(e.args[0], st.limits.maxStringBytes).value.Some?
    ensures var text := ConstantString(e.args[0], st.limits.maxStringBytes).value.value;
            match Evaluate(e, frames, w, g)
            case Yields(_, _) => false
            case Silent(w1) => w1.trace == w.trace + [Effect(w.ledger.nextEffect, CommandEffect(text, |e.args| == 1))]
            case Stops(result) => NotAboutText(result.outcome)
  {
    hide Evaluate, TypeOf, ConstantString, Gen, SizeOf, Need;
    AcceptedCommand(e, scopes, st);
    OneOrTwo(e, scopes, st);
    var op := OneArgumentCode(e, scopes, 0, st);
    OneArgumentEvaluates(e, op, frames, w, g);
    ConstantStringAgrees(e.args[0], frames, w, g);
  }

  lemma AcceptedCommand(e: Expr, scopes: seq<Scope>, st: Statics)
    requires e.Call? && e.callee == "cmd" && TypeOf(e, scopes, st).Ok?
    ensures |e.args| in {1, 2} && ConstantString(e.args[0], st.limits.maxStringBytes).Ok?
    ensures CallOps(e.callee, e.args) == [CallOp(if |e.args| == 1 then Cmd else CmdSendOnly)]
    ensures ConstantString(e.args[0], st.limits.maxStringBytes).value.Some? ==>
              CommandFault(ConstantString(e.args[0], st.limits.maxStringBytes).value.value,
                           st.limits.maxStringBytes).None?
  {
    hide ConstantString, CommandFault;
  }

  /** A constant watch pattern the compiler accepted is never refused as empty. */
  lemma ConstantPatternWatches(e: Expr, scopes: seq<Scope>, st: Statics, frames: seq<Frame>, w: World, g: Setting)
    requires e.Call? && e.callee == "watch" && TypeOf(e, scopes, st).Ok? && g.limits == st.limits
    requires ConstantString(e.args[0], st.limits.maxStringBytes).value.Some?
    ensures var r := Evaluate(e, frames, w, g);
            r.Stops? ==> NotAboutText(r.result.outcome)
  {
    hide Evaluate, TypeOf, ConstantString, Gen, SizeOf, Need;
    AcceptedPattern(e, scopes, st);
    OneOrTwo(e, scopes, st);
    var op := OneArgumentCode(e, scopes, 0, st);
    OneArgumentEvaluates(e, op, frames, w, g);
    ConstantStringAgrees(e.args[0], frames, w, g);
  }

  lemma AcceptedPattern(e: Expr, scopes: seq<Scope>, st: Statics)
    requires e.Call? && e.callee == "watch" && TypeOf(e, scopes, st).Ok?
    ensures |e.args| == 1 && ConstantString(e.args[0], st.limits.maxStringBytes).Ok?
    ensures CallOps(e.callee, e.args) == [CallOp(Watch)]
    ensures ConstantString(e.args[0], st.limits.maxStringBytes).value != Some("")
  {
    hide ConstantString;
  }
}
