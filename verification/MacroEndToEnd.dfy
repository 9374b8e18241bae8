/** From source text to the last effect: lex, parse, compile, start, drive. */
module MacroEndToEnd {
  import opened Wrappers
  import opened MacroCore
  import opened MacroCompile
  import opened MacroSemantics
  import opened MacroMachine
  import opened MacroPrograms
  import opened MacroSoundness
  import opened MacroStrings
  import opened MacroVm
  import opened MacroProtocol
  import opened MacroFits
  import opened MacroParser
  import opened MacroParsed
  import opened MacroLexer
  import opened MacroRender
  import opened MacroVmObject
  import opened MacroRequests
  import opened MacroHeights
  import opened MacroBoundaries

  lemma AcceptableSupplies(p: Program, st: Statics, args: map<string, Value>, prompts: map<string, string>)
    requires Acceptable(p, args, prompts) && p.parameters == st.parameters && p.limits == st.limits
    ensures Supplied(Setting(st.limits, args, prompts), st, p.prompts)
  {
  }

  lemma SourceIsWellFormed(source: string, limits: Limits)
    requires ParseSource(source, limits).Ok?
    ensures var program := ParseSource(source, limits).value;
            WellFormed(program, limits) && BracedAll(program) && ShortAll(program, limits.maxStringBytes)
  {
    hide ParseProgram, TokensFrom, ShallowAll, ShortAll;
    LexedTokensAreShort(source, 0, limits.maxStringBytes);
    ParsedProgram(Tokens(source, limits).value, limits);
  }

  /** The program a source stands for can be run on these inputs. */
  ghost predicate Runnable(source: string, st: Statics, args: map<string, Value>, prompts: map<string, string>) {
    && ParseSource(source, st.limits).Ok?
    && CodeOf(ParseSource(source, st.limits).value, st).Ok?
    && Acceptable(CodeOf(ParseSource(source, st.limits).value, st).value, args, prompts)
  }

  ghost function Compiled(source: string, st: Statics, args: map<string, Value>, prompts: map<string, string>): Machine
    requires Runnable(source, st, args, prompts)
  {
    Machine(CodeOf(ParseSource(source, st.limits).value, st).value, args, prompts)
  }

  lemma ClosedRun(source: string, st: Statics, args: map<string, Value>, prompts: map<string, string>,
                  answers: seq<Answer>, deliveries: seq<Delivery>)
    requires Runnable(source, st, args, prompts)
    ensures var m := Compiled(source, st, args, prompts);
            var meaning := Meaning(ParseSource(source, st.limits).value, answers, deliveries, m.Setting());
            Run(m, StartConfig(m, answers, deliveries)) == meaning && Legitimate(meaning.outcome)
  {
    hide Run, Meaning, ParseSource, CheckAll, GenAll, Supplied, Acceptable, WellFormed, Legitimate, ShortAll;
    var program := ParseSource(source, st.limits).value;
    SourceIsWellFormed(source, st.limits);
    AcceptableSupplies(CodeOf(program, st).value, st, args, prompts);
    ProgramPreserved(program, st, args, prompts, answers, deliveries);
    ProgramSound(program, st, args, prompts, answers, deliveries);
  }

  /** A script that parses and compiles, started on arguments `Vm::new` accepts, through any calls of
      the API in any order: advances with any CPU slice, marks at any time, acknowledgements right or
      wrong, failures and interrupts at any time. There are answers and deliveries under which the
      syntax tree means what the machine has done: the same effects so far, the same failure, the same
      waiting or the same end. A failure is a budget, value or driver code. */
  lemma ScriptRuns(source: string, st: Statics, args: map<string, Value>, prompts: map<string, string>,
                   slice: nat, requests: seq<Request>)
    requires Runnable(source, st, args, prompts)
    ensures var m := Compiled(source, st, args, prompts);
            var h := HandleAll(m, History(InitialVm(m), NO_EFFECTS), slice, requests);
            var s := ScriptOf(m, InitialVm(m), slice, requests);
            var meaning := Meaning(ParseSource(source, st.limits).value, s.answers, s.deliveries, m.Setting());
            && h.issued <= meaning.world.trace
            && (h.vm.failure.Some? ==>
                  RuntimeCode(h.vm.failure.value) && meaning.outcome == Failed(h.vm.failure.value)
                  && meaning.world.trace == h.issued)
            && (h.vm.failure.None? && h.vm.pending.Some? ==>
                meaning.outcome == Waiting && meaning.world.trace == h.issued)
            && (h.vm.failure.None? && h.vm.pending.None? && Tick(m, h.vm).1 == Some(Complete) ==>
                  meaning.outcome == Completed && meaning.world.trace == h.issued)
  {
    hide Runnable, Compiled, Meaning, ParseSource, HandleAll, ScriptOf, Tick, RuntimeCode;
    var m := Compiled(source, st, args, prompts);
    var h := HandleAll(m, History(InitialVm(m), NO_EFFECTS), slice, requests);
    var s := ScriptOf(m, InitialVm(m), slice, requests);
    ClosedRun(source, st, args, prompts, s.answers, s.deliveries);
    RequestsTraced(m, History(InitialVm(m), NO_EFFECTS), slice, requests);
    SilentRest(m, h.vm, h.issued);
    FromTheStart(m, s);
  }

  lemma FromTheStart(m: Machine, s: Script)
    ensures RestOfRun(m, InitialVm(m), s, NO_EFFECTS) == Run(m, StartConfig(m, s.answers, s.deliveries))
  {
    hide Run;
  }

  /** In particular, driven by answers alone, with any CPU slice, the machine is its tree's meaning. */
  lemma ScriptServed(source: string, st: Statics, args: map<string, Value>, prompts: map<string, string>,
                     answers: seq<Answer>, slice: nat)
    requires Runnable(source, st, args, prompts) && slice > 0
    ensures var m := Compiled(source, st, args, prompts);
            Serve(m, InitialVm(m), answers, [], slice) ==
              Meaning(ParseSource(source, st.limits).value, answers, [], m.Setting())
  {
    hide Runnable, Compiled, Run, Meaning, ParseSource, Serve, Legitimate;
    var m := Compiled(source, st, args, prompts);
    ClosedRun(source, st, args, prompts, answers, []);
    ServeIsRun(m, InitialVm(m), answers, [], slice);
    assert ConfigOf(InitialVm(m), answers, []) == StartConfig(m, answers, []);
  }

  /** Between any calls of the API on such a machine, no string outgrows the limit, so a command is
      never refused for its length. */
  lemma ScriptStringsStayShort(source: string, st: Statics, args: map<string, Value>, prompts: map<string, string>,
                               slice: nat, requests: seq<Request>, builtin: Builtin)
    requires Runnable(source, st, args, prompts)
    ensures var m := Compiled(source, st, args, prompts);
            var core := HandleAll(m, History(InitialVm(m), NO_EFFECTS), slice, requests).vm.core;
            && SmallCore(core, st.limits.maxStringBytes)
            && var issue := IssueEffect(builtin, Peek(core.stack, 0), Peek(core.stack, 1), core.ledger, st.limits);
               !(issue.Refused? && issue.code == StringLimit)
  {
    hide ParseSource, CheckAll, GenAll, HandleAll, SmallCore, IssueEffect, ShortAll, BracedAll, ShallowAll;
    var program := ParseSource(source, st.limits).value;
    SourceIsWellFormed(source, st.limits);
    CompiledInputsSmall(program, st, args, prompts);
    StringsStayShort(Machine(CodeOf(program, st).value, args, prompts), slice, requests, builtin);
  }

  /** And whenever such a machine is about to begin a statement, or is at its end, no operand is left. */
  lemma ScriptStackEmpty(source: string, st: Statics, args: map<string, Value>, prompts: map<string, string>,
                         slice: nat, requests: seq<Request>)
    requires Runnable(source, st, args, prompts)
    ensures var m := Compiled(source, st, args, prompts);
            var vm := HandleAll(m, History(InitialVm(m), NO_EFFECTS), slice, requests).vm;
            var starts := StartsAll(ParseSource(source, st.limits).value, 0);
            vm.failure.None? && (vm.core.pc in starts || vm.core.pc >= |m.program.code|) ==>
              vm.core.stack == [] && Owed(vm.pending) == 0
  {
    hide ParseSource, CheckAll, GenAll, HandleAll, ShortAll, BracedAll, ShallowAll, StartsAll, Owed, ProgramHeights;
    SourceIsWellFormed(source, st.limits);
    StackEmptyAtStatements(ParseSource(source, st.limits).value, st, args, prompts, slice, requests);
  }

  // ---------- the instruction budget ----------

  function Raised(m: Machine, extra: nat): Machine {
    m.(program := m.program.(limits := m.program.limits.(maxInstructions := m.program.limits.maxInstructions + extra)))
  }

  lemma OpIgnoresBudget(m: Machine, extra: nat, op: Op, c: Core)
    ensures ExecuteOp(Raised(m, extra), op, c) == ExecuteOp(m, op, c)
  {
  }

  lemma TurnIgnoresBudget(m: Machine, extra: nat, c: Config)
    ensures TurnOf(m, c) == TurnOf(Raised(m, extra), c)
            || (TurnOf(m, c).Over? && TurnOf(m, c).result.outcome == Failed(InstructionBudget))
  {
    hide ExecuteOp, AnswerEffect;
    if c.pc < |m.program.code| { OpIgnoresBudget(m, extra, m.program.code[c.pc], Fetched(CoreOf(DeliveredTo(c)))); }
  }

  /** The instruction budget is only ever a reason to stop: a run it does not end is the same run
      under any larger budget. */
  lemma {:induction false} BudgetOnlyStops(m: Machine, extra: nat, c: Config)
    requires Run(m, c).outcome != Failed(InstructionBudget)
    ensures Run(Raised(m, extra), c) == Run(m, c)
    decreases Remaining(c.world, m.Setting())
  {
    hide TurnOf;
    TurnIgnoresBudget(m, extra, c);
    if TurnOf(m, c).Again? { BudgetOnlyStops(m, extra, TurnOf(m, c).config); }
  }
}
