/** The four objects one after the other: source text in, the run's effects and outcome out. */
module MacroRunner {
  import opened Wrappers
  import opened MacroCore
  import opened MacroCompile
  import opened MacroSemantics
  import opened MacroMachine
  import opened MacroSoundness
  import opened MacroVm
  import opened MacroLexer
  import opened MacroLexerObject
  import opened MacroCompiler
  import opened MacroVmObject
  import opened MacroEndToEnd
  import opened MacroProtocol
  import opened MacroRequests
  import opened MacroFrontEnd

  /** `compile`: limits and parameters are checked, then the text is parsed, then compiled. */
  method CompileSource(source: string, st: Statics) returns (r: Result<Program>)
    ensures PreflightError(st).Some? ==> r == Err(PreflightError(st).value)
    ensures PreflightError(st).None? && ParseSource(source, st.limits).Err? ==>
              r == Err(ParseSource(source, st.limits).code)
    ensures PreflightError(st).None? && ParseSource(source, st.limits).Ok? ==>
              r == CodeOf(ParseSource(source, st.limits).value, st)
    ensures r.Ok? <==> Compiles(source, st)
    ensures r.Ok? ==> st.limits.instructionsPerYield > 0
  {
    hide ParseSource, CodeOf, Compiles;
    CompiledIs(source, st);
    var early := PreflightError(st);
    if early.Some? { return Err(early.value); }
    var program :- ParseText(source, st.limits);
    r := CompileTree(program, st);
  }

  /** Advance until it stops yielding. */
  method AdvancePatiently(vm: Vm) returns (step: Step)
    requires vm.machine.program.limits.instructionsPerYield > 0
    modifies vm, vm.variables
    ensures var (after, last, _) := Patient(vm.machine, old(vm.State()),
                                            vm.machine.program.limits.instructionsPerYield);
            vm.State() == after && step == last
  {
    hide MacroVm.Advance, Budget;
    ghost var slice := vm.machine.program.limits.instructionsPerYield;
    ghost var before := vm.State();
    step := vm.Advance();
    while step.Yielded?
      invariant var (after, last, _) := Patient(vm.machine, before, slice);
                if step.Yielded? then
                  (var (after1, last1, _) := Patient(vm.machine, vm.State(), slice); after1 == after && last1 == last)
                else vm.State() == after && step == last
      decreases if step.Yielded? then Budget(vm.machine, vm.State()) + 1 else 0
    {
      YieldSpends(vm.machine, vm.State(), slice);
      step := vm.Advance();
    }
  }

  lemma YieldSpends(m: Machine, vm: VmState, slice: nat)
    requires slice > 0
    ensures MacroVm.Advance(m, vm, slice).1.Yielded? ==> Budget(m, MacroVm.Advance(m, vm, slice).0) < Budget(m, vm)
  {
    hide Tick;
    SliceOfSettle(m, vm, slice);
  }

  method MarkEach(vm: Vm, marks: seq<nat>)
    modifies vm, vm.variables
    ensures vm.State() == MarkMany(old(vm.State()), marks)
  {
    ghost var before := vm.State();
    assert marks[0..] == marks;
    for i := 0 to |marks|
      invariant MarkMany(vm.State(), marks[i..]) == MarkMany(before, marks)
    {
      assert marks[i..][1..] == marks[i + 1..] && marks[i..][0] == marks[i];
      var _ := vm.MarkMatched(marks[i]);
    }
    assert marks[|marks|..] == [];
  }

  method Reply(vm: Vm, reply: MacroCore.Reply)
    modifies vm, vm.variables
    ensures vm.State() == Respond(old(vm.State()), reply)
  {
    match reply
    case Resume(id, result) => var _ := vm.Resume(id, result);
    case FailEffect(id) => var _ := vm.FailEffect(id);
    case Interrupt => var _ := vm.Interrupt();
  }

  /** The driver: advance to an effect, mark the watchers that matched, acknowledge, until the run
      ends or the answers do. The effects it saw are returned. */
  method Drive(vm: Vm, answers: seq<Answer>) returns (effects: seq<Effect>, outcome: Outcome)
    requires vm.machine.program.limits.instructionsPerYield > 0
    modifies vm, vm.variables
    ensures var result := Serve(vm.machine, old(vm.State()), answers, [],
                                vm.machine.program.limits.instructionsPerYield);
            effects == result.world.trace && outcome == result.outcome
  {
    hide Patient, Respond, MarkMany;
    ghost var slice, before := vm.machine.program.limits.instructionsPerYield, vm.State();
    effects := [];
    assert answers[0..] == answers;
    for i := 0 to |answers|
      invariant Serve(vm.machine, vm.State(), answers[i..], effects, slice) ==
                  Serve(vm.machine, before, answers, [], slice)
    {
      var step := AdvancePatiently(vm);
      match step
      case Complete => return effects, Completed;
      case Error(code) => return effects, Failed(code);
      case Yielded => return effects, Waiting;
      case EffectStep(effect) =>
        assert answers[i..][0] == answers[i] && answers[i..][1..] == answers[i + 1..];
        effects := effects + [effect];
        MarkEach(vm, answers[i].marks);
        Reply(vm, answers[i].reply);
        if vm.failure.Some? { return effects, Failed(vm.failure.value); }
    }
    assert answers[|answers|..] == [];
    var step := AdvancePatiently(vm);
    match step
    case Complete => outcome := Completed;
    case Error(code) => outcome := Failed(code);
    case Yielded => outcome := Waiting;
    case EffectStep(effect) => effects, outcome := effects + [effect], Waiting;
  }

  /** Any calls on the object, one after the other; the effects that `advance` reports first. */
  method HandleEach(vm: Vm, requests: seq<Request>) returns (issued: seq<Effect>)
    modifies vm, vm.variables
    ensures History(vm.State(), issued) ==
            HandleAll(vm.machine, History(old(vm.State()), NO_EFFECTS), vm.machine.program.limits.instructionsPerYield,
                      requests)
  {
    hide MacroVm.Advance, Respond, MacroVm.MarkMatched;
    ghost var slice, before := vm.machine.program.limits.instructionsPerYield, History(vm.State(), NO_EFFECTS);
    issued := [];
    assert requests[0..] == requests;
    for i := 0 to |requests|
      invariant HandleAll(vm.machine, History(vm.State(), issued), slice, requests[i..]) ==
                  HandleAll(vm.machine, before, slice, requests)
    {
      assert requests[i..][0] == requests[i] && requests[i..][1..] == requests[i + 1..];
      match requests[i]
      case AdvanceRequest =>
        var running := vm.failure.None? && vm.pending.None?;
        var step := vm.Advance();
        if running && step.EffectStep? { issued := issued + [step.effect]; }
      case ReplyRequest(reply) => Reply(vm, reply);
      case MarkRequest(watcher) => var _ := vm.MarkMatched(watcher);
    }
    assert requests[|requests|..] == [];
  }

  /** The first of the checks a script does not pass: limits, text, types, then arguments and prompts. */
  ghost predicate RefusedWith(source: string, st: Statics, args: map<string, Value>, prompts: map<string, string>,
                              code: ErrorCode) {
    if PreflightError(st).Some? then code == PreflightError(st).value
    else if ParseSource(source, st.limits).Err? then code == ParseSource(source, st.limits).code
    else if CodeOf(ParseSource(source, st.limits).value, st).Err? then
      code == CodeOf(ParseSource(source, st.limits).value, st).code
    else StartFails(CodeOf(ParseSource(source, st.limits).value, st).value, args, prompts, code)
  }

  /** The whole engine, on the objects: whatever the source, the arguments and the calls of the driver,
      either the script is refused before anything runs, or what it has done is what its syntax tree
      means under some answers and deliveries: the same effects so far and, if it has failed, the same
      failure, which is one of budget, value or driver, and if it waits, the same waiting. */
  method RunScript(source: string, st: Statics, args: map<string, Value>, prompts: map<string, string>,
                   requests: seq<Request>)
    returns (refused: Option<ErrorCode>, effects: seq<Effect>, failure: Option<ErrorCode>, pending: Option<Effect>)
    ensures refused.None? <==> PreflightError(st).None? && Runnable(source, st, args, prompts)
    ensures refused.Some? ==> effects == [] && RefusedWith(source, st, args, prompts, refused.value)
    ensures refused.None? ==>
              var m := Compiled(source, st, args, prompts);
              var s := ScriptOf(m, InitialVm(m), st.limits.instructionsPerYield, requests);
              var meaning := Meaning(ParseSource(source, st.limits).value, s.answers, s.deliveries, m.Setting());
              && effects <= meaning.world.trace
              && (failure.Some? ==>
                  RuntimeCode(failure.value) && meaning.outcome == Failed(failure.value)
                  && meaning.world.trace == effects)
              && (failure.None? && pending.Some? ==> meaning.outcome == Waiting && meaning.world.trace == effects)
  {
    hide ParseSource, Meaning, HandleAll, ScriptOf, Acceptable, CheckAll, GenAll, RuntimeCode, Tick, StartFails;
    refused, effects, failure, pending := None, [], None, None;
    var program := CompileSource(source, st);
    if program.Err? { return Some(program.code), [], None, None; }
    var started := Start(program.value, args, prompts);
    if started.Err? { return Some(started.code), [], None, None; }
    var vm := started.value;
    effects := HandleEach(vm, requests);
    failure, pending := vm.failure, vm.pending;
    ScriptRuns(source, st, args, prompts, st.limits.instructionsPerYield, requests);
  }
}
