/** The public API of the machine (`advance`, `resume`, `fail_effect`, `interrupt`,
    `mark_matched`) as functions on its state, and what holds of every sequence of calls.

    Nothing but the counters, the pending effect and the failure of a failed machine can be
    observed, so its program counter, stack and slots are forgotten. */
module MacroVm {
  import opened Wrappers
  import opened MacroCore
  import opened MacroSemantics
  import opened MacroMachine

  datatype VmState = VmState(core: Core, pending: Option<Effect>, failure: Option<ErrorCode>)

  datatype Step = EffectStep(effect: Effect) | Yielded | Complete | Error(code: ErrorCode)

  function Fail(vm: VmState, code: ErrorCode, ledger: Ledger): VmState {
    VmState(Core(0, [], [], ledger), vm.pending, Some(code))
  }

  function InitialVm(m: Machine): VmState {
    VmState(Core(0, [], seq(m.program.variables, i => None), FRESH_LEDGER), None, None)
  }

  function Budget(m: Machine, vm: VmState): nat {
    if vm.core.ledger.instructions <= m.program.limits.maxInstructions
    then m.program.limits.maxInstructions - vm.core.ledger.instructions
    else 0
  }

  // ---------- advance ----------

  /** One pass of the loop in `advance_inner`: `None` means go on. */
  function Tick(m: Machine, vm: VmState): (r: (VmState, Option<Step>))
    ensures r.1.None? ==> Budget(m, r.0) < Budget(m, vm)
  {
    if vm.core.pc >= |m.program.code| then
      if vm.core.stack == [] then (vm, Some(Complete))
      else (Fail(vm, VmInvariant, vm.core.ledger), Some(Error(VmInvariant)))
    else
      match StepOp(m, vm.core)
      case Faulted(code, ledger) => (Fail(vm, code, ledger), Some(Error(code)))
      case Suspended(effect, core) => (vm.(core := core, pending := Some(effect)), Some(EffectStep(effect)))
      case Moved(core) => (vm.(core := core), None)
  }

  /** `advance_inner` with `slice` passes left. */
  function AdvanceInner(m: Machine, vm: VmState, slice: nat): (VmState, Step)
    decreases slice
  {
    if slice == 0 then (vm, Yielded) else
    var (vm1, step) := Tick(m, vm);
    match step
    case Some(done) => (vm1, done)
    case None => AdvanceInner(m, vm1, slice - 1)
  }

  function Advance(m: Machine, vm: VmState, slice: nat): (VmState, Step) {
    match (vm.failure, vm.pending)
    case (Some(code), _) => (vm, Error(code))
    case (None, Some(effect)) => (vm, EffectStep(effect))
    case (None, None) => AdvanceInner(m, vm, slice)
  }

  // ---------- acknowledgements ----------

  /** `resume`, `fail_effect` and `interrupt`. */
  function Respond(vm: VmState, reply: Reply): VmState {
    if vm.failure.Some? then vm
    else if vm.pending.None? then Fail(vm, if reply.Interrupt? then Interrupted else EffectProtocol, vm.core.ledger)
    else
      match Acknowledge(vm.pending.value, reply, vm.core.ledger)
      case Rejected(code, ledger) => Fail(vm, code, ledger)
      case Accepted(push, ledger) =>
        var stack := match push { case None => vm.core.stack case Some(v) => vm.core.stack + [v] };
        VmState(vm.core.(stack := stack, ledger := ledger), None, None)
  }

  function MarkMatched(vm: VmState, watcher: nat): VmState {
    if vm.failure.Some? then vm
    else vm.(core := vm.core.(ledger := vm.core.ledger.(watchers := Mark(vm.core.ledger.watchers, watcher))))
  }

  // ---------- slicing is transparent ----------

  /** Pass after pass, with no slices at all. */
  function Settle(m: Machine, vm: VmState): (VmState, Step)
    decreases Budget(m, vm)
  {
    var (vm1, step) := Tick(m, vm);
    match step
    case Some(done) => (vm1, done)
    case None => Settle(m, vm1)
  }

  lemma {:induction false} SliceOfSettle(m: Machine, vm: VmState, slice: nat)
    ensures var (vm1, step) := AdvanceInner(m, vm, slice);
            if step.Yielded?
            then Settle(m, vm1) == Settle(m, vm) && Budget(m, vm1) + slice <= Budget(m, vm)
            && vm1.pending == vm.pending && vm1.failure == vm.failure
            else (vm1, step) == Settle(m, vm)
    decreases slice
  {
    hide StepOp;
    if slice > 0 {
      var (vm1, step) := Tick(m, vm);
      if step.None? { SliceOfSettle(m, vm1, slice - 1); }
    }
  }

  /** Call `advance` until it stops yielding; count the yields. */
  function Patient(m: Machine, vm: VmState, slice: nat): (r: (VmState, Step, nat))
    requires slice > 0
    decreases Budget(m, vm)
  {
    var (vm1, step) := Advance(m, vm, slice);
    if !step.Yielded? then (vm1, step, 0)
    else
      SliceOfSettle(m, vm, slice);
      var (vm2, done, pauses) := Patient(m, vm1, slice);
      (vm2, done, pauses + 1)
  }

  /** `advance` with the slices taken away. */
  function AdvanceWhole(m: Machine, vm: VmState): (VmState, Step) {
    match (vm.failure, vm.pending)
    case (Some(code), _) => (vm, Error(code))
    case (None, Some(effect)) => (vm, EffectStep(effect))
    case (None, None) => Settle(m, vm)
  }

  /** However the CPU is sliced, the caller sees the same step and the same machine, after at
      most as many yields as the remaining budget has whole slices. */
  lemma {:induction false} SlicingTransparent(m: Machine, vm: VmState, slice: nat)
    requires slice > 0
    ensures var (vm1, step, pauses) := Patient(m, vm, slice);
            (vm1, step) == AdvanceWhole(m, vm) && !step.Yielded? && pauses * slice <= Budget(m, vm)
    decreases Budget(m, vm)
  {
    hide Tick;
    SettleDecides(m, vm);
    SliceOfSettle(m, vm, slice);
    var (vm1, step) := Advance(m, vm, slice);
    if step.Yielded? {
      SlicingTransparent(m, vm1, slice);
      var (_, _, pauses) := Patient(m, vm1, slice);
      assert (pauses + 1) * slice == pauses * slice + slice;
    }
  }

  lemma {:induction false} SettleDecides(m: Machine, vm: VmState)
    ensures !Settle(m, vm).1.Yielded?
    decreases Budget(m, vm)
  {
    hide StepOp;
    var (vm1, step) := Tick(m, vm);
    if step.None? { SettleDecides(m, vm1); }
  }

  lemma SlicingIndependent(m: Machine, vm: VmState, slice: nat, other: nat)
    requires slice > 0 && other > 0
    ensures Patient(m, vm, slice).0 == Patient(m, vm, other).0 && Patient(m, vm, slice).1 == Patient(m, vm, other).1
  {
    SlicingTransparent(m, vm, slice);
    SlicingTransparent(m, vm, other);
  }

  // ---------- a driver ----------

  function MarkMany(vm: VmState, marks: seq<nat>): VmState
    decreases |marks|
  {
    if marks == [] then vm else MarkMany(MarkMatched(vm, marks[0]), marks[1..])
  }

  /** The driver of the crate's documentation: advance until an effect, mark the watchers that
      matched, acknowledge, repeat. */
  function Serve(m: Machine, vm: VmState, answers: seq<Answer>, trace: seq<Effect>, slice: nat): RunResult
    requires slice > 0
    decreases |answers|
  {
    var (vm1, step, _) := Patient(m, vm, slice);
    match step
    case Complete => RunResult(Completed, World(vm1.core.ledger, answers, trace, []))
    case Error(code) => RunResult(Failed(code), World(vm1.core.ledger, answers, trace, []))
    case Yielded => RunResult(Waiting, World(vm1.core.ledger, answers, trace, []))
    case EffectStep(effect) =>
      if answers == [] then RunResult(Waiting, World(vm1.core.ledger, answers, trace + [effect], [])) else
      var vm2 := Respond(MarkMany(vm1, answers[0].marks), answers[0].reply);
      match vm2.failure
      case Some(code) => RunResult(Failed(code), World(vm2.core.ledger, answers[1..], trace + [effect], []))
      case None => Serve(m, vm2, answers[1..], trace + [effect], slice)
  }

  lemma {:induction false} MarkManyIsMarkAll(vm: VmState, marks: seq<nat>)
    requires vm.failure.None?
    ensures MarkMany(vm, marks) == vm.(core :=
                                       vm.core.(ledger := vm.core.ledger.(watchers :=
                                                                          MarkAll(vm.core.ledger.watchers, marks))))
    decreases |marks|
  {
    if marks != [] { MarkManyIsMarkAll(MarkMatched(vm, marks[0]), marks[1..]); }
  }

  function ConfigOf(vm: VmState, answers: seq<Answer>, trace: seq<Effect>): Config {
    Config(vm.core.pc, vm.core.stack, vm.core.slots, World(vm.core.ledger, answers, trace, []))
  }

  lemma {:induction false} SettleRuns(m: Machine, vm: VmState, answers: seq<Answer>, trace: seq<Effect>)
    requires vm.failure.None? && vm.pending.None?
    ensures var (vm1, step) := Settle(m, vm);
            match step
            case Complete =>
              Run(m, ConfigOf(vm, answers, trace)) == RunResult(Completed, World(vm1.core.ledger, answers, trace, []))
            case Error(code) =>
              Run(m, ConfigOf(vm, answers, trace)) ==
                RunResult(Failed(code), World(vm1.core.ledger, answers, trace, []))
            case Yielded => false
            case EffectStep(effect) =>
              vm1.pending == Some(effect) && vm1.failure.None? &&
              Run(m, ConfigOf(vm, answers, trace)) ==
              match AnswerEffect(effect, vm1.core, World(vm.core.ledger, answers, trace, [])) {
                case Over(result) => result
                case Again(c) => Run(m, c)
              }
    decreases Budget(m, vm)
  {
    hide StepOp, AnswerEffect;
    var (vm1, step) := Tick(m, vm);
    var c := ConfigOf(vm, answers, trace);
    assert CoreOf(c) == vm.core;
    if step.None? {
      SettleRuns(m, vm1, answers, trace);
      assert TurnOf(m, c) == Again(ConfigOf(vm1, answers, trace));
      var (vm2, last) := Settle(m, vm1);
      if last.EffectStep? {
        AnswerIgnoresLedger(last.effect, vm2.core, vm.core.ledger, vm1.core.ledger, answers, trace);
      }
    }
  }

  /** The ledger that counts when an effect is answered is the machine's. */
  lemma AnswerIgnoresLedger(effect: Effect, core: Core, ledger: Ledger, other: Ledger, answers: seq<Answer>,
                            trace: seq<Effect>)
    ensures AnswerEffect(effect, core, World(ledger, answers, trace, [])) ==
              AnswerEffect(effect, core, World(other, answers, trace, []))
  {
  }

  /** Serving a machine through its API, with any slices, is running it. */
  lemma {:induction false} ServeIsRun(m: Machine, vm: VmState, answers: seq<Answer>, trace: seq<Effect>, slice: nat)
    requires slice > 0 && vm.failure.None? && vm.pending.None?
    ensures Serve(m, vm, answers, trace, slice) == Run(m, ConfigOf(vm, answers, trace))
    decreases |answers|
  {
    hide Patient, Settle, Run;
    SlicingTransparent(m, vm, slice);
    SettleRuns(m, vm, answers, trace);
    var (vm1, step) := Settle(m, vm);
    if step.EffectStep? && answers != [] {
      MarkManyIsMarkAll(vm1, answers[0].marks);
      var vm2 := Respond(MarkMany(vm1, answers[0].marks), answers[0].reply);
      if vm2.failure.None? { ServeIsRun(m, vm2, answers[1..], trace + [step.effect], slice); }
    }
  }
}
