/** The machine of crates/serial-macro/src/vm.rs as the object it is: its methods pop, push and
    count in place. Each is proved equal to the function of MacroVm.dfy it implements, so that
    every theorem about those functions is about this object. */
module MacroVmObject {
  import opened Wrappers
  import opened MacroCore
  import opened SortedKeys
  import opened MacroSemantics
  import opened MacroMachine
  import opened MacroVm

  /** How many operands an instruction has taken off the stack when it fails. */
  function TakenBy(op: Op, stack: seq<RuntimeValue>, maxDurationMs: nat): nat {
    match op
    case Push(_) | Arg(_) | PromptOp(_) | Load(_) | AndJump(_) | OrJump(_) => 0
    case BinaryOperation(_) => 2
    case CallOp(builtin) =>
      if builtin in {Wait, Expect} && stack != [] && Duration(stack[|stack| - 1], maxDurationMs).Ok? then 2 else 1
    case _ => 1
  }

  class Vm {
    const machine: Machine
    const variables: array<Option<RuntimeValue>>
    var stack: seq<RuntimeValue>
    var watchers: seq<bool>
    var pc: nat
    var instructions: nat
    var commandBytes: nat
    var commandEffects: nat
    var nextEffect: nat
    var pending: Option<Effect>
    var failure: Option<ErrorCode>

    constructor (machine: Machine)
      ensures this.machine == machine && fresh(variables)
      ensures State() == InitialVm(machine)
    {
      this.machine := machine;
      variables := new Option<RuntimeValue>[machine.program.variables](_ => None);
      stack, watchers, pc, instructions, commandBytes, commandEffects, nextEffect := [], [], 0, 0, 0, 0, 1;
      pending, failure := None, None;
      new;
      assert variables[..] == seq(machine.program.variables, i => None);
    }

    function LedgerNow(): Ledger
      reads this
    {
      Ledger(watchers, instructions, commandBytes, commandEffects, nextEffect)
    }

    function CoreNow(): Core
      reads this, variables
    {
      Core(pc, stack, variables[..], LedgerNow())
    }

    /** What can be observed: a failed machine's program counter, stack and slots cannot. */
    function State(): VmState
      reads this, variables
    {
      VmState(if failure.Some? then Core(0, [], [], LedgerNow()) else CoreNow(), pending, failure)
    }

    // ---------- operands ----------

    method Pop() returns (r: Result<RuntimeValue>)
      modifies this`stack
      ensures stack == Dropped(old(stack), 1)
      ensures r == match Peek(old(stack), 0) { case Some(v) => Ok(v) case None => Err(VmInvariant) }
    {
      if stack == [] { return Err(VmInvariant); }
      var value := stack[|stack| - 1];
      stack := stack[..|stack| - 1];
      return Ok(value);
    }

    method Push(v: RuntimeValue)
      modifies this`stack
      ensures stack == old(stack) + [v]
    {
      stack := stack + [v];
    }

    method PopBool() returns (r: Result<bool>)
      modifies this`stack
      ensures stack == Dropped(old(stack), 1)
      ensures r == match Peek(old(stack), 0) { case Some(Scalar(Bool(b))) => Ok(b) case _ => Err(VmInvariant) }
    {
      var value :- Pop();
      if !(value.Scalar? && value.scalar.Bool?) { return Err(VmInvariant); }
      return Ok(value.scalar.flag);
    }

    method PopString() returns (r: Result<string>)
      modifies this`stack
      ensures stack == Dropped(old(stack), 1)
      ensures r == match Peek(old(stack), 0) { case Some(Scalar(Str(text))) => Ok(text) case _ => Err(VmInvariant) }
    {
      var value :- Pop();
      if !(value.Scalar? && value.scalar.Str?) { return Err(VmInvariant); }
      return Ok(value.scalar.text);
    }

    method PopDuration() returns (r: Result<nat>)
      modifies this`stack
      ensures stack == Dropped(old(stack), 1)
      ensures r == match Peek(old(stack), 0) {
                     case Some(v) => Duration(v, machine.program.limits.maxDurationMs)
                     case None => Err(VmInvariant)
                   }
    {
      var value :- Pop();
      if !(value.Scalar? && value.scalar.Int?) { return Err(VmInvariant); }
      var ms := value.scalar.number;
      if ms < 0 || ms > machine.program.limits.maxDurationMs { return Err(DurationLimit); }
      return Ok(ms);
    }

    method PopWatcher() returns (r: Result<nat>)
      modifies this`stack
      ensures stack == Dropped(old(stack), 1)
      ensures r == match Peek(old(stack), 0) { case Some(Watcher(id)) => Ok(id) case _ => Err(VmInvariant) }
    {
      var value :- Pop();
      if !value.Watcher? { return Err(VmInvariant); }
      return Ok(value.id);
    }

    method WatcherMatched(watcher: nat) returns (r: Result<bool>)
      ensures r == if watcher < |watchers| then Ok(watchers[watcher]) else Err(UnknownWatcher)
    {
      return if watcher < |watchers| then Ok(watchers[watcher]) else Err(UnknownWatcher);
    }

    // ---------- effects ----------

    /** What a failing instruction leaves: the stack without the operands it has taken. */
    predicate Left(op: Op, before: seq<RuntimeValue>)
      reads this
    {
      stack == Dropped(before, TakenBy(op, before, machine.program.limits.maxDurationMs))
    }

    /** `call`: pop the operands, check them, update the counters and take the next ID. */
    method Call(builtin: Builtin) returns (r: Result<Effect>)
      modifies this`stack, this`watchers, this`commandBytes, this`commandEffects, this`nextEffect
      ensures match IssueEffect(builtin, Peek(old(stack), 0), Peek(old(stack), 1), old(LedgerNow()),
                                machine.program.limits)
              case Refused(code, ledger) => r == Err(code) && LedgerNow() == ledger && Left(CallOp(builtin), old(stack))
              case Issued(effect, ledger) =>
                r == Ok(effect) && LedgerNow() == ledger && stack == Dropped(old(stack), Arity(builtin))
    {
      var limits := machine.program.limits;
      var kind: EffectKind;
      match builtin {
        case Cmd => kind :- CallCommand(true);
        case CmdSendOnly => kind :- CallCommand(false);
        case Watch =>
          var pattern :- PopString();
          if pattern == "" { return Err(EmptyPattern); }
          if |watchers| >= limits.maxWatchers { return Err(WatcherBudget); }
          kind := WatchEffect(|watchers|, pattern);
          watchers := watchers + [false];
        case Wait => kind :- CallWait(false);
        case Expect => kind :- CallWait(true);
        case Delay =>
          var ms :- PopDuration();
          kind := DelayEffect(ms);
      }
      var id := nextEffect;
      if nextEffect >= U64_MAX { return Err(EffectBudget); }
      nextEffect := nextEffect + 1;
      return Ok(Effect(id, kind));
    }

    method CallCommand(verifyEcho: bool) returns (r: Result<EffectKind>)
      modifies this`stack, this`commandBytes, this`commandEffects
      ensures stack == Dropped(old(stack), 1)
      ensures r.Err? ==> commandBytes == old(commandBytes) && commandEffects == old(commandEffects)
      ensures match Peek(old(stack), 0)
              case Some(Scalar(Str(text))) =>
                (match CommandFault(text, machine.program.limits.maxStringBytes)
                 case Some(code) => r == Err(code)
                 case None =>
                   if old(commandBytes) + Utf8Len(text) > machine.program.limits.maxTotalCommandBytes then
                     r == Err(TxBudget)
                   else r == Ok(CommandEffect(text, verifyEcho)) && commandBytes == old(commandBytes) + Utf8Len(text) &&
                        commandEffects == old(commandEffects) + 1)
              case _ => r == Err(VmInvariant)
    {
      var text :- PopString();
      var fault := CommandFault(text, machine.program.limits.maxStringBytes);
      if fault.Some? { return Err(fault.value); }
      var bytes := commandBytes + Utf8Len(text);
      if bytes > machine.program.limits.maxTotalCommandBytes { return Err(TxBudget); }
      commandBytes := bytes;
      commandEffects := commandEffects + 1;
      return Ok(CommandEffect(text, verifyEcho));
    }

    method CallWait(strict: bool) returns (r: Result<EffectKind>)
      modifies this`stack
      ensures stack == Dropped(old(stack), TakenBy(CallOp(Wait), old(stack), machine.program.limits.maxDurationMs))
      ensures r.Ok? ==> stack == Dropped(old(stack), 2)
      ensures r == match Peek(old(stack), 0) {
                     case None => Err(VmInvariant)
                     case Some(top) =>
                       match Duration(top, machine.program.limits.maxDurationMs)
                       case Err(code) => Err(code)
                       case Ok(ms) =>
                         match Peek(old(stack), 1)
                         case Some(Watcher(id)) => Ok(WaitEffect(id, ms, strict))
                         case _ => Err(VmInvariant)
                   }
    {
      var ms :- PopDuration();
      var watcher :- PopWatcher();
      return Ok(WaitEffect(watcher, ms, strict));
    }

    // ---------- instructions ----------

    /** The `match` of `advance_inner`: `Some` is an effect to hand to the driver. */
    method Execute(op: Op) returns (r: Result<Option<Effect>>)
      modifies this`stack, this`watchers, this`commandBytes, this`commandEffects, this`nextEffect, this`pc, variables
      ensures match ExecuteOp(machine, op, old(CoreNow()))
              case Faulted(code, ledger) =>
                r == Err(code) && LedgerNow() == ledger && Left(op, old(stack)) && pc == old(pc)
                && variables[..] == old(variables[..])
              case Moved(core) => r == Ok(None) && CoreNow() == core
              case Suspended(effect, core) => r == Ok(Some(effect)) && CoreNow() == core
    {
      hide ExecuteOp;
      if op.CallOp? {
        CallUnfolds(op);
        var effect :- Call(op.builtin);
        return Ok(Some(effect));
      }
      if op.Jump? || op.JumpIfFalse? || op.AndJump? || op.OrJump? {
        r := ExecuteJump(op);
      } else if op.Push? || op.Arg? || op.PromptOp? || op.Load? || op.Store? || op.Pop? {
        r := ExecuteTransfer(op);
      } else {
        r := ExecuteOperation(op);
      }
    }

    lemma CallUnfolds(op: Op)
      requires op.CallOp?
      ensures var c := CoreNow();
              ExecuteOp(machine, op, c) == match IssueEffect(op.builtin, Peek(c.stack, 0), Peek(c.stack, 1), c.ledger,
                                                             machine.program.limits) {
                case Refused(code, ledger) => Faulted(code, ledger)
                case Issued(effect, ledger) =>
                  Suspended(effect, c.(stack := Dropped(c.stack, Arity(op.builtin)), ledger := ledger))
              }
    {
      hide IssueEffect;
    }

    /** The instructions that move a value to or from the stack. */
    method ExecuteTransfer(op: Op) returns (r: Result<Option<Effect>>)
      requires op.Push? || op.Arg? || op.PromptOp? || op.Load? || op.Store? || op.Pop?
      modifies this`stack, variables
      ensures match ExecuteOp(machine, op, old(CoreNow()))
              case Faulted(code, ledger) =>
                r == Err(code) && LedgerNow() == ledger && Left(op, old(stack)) && pc == old(pc)
                && variables[..] == old(variables[..])
              case Moved(core) => r == Ok(None) && CoreNow() == core
              case Suspended(_, _) => false
    {
      hide IssueEffect;
      match op
      case Push(v) => Push(Scalar(v)); return Ok(None);
      case Arg(name) =>
        var value :- Argument(name, machine.Setting());
        Push(value);
        return Ok(None);
      case PromptOp(name) =>
        var value :- Prompt(name, machine.Setting());
        Push(value);
        return Ok(None);
      case Load(index) =>
        if index >= variables.Length { return Err(IndexPanic); }
        if variables[index].None? { return Err(VmInvariant); }
        Push(variables[index].value);
        return Ok(None);
      case Store(index) =>
        var value :- Pop();
        if index >= variables.Length { return Err(IndexPanic); }
        variables[index] := Some(value);
        return Ok(None);
      case Pop =>
        var _ :- Pop();
        return Ok(None);
    }

    /** The instructions that replace operands by a value. */
    method ExecuteOperation(op: Op) returns (r: Result<Option<Effect>>)
      requires op.MatchedOp? || op.IntegerToString? || op.UnaryOperation? || op.BinaryOperation?
      modifies this`stack
      ensures match ExecuteOp(machine, op, old(CoreNow()))
              case Faulted(code, ledger) =>
                r == Err(code) && LedgerNow() == ledger && Left(op, old(stack)) && pc == old(pc)
                && variables[..] == old(variables[..])
              case Moved(core) => r == Ok(None) && CoreNow() == core
              case Suspended(_, _) => false
    {
      hide IssueEffect;
      match op
      case MatchedOp =>
        var watcher :- PopWatcher();
        var matched :- WatcherMatched(watcher);
        Push(Scalar(Bool(matched)));
        return Ok(None);
      case IntegerToString =>
        var operand :- Pop();
        var text :- FormatInteger(operand, machine.program.limits.maxStringBytes);
        Push(text);
        return Ok(None);
      case UnaryOperation(operator) =>
        var operand :- Pop();
        var value :- ApplyUnary(operator, operand);
        Push(value);
        return Ok(None);
      case BinaryOperation(operator) =>
        var right :- Pop();
        var left :- Pop();
        var value :- ApplyBinary(operator, left, right, machine.program.limits.maxStringBytes);
        Push(value);
        return Ok(None);
    }

    method ExecuteJump(op: Op) returns (r: Result<Option<Effect>>)
      requires op.Jump? || op.JumpIfFalse? || op.AndJump? || op.OrJump?
      modifies this`stack, this`pc
      ensures match ExecuteOp(machine, op, old(CoreNow()))
              case Faulted(code, ledger) =>
                r == Err(code) && LedgerNow() == ledger && Left(op, old(stack)) && pc == old(pc)
                && variables[..] == old(variables[..])
              case Moved(core) => r == Ok(None) && CoreNow() == core
              case Suspended(_, _) => false
    {
      hide IssueEffect;
      match op
      case Jump(target) => pc := target; return Ok(None);
      case JumpIfFalse(target) =>
        var flag :- PopBool();
        if !flag { pc := target; }
        return Ok(None);
      case AndJump(target) => r := Branch(false, target);
      case OrJump(target) => r := Branch(true, target);
    }

    /** Short-circuit: peek, then jump or pop. */
    method Branch(on: bool, target: nat) returns (r: Result<Option<Effect>>)
      modifies this`stack, this`pc
      ensures match TopFlag(old(CoreNow()))
              case None => r == Err(VmInvariant) && stack == old(stack) && pc == old(pc)
              case Some(b) =>
                r == Ok(None) && (if b == on then pc == target && stack == old(stack)
                                  else pc == old(pc) && stack == Dropped(old(stack), 1))
    {
      if |stack| == 0 || !stack[|stack| - 1].Scalar? || !stack[|stack| - 1].scalar.Bool? { return Err(VmInvariant); }
      if stack[|stack| - 1].scalar.flag == on {
        pc := target;
      } else {
        var _ := Pop();
      }
      return Ok(None);
    }

    // ---------- advance ----------

    method Advance() returns (step: Step)
      modifies this, variables
      ensures (State(), step) == MacroVm.Advance(machine, old(State()), machine.program.limits.instructionsPerYield)
    {
      hide Tick;
      if failure.Some? { return Error(failure.value); }
      if pending.Some? { return EffectStep(pending.value); }
      step := AdvanceInner();
      if step.Error? { failure := Some(step.code); }
    }

    method AdvanceInner() returns (step: Step)
      requires failure.None? && pending.None?
      modifies this, variables
      ensures failure.None?
      ensures var (vm, done) := MacroVm.AdvanceInner(machine, old(State()),
                                                     machine.program.limits.instructionsPerYield);
              step == done && if done.Error? then vm == Fail(old(State()), done.code, LedgerNow()) && pending.None?
                              else vm == State()
    {
      hide StepOp, ExecuteOp;
      for i := 0 to machine.program.limits.instructionsPerYield
        invariant failure.None? && pending.None?
        invariant MacroVm.AdvanceInner(machine, old(State()), machine.program.limits.instructionsPerYield)
               == MacroVm.AdvanceInner(machine, State(), machine.program.limits.instructionsPerYield - i)
      {
        ghost var before := CoreNow();
        if pc >= |machine.program.code| {
          if stack != [] { return Error(VmInvariant); }
          return Complete;
        }
        StepUnfolds(machine, before);
        if instructions >= machine.program.limits.maxInstructions { return Error(InstructionBudget); }
        var instruction := machine.program.code[pc];
        instructions := instructions + 1;
        pc := pc + 1;
        assert CoreNow() == Fetched(before);
        var r := Execute(instruction);
        if r.Err? { return Error(r.code); }
        if r.value.Some? {
          pending := r.value;
          return EffectStep(r.value.value);
        }
        if |stack| > machine.StackBound() { return Error(StackLimit); }
      }
      return Yielded;
    }

    // ---------- acknowledgements ----------

    method Resume(effectId: nat, result: EffectResult) returns (r: Result<()>)
      modifies this`stack, this`watchers, this`pending, this`failure
      ensures State() == Respond(old(State()), Reply.Resume(effectId, result))
      ensures r == match failure { case Some(code) => Err(code) case None => Ok(()) }
    {
      if failure.Some? { return Err(failure.value); }
      r := ResumeInner(effectId, result);
      if r.Err? { failure := Some(r.code); }
    }

    method ResumeInner(effectId: nat, result: EffectResult) returns (r: Result<()>)
      requires failure.None?
      modifies this`stack, this`watchers, this`pending
      ensures var vm := Respond(old(State()), Reply.Resume(effectId, result));
              if vm.failure.Some? then
                r == Err(vm.failure.value) && vm == Fail(old(State()), vm.failure.value, LedgerNow())
                && pending == old(pending)
              else r == Ok(()) && vm == State()
    {
      if pending.None? { return Err(EffectProtocol); }
      if pending.value.id != effectId { return Err(EffectProtocol); }
      match (pending.value.kind, result) {
        case (CommandEffect(_, _), Done) =>
        case (DelayEffect(_), Done) =>
        case (WatchEffect(watcher, _), Done) => Push(Watcher(watcher));
        case (WaitEffect(watcher, _, strict), Matched(matched)) =>
          var _ :- WatcherMatched(watcher);
          if matched { watchers := watchers[watcher := true]; }
          if strict {
            if !matched { return Err(ExpectTimeout); }
          } else {
            Push(Scalar(Bool(matched)));
          }
        case (_, _) => return Err(EffectProtocol);
      }
      pending := None;
      return Ok(());
    }

    method FailEffect(effectId: nat) returns (code: ErrorCode)
      modifies this`failure
      ensures State() == Respond(old(State()), Reply.FailEffect(effectId)) && failure == Some(code)
    {
      if failure.Some? { return failure.value; }
      code := if pending.Some? && pending.value.id == effectId then EffectFailed else EffectProtocol;
      failure := Some(code);
    }

    method Interrupt() returns (code: ErrorCode)
      modifies this`failure
      ensures State() == Respond(old(State()), Reply.Interrupt) && failure == Some(code)
    {
      if failure.Some? { return failure.value; }
      code := Interrupted;
      failure := Some(code);
    }

    method MarkMatched(watcher: nat) returns (r: Result<()>)
      modifies this`watchers
      ensures State() == MacroVm.MarkMatched(old(State()), watcher)
      ensures failure.None? ==> (r.Ok? <==> watcher < |watchers|)
    {
      if failure.Some? { return Err(failure.value); }
      if watcher >= |watchers| { return Err(UnknownWatcher); }
      watchers := watchers[watcher := true];
      return Ok(());
    }
  }

  lemma StepUnfolds(m: Machine, c: Core)
    requires c.pc < |m.program.code|
    ensures StepOp(m, c) ==
            if c.ledger.instructions >= m.program.limits.maxInstructions then Faulted(InstructionBudget, c.ledger)
            else StackChecked(m, ExecuteOp(m, m.program.code[c.pc], Fetched(c)))
  {
  }

  // ---------- starting a machine ----------

  /** The arguments and prompts `Vm::new` accepts. */
  ghost predicate Acceptable(p: Program, args: map<string, Value>, prompts: map<string, string>) {
    && args.Keys == p.parameters.Keys
    && (forall name | name in p.parameters ::
        args[name].Type() == p.parameters[name] && ShortText(args[name], p.limits.maxStringBytes))
    && (forall name | name in p.prompts ::
        name in prompts && prompts[name] != "" && Utf8Len(prompts[name]) <= p.limits.maxStringBytes)
  }

  /** What is wrong with a declared parameter. */
  function ParameterFault(p: Program, args: map<string, Value>, name: string): Option<ErrorCode>
    requires name in p.parameters
  {
    if name !in args then Some(MissingParameter)
    else if args[name].Type() != p.parameters[name] then Some(ParameterType)
    else if !ShortText(args[name], p.limits.maxStringBytes) then Some(StringLimit)
    else None
  }

  /** What is wrong with a prompt the program refers to. */
  function PromptFault(p: Program, prompts: map<string, string>, name: string): Option<ErrorCode> {
    if name !in prompts then Some(MissingPrompt)
    else if prompts[name] == "" then Some(EmptyPattern)
    else if Utf8Len(prompts[name]) > p.limits.maxStringBytes then Some(StringLimit)
    else None
  }

  /** The first declared parameter in key order that has a fault has this one. */
  ghost predicate ParameterFails(p: Program, args: map<string, Value>, code: ErrorCode) {
    exists name | name in p.parameters :: ParameterFault(p, args, name) == Some(code)
                                          && forall other | other in p.parameters && Before(other, name) ::
                                            ParameterFault(p, args, other).None?
  }

  ghost predicate PromptFails(p: Program, prompts: map<string, string>, code: ErrorCode) {
    exists name | name in p.prompts :: PromptFault(p, prompts, name) == Some(code)
                                       && forall other | other in p.prompts && Before(other, name) ::
                                         PromptFault(p, prompts, other).None?
  }

  /** Parameters are checked first, then that there is no other argument, then the prompts. */
  ghost predicate StartFails(p: Program, args: map<string, Value>, prompts: map<string, string>, code: ErrorCode) {
    || ParameterFails(p, args, code)
    || ((forall name | name in p.parameters :: ParameterFault(p, args, name).None?)
        && (if args.Keys <= p.parameters.Keys then PromptFails(p, prompts, code) else code == UnknownParameter))
  }

  /** There is one code a start can fail with, and none if the inputs are acceptable. */
  lemma StartFailsOneWay(p: Program, args: map<string, Value>, prompts: map<string, string>, a: ErrorCode, b: ErrorCode)
    requires StartFails(p, args, prompts, a) && StartFails(p, args, prompts, b)
    ensures a == b && !Acceptable(p, args, prompts)
  {
    hide ParameterFault, PromptFault, ParameterFails, PromptFails, Acceptable;
    FaultsRefuse(p, args, prompts);
    SomeParameterFails(p, args);
    SomePromptFails(p, prompts);
    if ParameterFails(p, args, a) {
      ParameterFailsOneWay(p, args, a, b);
    } else if args.Keys <= p.parameters.Keys {
      PromptFailsOneWay(p, prompts, a, b);
    }
  }

  lemma FaultsRefuse(p: Program, args: map<string, Value>, prompts: map<string, string>)
    ensures Acceptable(p, args, prompts) <==>
              && (forall name | name in p.parameters :: ParameterFault(p, args, name).None?)
              && args.Keys <= p.parameters.Keys
              && (forall name | name in p.prompts :: PromptFault(p, prompts, name).None?)
  {
  }

  lemma SomeParameterFails(p: Program, args: map<string, Value>)
    ensures (exists code :: ParameterFails(p, args, code)) ==>
              exists name | name in p.parameters :: ParameterFault(p, args, name).Some?
  {
    hide ParameterFault, Before;
  }

  lemma SomePromptFails(p: Program, prompts: map<string, string>)
    ensures (exists code :: PromptFails(p, prompts, code)) ==>
              exists name | name in p.prompts :: PromptFault(p, prompts, name).Some?
  {
    hide PromptFault, Before;
  }

  lemma ParameterFailsOneWay(p: Program, args: map<string, Value>, a: ErrorCode, b: ErrorCode)
    requires ParameterFails(p, args, a) && ParameterFails(p, args, b)
    ensures a == b
  {
    hide Before, ParameterFault;
    var x :| x in p.parameters && ParameterFault(p, args, x) == Some(a)
             && forall other | other in p.parameters && Before(other, x) :: ParameterFault(p, args, other).None?;
    var y :| y in p.parameters && ParameterFault(p, args, y) == Some(b)
             && forall other | other in p.parameters && Before(other, y) :: ParameterFault(p, args, other).None?;
    BeforeTotal(x, y);
  }

  lemma PromptFailsOneWay(p: Program, prompts: map<string, string>, a: ErrorCode, b: ErrorCode)
    requires PromptFails(p, prompts, a) && PromptFails(p, prompts, b)
    ensures a == b
  {
    hide Before, PromptFault;
    var x :| x in p.prompts && PromptFault(p, prompts, x) == Some(a)
             && forall other | other in p.prompts && Before(other, x) :: PromptFault(p, prompts, other).None?;
    var y :| y in p.prompts && PromptFault(p, prompts, y) == Some(b)
             && forall other | other in p.prompts && Before(other, y) :: PromptFault(p, prompts, other).None?;
    BeforeTotal(x, y);
  }

  /** `Vm::new`: every declared parameter in key order, no other argument, every referenced prompt in key
      order; the first fault is reported. */
  method Start(p: Program, args: map<string, Value>, prompts: map<string, string>) returns (r: Result<Vm>)
    ensures r.Ok? <==> Acceptable(p, args, prompts)
    ensures r.Ok? ==>
              fresh(r.value) && fresh(r.value.variables) && r.value.machine == Machine(p, args, prompts)
              && r.value.State() == InitialVm(r.value.machine)
    ensures r.Err? ==> StartFails(p, args, prompts, r.code)
  {
    hide Before, ParameterFault, PromptFault, Acceptable;
    FaultsRefuse(p, args, prompts);
    var left := p.parameters.Keys;
    while left != {}
      invariant left <= p.parameters.Keys && forall name | name in p.parameters && name !in left ::
                  ParameterFault(p, args, name).None?
      decreases |left|
    {
      var name := First(left);
      var fault := ParameterFault(p, args, name);
      if fault.Some? { return Err(fault.value); }
      left := left - {name};
    }
    if exists name | name in args :: name !in p.parameters { return Err(UnknownParameter); }
    left := p.prompts;
    while left != {}
      invariant left <= p.prompts && forall name | name in p.prompts && name !in left ::
                  PromptFault(p, prompts, name).None?
      decreases |left|
    {
      var name := First(left);
      var fault := PromptFault(p, prompts, name);
      if fault.Some? { return Err(fault.value); }
      left := left - {name};
    }
    var vm := new Vm(Machine(p, args, prompts));
    return Ok(vm);
  }
}
