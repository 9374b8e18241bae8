/** The stack machine of crates/serial-macro/src/vm.rs.

    `StepOp` is one pass of the loop in `advance_inner`. The functions on `VmState` are the
    public API; class `Vm` is the object whose methods update the fields in place, proved
    equal to them. `Run` drives a machine through all its effects with a sequence of answers
    and a sequence of deliveries between instructions. */
module MacroMachine {
  import opened Wrappers
  import opened MacroCore
  import opened MacroSemantics

  datatype Op =
    | Push(value: Value)
    | Arg(argument: string)
    | PromptOp(prompt: string)
    | Load(source: nat)
    | Store(destination: nat)
    | Pop
    | MatchedOp
    | IntegerToString
    | UnaryOperation(uop: UnaryOp)
    | BinaryOperation(bop: BinaryOp)
    | Jump(target: nat)
    | JumpIfFalse(target: nat)
    | AndJump(target: nat)
    | OrJump(target: nat)
    | CallOp(builtin: Builtin)

  datatype Program = Program(
    code: seq<Op>,
    parameters: map<string, ValueType>,
    prompts: set<string>,
    variables: nat,
    limits: Limits
  )

  datatype Machine = Machine(program: Program, args: map<string, Value>, prompts: map<string, string>) {
    function Setting(): Setting {
      MacroSemantics.Setting(program.limits, args, prompts)
    }

    /** The deepest expression the parser lets through: `x op= e` adds one level. */
    function MaxDepth(): nat {
      program.limits.maxNesting + 1
    }

    function StackBound(): nat {
      program.limits.maxNesting * 4 + 16
    }
  }

  type Slots = seq<Option<RuntimeValue>>

  /** The part of the machine that instructions change. */
  datatype Core = Core(pc: nat, stack: seq<RuntimeValue>, slots: Slots, ledger: Ledger)

  datatype StepResult = Moved(core: Core) | Faulted(code: ErrorCode, ledger: Ledger) | Suspended(effect: Effect,
      core: Core)

  /** The k-th value from the top. */
  function Peek(stack: seq<RuntimeValue>, k: nat): Option<RuntimeValue> {
    if k < |stack| then Some(stack[|stack| - 1 - k]) else None
  }

  function Dropped(stack: seq<RuntimeValue>, k: nat): seq<RuntimeValue> {
    if k <= |stack| then stack[..|stack| - k] else []
  }

  /** Replace the top `k` values by the result of an operation on them. */
  function Replace(c: Core, k: nat, r: Result<RuntimeValue>): StepResult {
    match r
    case Err(code) => Faulted(code, c.ledger)
    case Ok(v) => Moved(c.(stack := Dropped(c.stack, k) + [v]))
  }

  function TopFlag(c: Core): Option<bool> {
    match Peek(c.stack, 0)
    case Some(Scalar(Bool(b))) => Some(b)
    case _ => None
  }

  function LoadSlot(slots: Slots, index: nat): Result<RuntimeValue> {
    if index >= |slots| then Err(IndexPanic)
    else if slots[index].None? then Err(VmInvariant)
    else Ok(slots[index].value)
  }

  /** Short-circuit: keep the value and jump when it equals `on`, otherwise pop it. */
  function ShortCircuit(c: Core, on: bool, target: nat): StepResult {
    match TopFlag(c)
    case None => Faulted(VmInvariant, c.ledger)
    case Some(b) => if b == on then Moved(c.(pc := target)) else Moved(c.(stack := Dropped(c.stack, 1)))
  }

  function ExecuteOp(m: Machine, op: Op, c: Core): StepResult {
    match op
    case Push(v) => Replace(c, 0, Ok(Scalar(v)))
    case Arg(name) => Replace(c, 0, Argument(name, m.Setting()))
    case PromptOp(name) => Replace(c, 0, Prompt(name, m.Setting()))
    case Load(index) => Replace(c, 0, LoadSlot(c.slots, index))
    case Store(index) =>
      if c.stack == [] then Faulted(VmInvariant, c.ledger)
      else if index >= |c.slots| then Faulted(IndexPanic, c.ledger)
      else Moved(c.(slots := c.slots[index := Peek(c.stack, 0)], stack := Dropped(c.stack, 1)))
    case Pop => if c.stack == [] then Faulted(VmInvariant, c.ledger) else Moved(c.(stack := Dropped(c.stack, 1)))
    case MatchedOp =>
      if c.stack == [] then Faulted(VmInvariant, c.ledger)
      else Replace(c, 1, WatcherFlag(Peek(c.stack, 0).value, c.ledger.watchers))
    case IntegerToString =>
      if c.stack == [] then Faulted(VmInvariant, c.ledger)
      else Replace(c, 1, FormatInteger(Peek(c.stack, 0).value, m.program.limits.maxStringBytes))
    case UnaryOperation(op) =>
      if c.stack == [] then Faulted(VmInvariant, c.ledger) else Replace(c, 1, ApplyUnary(op, Peek(c.stack, 0).value))
    case BinaryOperation(op) =>
      if |c.stack| < 2 then Faulted(VmInvariant, c.ledger)
      else Replace(c, 2, ApplyBinary(op, Peek(c.stack, 1).value, Peek(c.stack, 0).value,
                                     m.program.limits.maxStringBytes))
    case Jump(target) => Moved(c.(pc := target))
    case JumpIfFalse(target) =>
      (match TopFlag(c)
       case None => Faulted(VmInvariant, c.ledger)
       case Some(b) => Moved(c.(stack := Dropped(c.stack, 1), pc := if b then c.pc else target)))
    case AndJump(target) => ShortCircuit(c, false, target)
    case OrJump(target) => ShortCircuit(c, true, target)
    case CallOp(builtin) =>
      match IssueEffect(builtin, Peek(c.stack, 0), Peek(c.stack, 1), c.ledger, m.program.limits)
      case Refused(code, ledger) => Faulted(code, ledger)
      case Issued(effect, ledger) => Suspended(effect, c.(stack := Dropped(c.stack, Arity(builtin)), ledger := ledger))
  }

  function Fetched(c: Core): Core {
    c.(pc := c.pc + 1, ledger := c.ledger.(instructions := c.ledger.instructions + 1))
  }

  function StackChecked(m: Machine, r: StepResult): StepResult {
    if r.Moved? && |r.core.stack| > m.StackBound() then Faulted(StackLimit, r.core.ledger) else r
  }

  /** Fetch, charge, execute, check the stack. */
  function StepOp(m: Machine, c: Core): StepResult
    requires c.pc < |m.program.code|
  {
    if c.ledger.instructions >= m.program.limits.maxInstructions then Faulted(InstructionBudget, c.ledger)
    else StackChecked(m, ExecuteOp(m, m.program.code[c.pc], Fetched(c)))
  }

  // ---------- a closed run ----------

  datatype Config = Config(pc: nat, stack: seq<RuntimeValue>, slots: Slots, world: World)

  function CoreOf(c: Config): Core {
    Core(c.pc, c.stack, c.slots, c.world.ledger)
  }

  function WithCore(c: Config, k: Core): Config {
    Config(k.pc, k.stack, k.slots, c.world.(ledger := k.ledger))
  }

  /** The machine after the driver has answered `effect`, or the end of the run. */
  datatype Turn = Again(config: Config) | Over(result: RunResult)

  function AnswerEffect(effect: Effect, k: Core, w: World): Turn {
    match Answered(effect, w.(ledger := k.ledger, trace := w.trace + [effect]))
    case Stops(result) => Over(result)
    case Silent(w1) => Again(Config(k.pc, k.stack, k.slots, w1))
    case Yields(v, w1) => Again(Config(k.pc, k.stack + [v], k.slots, w1))
  }

  function DeliveredTo(c: Config): Config {
    c.(world := Delivered(c.world))
  }

  /** A delivery, one instruction, and the driver's answer if it issued an effect. Every turn uses budget. */
  function TurnOf(m: Machine, c: Config): (turn: Turn)
    ensures turn.Again? ==> Remaining(turn.config.world, m.Setting()) < Remaining(c.world, m.Setting())
  {
    if Due(c.world).stop.Some? then Over(Halted(c.world)) else TurnAfter(m, DeliveredTo(c))
  }

  /** The rest of a turn, once the delivery has been made. */
  function TurnAfter(m: Machine, c: Config): (turn: Turn)
    ensures turn.Again? ==> Remaining(turn.config.world, m.Setting()) < Remaining(c.world, m.Setting())
  {
    if c.pc >= |m.program.code| then
      Over(if c.stack == [] then RunResult(Completed, c.world) else Fault(VmInvariant, c.world))
    else
      match StepOp(m, CoreOf(c))
      case Faulted(code, ledger) => Over(Fault(code, c.world.(ledger := ledger)))
      case Moved(k) => Again(WithCore(c, k))
      case Suspended(effect, k) => AnswerEffect(effect, k, c.world)
  }

  function Run(m: Machine, c: Config): RunResult
    decreases Remaining(c.world, m.Setting())
  {
    match TurnOf(m, c)
    case Over(result) => result
    case Again(c1) => Run(m, c1)
  }

  function StartConfig(m: Machine, answers: seq<Answer>, deliveries: seq<Delivery>): Config {
    Config(0, [], seq(m.program.variables, i => None), World(FRESH_LEDGER, answers, [], deliveries))
  }
}
