/** The meaning of a syntax tree, without code, jumps, slots or an operand stack.

    Expressions are evaluated by structural recursion over named variables in nested
    scopes; a statement ends normally, by `break` or by `continue`. Every construct
    charges the instruction budget for the work it does, which is what bounds a loop.
    The driver is two sequences. Each answer replies to one pending effect, after marking any
    watchers as matched. Each delivery comes before one unit of work: it marks watchers between
    two instructions and may stop the run there. All drivers are covered, because every statement
    about this semantics is for every answer sequence and every delivery sequence;
    `MacroRequests` gives the two sequences of any sequence of calls on the machine. */
module MacroSemantics {
  import opened Wrappers
  import opened MacroCore

  datatype Answer = Answer(marks: seq<nat>, reply: Reply)

  /** What the driver does before the next unit of work, when no effect is pending: the watchers it
      marks, and the reply, out of place by then, with which it ends the run. */
  datatype Delivery = Delivery(marks: seq<nat>, stop: Option<Reply>)

  const QUIET := Delivery([], None)

  /** What a run was started with. */
  datatype Setting = Setting(limits: Limits, args: map<string, Value>, prompts: map<string, string>)

  /** Everything a run shares with the outside: counters, answers to come, effects issued, and the
      deliveries to come, one for each unit of work until there are no more. */
  datatype World = World(ledger: Ledger, answers: seq<Answer>, trace: seq<Effect>, deliveries: seq<Delivery>)

  /** `Waiting`: the driver has no further answer, so the last effect stays pending. */
  datatype Outcome = Completed | Failed(code: ErrorCode) | Waiting

  datatype RunResult = RunResult(outcome: Outcome, world: World)

  datatype ExprResult =
    | Yields(value: RuntimeValue, world: World)
    | Silent(world: World)
    | Stops(result: RunResult)

  type Frame = map<string, RuntimeValue>

  datatype Signal = Proceed | Broke | Continued

  datatype StmtResult =
    | Ends(signal: Signal, frames: seq<Frame>, world: World)
    | Aborts(result: RunResult)

  function Remaining(w: World, g: Setting): nat {
    if w.ledger.instructions <= g.limits.maxInstructions
    then g.limits.maxInstructions - w.ledger.instructions
    else 0
  }

  function Fault(code: ErrorCode, w: World): RunResult {
    RunResult(Failed(code), w)
  }

  function Due(w: World): Delivery {
    if w.deliveries == [] then QUIET else w.deliveries[0]
  }

  /** The world once the next delivery has been made. */
  function Delivered(w: World): (after: World)
    ensures |after.ledger.watchers| == |w.ledger.watchers| && after.ledger.instructions == w.ledger.instructions
    ensures after.trace == w.trace && after.answers == w.answers
  {
    w.(ledger := w.ledger.(watchers := MarkAll(w.ledger.watchers, Due(w).marks)),
       deliveries := if w.deliveries == [] then [] else w.deliveries[1..])
  }

  /** The failure of a machine that is replied to while nothing is pending. */
  function StopCode(reply: Reply): ErrorCode {
    if reply.Interrupt? then Interrupted else EffectProtocol
  }

  predicate CanCharge(w: World, g: Setting) {
    Due(w).stop.None? && w.ledger.instructions < g.limits.maxInstructions
  }

  /** Why nothing more can be charged: the driver has stopped the run, or the budget is used up. */
  function Halted(w: World): RunResult {
    Fault(if Due(w).stop.Some? then StopCode(Due(w).stop.value) else InstructionBudget, Delivered(w))
  }

  function Charged(w: World): World {
    Delivered(w).(ledger := Delivered(w).ledger.(instructions := w.ledger.instructions + 1))
  }

  /** The end of a program, or a last delivery that stops it first. */
  function Finished(w: World): RunResult {
    if Due(w).stop.Some? then Halted(w) else RunResult(Completed, Delivered(w))
  }

  /** Every completed evaluation has used up some of the budget. */
  predicate Progress(r: ExprResult, w: World, g: Setting) {
    match r
    case Yields(_, w') => Remaining(w', g) < Remaining(w, g)
    case Silent(w') => Remaining(w', g) < Remaining(w, g)
    case Stops(_) => true
  }

  /** One unit of work that produces `r`. */
  function Charge(r: Result<RuntimeValue>, w: World, g: Setting): (result: ExprResult)
    ensures Progress(result, w, g) && !result.Silent?
  {
    if !CanCharge(w, g) then Stops(Halted(w)) else
    match r
    case Ok(v) => Yields(v, Charged(w))
    case Err(code) => Stops(Fault(code, Charged(w)))
  }

  /** Issue an effect, hand it to the driver and take the driver's answer. */
  function Perform(builtin: Builtin, top: Option<RuntimeValue>, below: Option<RuntimeValue>, w: World,
                   g: Setting): ExprResult {
    match IssueEffect(builtin, top, below, w.ledger, g.limits)
    case Refused(code, ledger) => Stops(Fault(code, w.(ledger := ledger)))
    case Issued(effect, ledger) => Answered(effect, w.(ledger := ledger, trace := w.trace + [effect]))
  }

  function Answered(effect: Effect, w: World): ExprResult {
    if w.answers == [] then Stops(RunResult(Waiting, w)) else
    var marked := w.ledger.(watchers := MarkAll(w.ledger.watchers, w.answers[0].marks));
    match Acknowledge(effect, w.answers[0].reply, marked)
    case Rejected(code, ledger) => Stops(Fault(code, w.(ledger := ledger, answers := w.answers[1..])))
    case Accepted(None, ledger) => Silent(w.(ledger := ledger, answers := w.answers[1..]))
    case Accepted(Some(v), ledger) => Yields(v, w.(ledger := ledger, answers := w.answers[1..]))
  }

  function ChargeEffect(builtin: Builtin, top: RuntimeValue, below: Option<RuntimeValue>, w: World,
                        g: Setting): (result: ExprResult)
    ensures Progress(result, w, g)
  {
    if !CanCharge(w, g) then Stops(Halted(w))
    else Perform(builtin, Some(top), below, Charged(w), g)
  }

  /** A statement used as a value. Type checking rules it out. */
  function Stuck(w: World): ExprResult {
    Stops(Fault(VmInvariant, w))
  }

  // ---------- expressions ----------

  predicate IsArgs(e: Expr) {
    e == Variable("args")
  }

  function OneOperand(name: string): Option<Builtin> {
    if name == "cmd" then Some(Cmd)
    else if name == "watch" then Some(Watch)
    else if name == "delay" then Some(Delay)
    else None
  }

  function TwoOperands(name: string): Option<Builtin> {
    if name == "wait" then Some(Wait)
    else if name == "expect" then Some(Expect)
    else None
  }

  function Argument(name: string, g: Setting): Result<RuntimeValue> {
    if name in g.args then Ok(Scalar(g.args[name])) else Err(IndexPanic)
  }

  function Prompt(name: string, g: Setting): Result<RuntimeValue> {
    if name in g.prompts then Ok(Scalar(Str(g.prompts[name]))) else Err(IndexPanic)
  }

  function Read(name: string, frames: seq<Frame>): Result<RuntimeValue> {
    match Lookup(frames, name)
    case Some(v) => Ok(v)
    case None => Err(VmInvariant)
  }

  function Evaluate(e: Expr, frames: seq<Frame>, w: World, g: Setting): (r: ExprResult)
    ensures Progress(r, w, g)
    decreases e, 1
  {
    match e
    case Literal(v) => Charge(Ok(Scalar(v)), w, g)
    case Variable(name) => Charge(Read(name, frames), w, g)
    case Member(base, field) =>
      if IsArgs(base) then Charge(Argument(field, g), w, g) else
      (match Evaluate(base, frames, w, g)
       case Stops(result) => Stops(result)
       case Silent(w1) => Stuck(w1)
       case Yields(v, w1) => Charge(WatcherFlag(v, Charged(w1).ledger.watchers), w1, g))
    case Unary(op, operand) =>
      (match Evaluate(operand, frames, w, g)
       case Stops(result) => Stops(result)
       case Silent(w1) => Stuck(w1)
       case Yields(v, w1) => Charge(ApplyUnary(op, v), w1, g))
    case Binary(op, left, right) =>
      (match Evaluate(left, frames, w, g)
       case Stops(result) => Stops(result)
       case Silent(w1) => Stuck(w1)
       case Yields(a, w1) =>
         if op.And? || op.Or? then
           if !CanCharge(w1, g) then Stops(Halted(w1))
           else if !(a.Scalar? && a.scalar.Bool?) then Stuck(Charged(w1))
           else if a.scalar.flag == op.Or? then Yields(a, Charged(w1))
           else Evaluate(right, frames, Charged(w1), g)
         else
           match Evaluate(right, frames, w1, g)
           case Stops(result) => Stops(result)
           case Silent(w2) => Stuck(w2)
           case Yields(b, w2) => Charge(ApplyBinary(op, a, b, g.limits.maxStringBytes), w2, g))
    case Call(_, _) => EvaluateCall(e, frames, w, g)
  }

  function EvaluateCall(e: Expr, frames: seq<Frame>, w: World, g: Setting): (r: ExprResult)
    requires e.Call?
    ensures Progress(r, w, g)
    decreases e, 0
  {
    var name, args := e.callee, e.args;
    if name == "prompt" && |args| == 1 then
      if args[0].Literal? && args[0].value.Str? then Charge(Prompt(args[0].value.text, g), w, g) else Stuck(w)
    else if |args| == 1 || (name == "cmd" && |args| == 2) then
      match Evaluate(args[0], frames, w, g)
      case Stops(result) => Stops(result)
      case Silent(w1) => Stuck(w1)
      case Yields(v, w1) =>
        if name == "str" && |args| == 1 then Charge(FormatInteger(v, g.limits.maxStringBytes), w1, g)
        else if |args| == 2 then ChargeEffect(CmdSendOnly, v, None, w1, g)
        else if OneOperand(name).Some? then ChargeEffect(OneOperand(name).value, v, None, w1, g)
        else Stuck(w1)
    else if |args| == 2 && TwoOperands(name).Some? then
      match Evaluate(args[0], frames, w, g)
      case Stops(result) => Stops(result)
      case Silent(w1) => Stuck(w1)
      case Yields(a, w1) =>
        match Evaluate(args[1], frames, w1, g)
        case Stops(result) => Stops(result)
        case Silent(w2) => Stuck(w2)
        case Yields(b, w2) => ChargeEffect(TwoOperands(name).value, b, Some(a), w2, g)
    else Stuck(w)
  }

  // ---------- statements ----------

  function Assigned(frames: seq<Frame>, name: string, v: RuntimeValue): seq<Frame> {
    if frames == [] then []
    else if name in frames[|frames| - 1] then frames[..|frames| - 1] + [frames[|frames| - 1][name := v]]
    else Assigned(frames[..|frames| - 1], name, v) + [frames[|frames| - 1]]
  }

  function Declared(frames: seq<Frame>, name: string, v: RuntimeValue): seq<Frame> {
    if frames == [] then [] else frames[..|frames| - 1] + [frames[|frames| - 1][name := v]]
  }

  function Leave(r: StmtResult): StmtResult {
    match r
    case Aborts(_) => r
    case Ends(signal, frames, w) => Ends(signal, if frames == [] then [] else frames[..|frames| - 1], w)
  }

  /** Spend one unit and end with `signal`. */
  function Spend(signal: Signal, frames: seq<Frame>, w: World, g: Setting): StmtResult {
    if CanCharge(w, g) then Ends(signal, frames, Charged(w)) else Aborts(Halted(w))
  }

  /** A condition: its truth value once tested. */
  function Test(cond: Expr, frames: seq<Frame>, w: World, g: Setting): (r: ExprResult)
    ensures Progress(r, w, g)
    ensures !r.Silent? && (r.Yields? ==> r.value.Scalar? && r.value.scalar.Bool?)
    decreases cond, 1
  {
    match Evaluate(cond, frames, w, g)
    case Stops(result) => Stops(result)
    case Silent(w1) => Stuck(w1)
    case Yields(v, w1) =>
      if !CanCharge(w1, g) then Stops(Halted(w1))
      else if v.Scalar? && v.scalar.Bool? then Yields(v, Charged(w1))
      else Stuck(Charged(w1))
  }

  predicate NotBefore(r: StmtResult, w: World, g: Setting) {
    r.Ends? ==> Remaining(r.world, g) <= Remaining(w, g)
  }

  predicate After(r: StmtResult, w: World, g: Setting) {
    r.Ends? ==> Remaining(r.world, g) < Remaining(w, g)
  }

  function Execute(s: Statement, frames: seq<Frame>, w: World, g: Setting): (r: StmtResult)
    ensures NotBefore(r, w, g)
    ensures r.Ends? && r.signal.Continued? ==> After(r, w, g)
    decreases Remaining(w, g), s, 2
  {
    match s
    case Let(name, e) =>
      (match Evaluate(e, frames, w, g)
       case Stops(result) => Aborts(result)
       case Silent(w1) => Aborts(Fault(VmInvariant, w1))
       case Yields(v, w1) => Spend(Proceed, Declared(frames, name, v), w1, g))
    case Assign(name, e) =>
      (match Evaluate(e, frames, w, g)
       case Stops(result) => Aborts(result)
       case Silent(w1) => Aborts(Fault(VmInvariant, w1))
       case Yields(v, w1) => Spend(Proceed, Assigned(frames, name, v), w1, g))
    case Expression(e) =>
      (match Evaluate(e, frames, w, g)
       case Stops(result) => Aborts(result)
       case Silent(w1) => Ends(Proceed, frames, w1)
       case Yields(v, w1) => Spend(Proceed, frames, w1, g))
    case Block(body) => Leave(ExecuteAll(body, frames + [map[]], w, g))
    case If(cond, thenBranch, elseBranch) =>
      (match Test(cond, frames, w, g)
       case Stops(result) => Aborts(result)
       case Yields(v, w1) =>
         if v.scalar.flag then
           var r := Execute(thenBranch, frames, w1, g);
           if r.Ends? && r.signal.Proceed? && elseBranch.Some? then Spend(Proceed, r.frames, r.world, g) else r
         else ExecuteOption(elseBranch, frames, w1, g))
    case While(_, _) => Loop(s, frames, w, g)
    case For(start, _, _, _) =>
      (match ExecuteOption(start, frames + [map[]], w, g)
       case Aborts(result) => Aborts(result)
       case Ends(_, frames1, w1) => Leave(Loop(s, frames1, w1, g)))
    case Break => Spend(Broke, frames, w, g)
    case Continue => Spend(Continued, frames, w, g)
    case Empty => Spend(Proceed, frames, w, g)
  }

  function ExecuteOption(s: Option<Statement>, frames: seq<Frame>, w: World, g: Setting): (r: StmtResult)
    ensures NotBefore(r, w, g)
    ensures r.Ends? && r.signal.Continued? ==> After(r, w, g)
    decreases Remaining(w, g), s, 0
  {
    match s
    case None => Ends(Proceed, frames, w)
    case Some(inner) => Execute(inner, frames, w, g)
  }

  function ExecuteAll(body: seq<Statement>, frames: seq<Frame>, w: World, g: Setting): (r: StmtResult)
    ensures NotBefore(r, w, g)
    ensures r.Ends? && r.signal.Continued? ==> After(r, w, g)
    decreases Remaining(w, g), body, 2
  {
    if body == [] then Ends(Proceed, frames, w) else
    match Execute(body[0], frames, w, g)
    case Aborts(result) => Aborts(result)
    case Ends(signal, frames1, w1) =>
      if signal.Proceed? then ExecuteAll(body[1..], frames1, w1, g) else Ends(signal, frames1, w1)
  }

  /** `while (test) body` and `for (; bound; step) body`, from a test to the end of the loop. */
  function Loop(s: Statement, frames: seq<Frame>, w: World, g: Setting): (r: StmtResult)
    requires s.While? || s.For?
    ensures NotBefore(r, w, g)
    ensures r.Ends? ==> r.signal.Proceed?
    decreases Remaining(w, g), s, 1
  {
    match LoopBound(s)
    case None => Iterate(s, frames, w, g)
    case Some(test) =>
      match Test(test, frames, w, g)
      case Stops(result) => Aborts(result)
      case Yields(v, w1) =>
        if v.scalar.flag then Iterate(s, frames, w1, g) else Ends(Proceed, frames, w1)
  }

  /** One pass of the body, the step of a `for`, the jump back, and what follows. */
  function Iterate(s: Statement, frames: seq<Frame>, w: World, g: Setting): (r: StmtResult)
    requires s.While? || s.For?
    ensures NotBefore(r, w, g)
    ensures r.Ends? ==> r.signal.Proceed?
    decreases Remaining(w, g), s, 0
  {
    match Execute(LoopBody(s), frames, w, g)
    case Aborts(result) => Aborts(result)
    case Ends(signal, frames1, w1) =>
      if signal.Broke? then Ends(Proceed, frames1, w1)
      else if s.While? && signal.Continued? then Loop(s, frames1, w1, g)
      else
        match (if LoopStep(s).None? then Ends(Proceed, frames1, w1) else Execute(LoopStep(s).value, frames1, w1, g))
        case Aborts(result) => Aborts(result)
        case Ends(_, frames2, w2) =>
          if CanCharge(w2, g) then Loop(s, frames2, Charged(w2), g) else Aborts(Halted(w2))
  }

  /** A whole program. */
  function Meaning(program: seq<Statement>, answers: seq<Answer>, deliveries: seq<Delivery>, g: Setting): RunResult {
    match ExecuteAll(program, [map[]], World(FRESH_LEDGER, answers, [], deliveries), g)
    case Aborts(result) => result
    case Ends(_, _, w) => Finished(w)
  }
}
