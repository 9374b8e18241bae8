/** Shared vocabulary of Macro Script v1: values, limits, effects and error codes
    (crates/serial-macro/src/lib.rs), the syntax tree (syntax.rs) and the primitive
    operations that both the source semantics and the machine perform on values and
    on the run's counters (vm.rs).

    Spans and message texts are dropped; an error is its code. */
module MacroCore {
  import opened Wrappers
  import opened Numerals

  datatype Result<+T> = Ok(value: T) | Err(code: ErrorCode) {
    predicate IsFailure() { Err? }

    function PropagateFailure<U>(): Result<U>
      requires Err?
    {
      Err(code)
    }

    function Extract(): T
      requires Ok?
    {
      value
    }
  }

  /** The `&'static str` codes. `IndexPanic` is not a code of the crate: it stands for a
      Rust index panic (`args[&name]`, `prompts[&name]`, `variables[index]`), so that the
      model is total and the absence of panics is a theorem. */
  datatype ErrorCode =
    | IndexPanic
    | VmInvariant
    | UnknownWatcher
    | StackLimit
    | InstructionBudget
    | StringLimit
    | CommandControlCharacter
    | TxBudget
    | EffectBudget
    | EmptyPattern
    | WatcherBudget
    | DurationLimit
    | IntegerOverflow
    | DivisionByZero
    | EffectProtocol
    | EffectFailed
    | ExpectTimeout
    | Interrupted
    | SourceLimit
    | UnterminatedString
    | InvalidEscape
    | InvalidString
    | UnexpectedCharacter
    | SyntaxError
    | NestingLimit
    | InvalidLimits
    | InvalidParameter
    | ParameterLimit
    | DuplicateVariable
    | TypeError
    | VariableLimit
    | InvalidLoopControl
    | UnknownVariable
    | UnknownParameter
    | UnknownField
    | UnknownFunction
    | UnknownPrompt
    | ArgumentCount
    | InvalidCommandMode
    | StaticPromptRequired
    | MissingParameter
    | ParameterType
    | MissingPrompt

  // ---------- integers and strings ----------

  const I64_MIN := -0x8000_0000_0000_0000
  const I64_MAX := 0x7FFF_FFFF_FFFF_FFFF
  const U64_MAX := 0xFFFF_FFFF_FFFF_FFFF

  type i64 = n: int | I64_MIN <= n <= I64_MAX

  /** UTF-8 length of one Unicode scalar value. */
  function CharBytes(c: char): nat {
    if c as int < 0x80 then 1
    else if c as int < 0x800 then 2
    else if c as int < 0x1_0000 then 3
    else 4
  }

  /** `str::len`: the length in UTF-8 bytes. */
  function Utf8Len(s: string): nat {
    if s == [] then 0 else CharBytes(s[0]) + Utf8Len(s[1..])
  }

  lemma {:induction false} Utf8LenConcat(a: string, b: string)
    ensures Utf8Len(a + b) == Utf8Len(a) + Utf8Len(b)
  {
    if a == [] {
      assert a + b == b;
    } else {
      assert (a + b)[1..] == a[1..] + b;
      Utf8LenConcat(a[1..], b);
    }
  }

  /** `char::is_control`: Unicode general category Cc. */
  predicate IsControl(c: char) {
    c as int < 0x20 || 0x7F <= c as int < 0xA0
  }

  // ---------- characters and numerals ----------

  predicate IsLetter(c: char) {
    'a' <= c <= 'z' || 'A' <= c <= 'Z'
  }

  predicate IsNameStart(c: char) {
    IsLetter(c) || c == '_'
  }

  predicate IsNamePart(c: char) {
    IsNameStart(c) || IsDigit(c)
  }

  predicate IsName(name: string) {
    name != [] && IsNameStart(name[0]) && forall k :: 0 <= k < |name| ==> IsNamePart(name[k])
  }

  /** `i64::to_string`. */
  function Decimal(n: i64): string {
    if n < 0 then "-" + Digits(-(n as int)) else Digits(n)
  }

  // ---------- values ----------

  datatype ValueType = StringType | IntegerType | BooleanType

  datatype Value = Str(text: string) | Int(number: i64) | Bool(flag: bool) {
    function Type(): ValueType {
      match this
      case Str(_) => StringType
      case Int(_) => IntegerType
      case Bool(_) => BooleanType
    }
  }

  predicate ShortText(v: Value, max: nat) {
    v.Str? ==> Utf8Len(v.text) <= max
  }

  datatype RuntimeValue = Scalar(scalar: Value) | Watcher(id: nat)

  datatype Limits = Limits(
    maxSourceBytes: nat,
    maxStringBytes: nat,
    maxNesting: nat,
    maxVariables: nat,
    maxWatchers: nat,
    maxInstructions: nat,
    instructionsPerYield: nat,
    maxDurationMs: nat,
    maxTotalCommandBytes: nat
  )

  // ---------- syntax tree ----------

  datatype UnaryOp = Negate | Not

  datatype BinaryOp =
    | Add | Subtract | Multiply | Divide | Remainder
    | Equal | NotEqual
    | Less | LessEqual | Greater | GreaterEqual
    | And | Or

  datatype Expr =
    | Literal(value: Value)
    | Variable(name: string)
    | Member(base: Expr, field: string)
    | Unary(uop: UnaryOp, operand: Expr)
    | Binary(bop: BinaryOp, left: Expr, right: Expr)
    | Call(callee: string, args: seq<Expr>)

  datatype Statement =
    | Let(name: string, init: Expr)
    | Assign(target: string, value: Expr)
    | Expression(expr: Expr)
    | Block(body: seq<Statement>)
    | If(cond: Expr, thenBranch: Statement, elseBranch: Option<Statement>)
    | While(test: Expr, loopBody: Statement)
    | For(start: Option<Statement>, bound: Option<Expr>, step: Option<Statement>, forBody: Statement)
    | Break
    | Continue
    | Empty

  /** The parts a `while` and a `for` have in common. */
  function LoopBound(s: Statement): Option<Expr>
    requires s.While? || s.For?
  {
    if s.While? then Some(s.test) else s.bound
  }

  function LoopBody(s: Statement): Statement
    requires s.While? || s.For?
  {
    if s.While? then s.loopBody else s.forBody
  }

  function LoopStep(s: Statement): Option<Statement>
    requires s.While? || s.For?
  {
    if s.While? then None else s.step
  }

  predicate Reserved(name: string) {
    name in {"let", "if", "else", "for", "while", "break", "continue", "true", "false",
             "args", "return", "fn", "function", "import", "eval"}
  }

  predicate BuiltinName(name: string) {
    name in {"cmd", "watch", "prompt", "wait", "expect", "delay", "str"}
  }

  // ---------- effects ----------

  datatype Builtin = Cmd | CmdSendOnly | Watch | Wait | Expect | Delay

  datatype EffectKind =
    | CommandEffect(text: string, verifyEcho: bool)
    | WatchEffect(watcher: nat, pattern: string)
    | WaitEffect(awaited: nat, timeoutMs: nat, strict: bool)
    | DelayEffect(durationMs: nat)

  datatype Effect = Effect(id: nat, kind: EffectKind)

  datatype EffectResult = Done | Matched(matched: bool)

  /** What the driver does with a pending effect: `resume`, `fail_effect` or `interrupt`. */
  datatype Reply =
    | Resume(id: nat, result: EffectResult)
    | FailEffect(failedId: nat)
    | Interrupt

  /** The run's counters: the part of the machine that effects change. */
  datatype Ledger = Ledger(
    watchers: seq<bool>,
    instructions: nat,
    commandBytes: nat,
    commandEffects: nat,
    nextEffect: nat
  )

  const FRESH_LEDGER := Ledger([], 0, 0, 0, 1)

  // ---------- primitive operations ----------

  function Checked(n: int): Result<Value> {
    if I64_MIN <= n <= I64_MAX then Ok(Int(n)) else Err(IntegerOverflow)
  }

  function Magnitude(n: int): nat {
    if n < 0 then -n else n
  }

  /** Rust's `/` and `%` truncate toward zero; the remainder has the dividend's sign. */
  function TruncatedQuotient(a: int, b: int): int
    requires b != 0
  {
    if (a < 0) == (b < 0) then Magnitude(a) / Magnitude(b) else -(Magnitude(a) / Magnitude(b))
  }

  function TruncatedRemainder(a: int, b: int): int
    requires b != 0
  {
    if a < 0 then -(Magnitude(a) % Magnitude(b)) else Magnitude(a) % Magnitude(b)
  }

  function IntegerBinary(op: BinaryOp, a: i64, b: i64): Result<Value> {
    match op
    case Add => Checked(a + b)
    case Subtract => Checked(a - b)
    case Multiply => Checked(a * b)
    case Divide => if b == 0 then Err(DivisionByZero) else Checked(TruncatedQuotient(a, b))
    case Remainder =>
      if b == 0 then Err(DivisionByZero)
      else if a == I64_MIN && b == -1 then Err(IntegerOverflow)
      else Checked(TruncatedRemainder(a, b))
    case Less => Ok(Bool(a < b))
    case LessEqual => Ok(Bool(a <= b))
    case Greater => Ok(Bool(a > b))
    case GreaterEqual => Ok(Bool(a >= b))
    case _ => Err(VmInvariant)
  }

  function BinaryValue(op: BinaryOp, left: Value, right: Value, maxStringBytes: nat): Result<Value> {
    match (op, left, right)
    case (Equal, _, _) => Ok(Bool(left == right))
    case (NotEqual, _, _) => Ok(Bool(left != right))
    case (Add, Str(a), Str(b)) =>
      if Utf8Len(a) + Utf8Len(b) > maxStringBytes then Err(StringLimit) else Ok(Str(a + b))
    case (_, Int(a), Int(b)) => IntegerBinary(op, a, b)
    case _ => Err(VmInvariant)
  }

  function ScalarResult(r: Result<Value>): Result<RuntimeValue> {
    match r
    case Ok(v) => Ok(Scalar(v))
    case Err(code) => Err(code)
  }

  function ApplyBinary(op: BinaryOp, left: RuntimeValue, right: RuntimeValue,
                       maxStringBytes: nat): Result<RuntimeValue> {
    if left.Scalar? && right.Scalar?
    then ScalarResult(BinaryValue(op, left.scalar, right.scalar, maxStringBytes))
    else Err(VmInvariant)
  }

  function ApplyUnary(op: UnaryOp, operand: RuntimeValue): Result<RuntimeValue> {
    match (op, operand)
    case (Not, Scalar(Bool(b))) => Ok(Scalar(Bool(!b)))
    case (Negate, Scalar(Int(n))) => ScalarResult(Checked(-(n as int)))
    case _ => Err(VmInvariant)
  }

  function FormatInteger(operand: RuntimeValue, maxStringBytes: nat): Result<RuntimeValue> {
    match operand
    case Scalar(Int(n)) =>
      if Utf8Len(Decimal(n)) > maxStringBytes then Err(StringLimit) else Ok(Scalar(Str(Decimal(n))))
    case _ => Err(VmInvariant)
  }

  function WatcherFlag(operand: RuntimeValue, watchers: seq<bool>): Result<RuntimeValue> {
    match operand
    case Watcher(id) => if id < |watchers| then Ok(Scalar(Bool(watchers[id]))) else Err(UnknownWatcher)
    case _ => Err(VmInvariant)
  }

  predicate HasControl(text: string) {
    exists i :: 0 <= i < |text| && IsControl(text[i])
  }

  /** `validate_command`: the reason a command text is refused, if it is. */
  function CommandFault(text: string, maxBytes: nat): Option<ErrorCode> {
    if Utf8Len(text) > maxBytes then Some(StringLimit)
    else if HasControl(text) then Some(CommandControlCharacter)
    else None
  }

  /** `pop_duration` on an operand that is already off the stack. */
  function Duration(operand: RuntimeValue, maxDurationMs: nat): Result<nat> {
    match operand
    case Scalar(Int(ms)) => if 0 <= ms <= maxDurationMs then Ok(ms) else Err(DurationLimit)
    case _ => Err(VmInvariant)
  }

  datatype Issue = Issued(effect: Effect, ledger: Ledger) | Refused(code: ErrorCode, ledger: Ledger)

  /** The shared tail of `Vm::call`: take the next effect ID. */
  function Stamp(kind: EffectKind, ledger: Ledger): Issue {
    if ledger.nextEffect >= U64_MAX then Refused(EffectBudget, ledger)
    else Issued(Effect(ledger.nextEffect, kind), ledger.(nextEffect := ledger.nextEffect + 1))
  }

  /** `Vm::call` on its operands: `top` is popped first, `below` second. `None` is an empty stack. */
  function IssueEffect(builtin: Builtin, top: Option<RuntimeValue>, below: Option<RuntimeValue>,
                       ledger: Ledger, limits: Limits): Issue
  {
    if top.None? then Refused(VmInvariant, ledger) else
    match builtin
    case Cmd => IssueCommand(top.value, true, ledger, limits)
    case CmdSendOnly => IssueCommand(top.value, false, ledger, limits)
    case Watch => IssueWatch(top.value, ledger, limits)
    case Wait => IssueWait(top.value, below, false, ledger, limits)
    case Expect => IssueWait(top.value, below, true, ledger, limits)
    case Delay =>
      match Duration(top.value, limits.maxDurationMs)
      case Err(code) => Refused(code, ledger)
      case Ok(ms) => Stamp(DelayEffect(ms), ledger)
  }

  function IssueCommand(operand: RuntimeValue, verifyEcho: bool, ledger: Ledger, limits: Limits): Issue {
    match operand
    case Scalar(Str(text)) =>
      (match CommandFault(text, limits.maxStringBytes)
       case Some(code) => Refused(code, ledger)
       case None =>
         var bytes := ledger.commandBytes + Utf8Len(text);
         if bytes > limits.maxTotalCommandBytes then Refused(TxBudget, ledger)
         else Stamp(CommandEffect(text, verifyEcho),
                    ledger.(commandBytes := bytes, commandEffects := ledger.commandEffects + 1)))
    case _ => Refused(VmInvariant, ledger)
  }

  function IssueWatch(operand: RuntimeValue, ledger: Ledger, limits: Limits): Issue {
    match operand
    case Scalar(Str(pattern)) =>
      if pattern == "" then Refused(EmptyPattern, ledger)
      else if |ledger.watchers| >= limits.maxWatchers then Refused(WatcherBudget, ledger)
      else Stamp(WatchEffect(|ledger.watchers|, pattern), ledger.(watchers := ledger.watchers + [false]))
    case _ => Refused(VmInvariant, ledger)
  }

  function IssueWait(duration: RuntimeValue, watcher: Option<RuntimeValue>, strict: bool,
                     ledger: Ledger, limits: Limits): Issue
  {
    match Duration(duration, limits.maxDurationMs)
    case Err(code) => Refused(code, ledger)
    case Ok(ms) =>
      match watcher
      case Some(Watcher(id)) => Stamp(WaitEffect(id, ms, strict), ledger)
      case _ => Refused(VmInvariant, ledger)
  }

  function Arity(builtin: Builtin): nat {
    if builtin in {Wait, Expect} then 2 else 1
  }

  /** What an acknowledgement does to the machine: push a value or not, or fail. */
  datatype Ack = Accepted(push: Option<RuntimeValue>, ledger: Ledger) | Rejected(code: ErrorCode, ledger: Ledger)

  /** `resume_inner`, `fail_effect` and `interrupt` while `effect` is pending. */
  function Acknowledge(effect: Effect, reply: Reply, ledger: Ledger): Ack {
    match reply
    case Interrupt => Rejected(Interrupted, ledger)
    case FailEffect(id) => Rejected(if id == effect.id then EffectFailed else EffectProtocol, ledger)
    case Resume(id, result) =>
      if id != effect.id then Rejected(EffectProtocol, ledger) else
      match (effect.kind, result)
      case (CommandEffect(_, _), Done) => Accepted(None, ledger)
      case (DelayEffect(_), Done) => Accepted(None, ledger)
      case (WatchEffect(watcher, _), Done) => Accepted(Some(Watcher(watcher)), ledger)
      case (WaitEffect(watcher, _, strict), Matched(matched)) =>
        AcknowledgeWait(watcher, strict, matched, ledger)
      case _ => Rejected(EffectProtocol, ledger)
  }

  function AcknowledgeWait(watcher: nat, strict: bool, matched: bool, ledger: Ledger): Ack {
    if watcher >= |ledger.watchers| then Rejected(UnknownWatcher, ledger) else
    var after := if matched then ledger.(watchers := ledger.watchers[watcher := true]) else ledger;
    if !strict then Accepted(Some(Scalar(Bool(matched))), after)
    else if matched then Accepted(None, after)
    else Rejected(ExpectTimeout, after)
  }

  /** `mark_matched`: an ID that was never created is reported to the driver and changes nothing. */
  function Mark(watchers: seq<bool>, watcher: nat): (marked: seq<bool>)
    ensures |marked| == |watchers|
  {
    if watcher < |watchers| then watchers[watcher := true] else watchers
  }

  function MarkAll(watchers: seq<bool>, marks: seq<nat>): (marked: seq<bool>)
    ensures |marked| == |watchers|
    decreases |marks|
  {
    if marks == [] then watchers else MarkAll(Mark(watchers, marks[0]), marks[1..])
  }

  // ---------- lexical scopes ----------

  /** Innermost declaration first (`Compiler::lookup`). */
  function Lookup<V>(scopes: seq<map<string, V>>, name: string): Option<V> {
    if scopes == [] then None
    else if name in scopes[|scopes| - 1] then Some(scopes[|scopes| - 1][name])
    else Lookup(scopes[..|scopes| - 1], name)
  }
}
