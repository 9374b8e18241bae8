/** What the operators compute, in plain integers, texts and truth values: each instruction on its
    operands, and each operator of the syntax tree on the values of its operands
    (crates/serial-macro/src/vm.rs). */
module MacroOperators {
  import opened Wrappers
  import opened Numerals
  import opened MacroCore
  import opened MacroSemantics
  import opened MacroMachine
  import opened MacroPrimitives

  /** The instruction leaves `v` on `base` and changes nothing else. */
  ghost predicate Gives(m: Machine, op: Op, c: Core, base: seq<RuntimeValue>, v: Value) {
    ExecuteOp(m, op, c) == Moved(c.(stack := base + [Scalar(v)]))
  }

  ghost predicate Faults(m: Machine, op: Op, c: Core, code: ErrorCode) {
    ExecuteOp(m, op, c) == Faulted(code, c.ledger)
  }

  /** The instruction gives exactly `n`, or overflows if that is no 64-bit integer. */
  ghost predicate GivesExactly(m: Machine, op: Op, c: Core, base: seq<RuntimeValue>, n: int) {
    if -9_223_372_036_854_775_808 <= n <= 9_223_372_036_854_775_807 then Gives(m, op, c, base, Int(n))
    else Faults(m, op, c, IntegerOverflow)
  }

  lemma TwoOnTop(c: Core, base: seq<RuntimeValue>, a: RuntimeValue, b: RuntimeValue)
    requires c.stack == base + [a, b]
    ensures Peek(c.stack, 0) == Some(b) && Peek(c.stack, 1) == Some(a) && Dropped(c.stack, 2) == base && |c.stack| >= 2
  {
  }

  lemma OneOnTop(c: Core, base: seq<RuntimeValue>, a: RuntimeValue)
    requires c.stack == base + [a]
    ensures Peek(c.stack, 0) == Some(a) && Dropped(c.stack, 1) == base && c.stack != []
  {
  }

  // ---------- integers ----------

  lemma ArithmeticIsExact(m: Machine, c: Core, base: seq<RuntimeValue>, a: i64, b: i64)
    requires c.stack == base + [Scalar(Int(a)), Scalar(Int(b))]
    ensures GivesExactly(m, BinaryOperation(Add), c, base, (a as int) + b)
    ensures GivesExactly(m, BinaryOperation(Subtract), c, base, (a as int) - b)
    ensures GivesExactly(m, BinaryOperation(Multiply), c, base, (a as int) * b)
  {
    TwoOnTop(c, base, Scalar(Int(a)), Scalar(Int(b)));
  }

  lemma ComparisonsCompare(m: Machine, c: Core, base: seq<RuntimeValue>, a: i64, b: i64)
    requires c.stack == base + [Scalar(Int(a)), Scalar(Int(b))]
    ensures Gives(m, BinaryOperation(Less), c, base, Bool(a < b))
    ensures Gives(m, BinaryOperation(LessEqual), c, base, Bool(a <= b))
    ensures Gives(m, BinaryOperation(Greater), c, base, Bool(a > b))
    ensures Gives(m, BinaryOperation(GreaterEqual), c, base, Bool(a >= b))
  {
    TwoOnTop(c, base, Scalar(Int(a)), Scalar(Int(b)));
  }

  /** `q` and `r` are quotient and remainder of a division that truncates toward zero. */
  predicate Truncates(a: int, b: int, q: int, r: int) {
    a == b * q + r && (if r < 0 then -r else r) < (if b < 0 then -b else b) && (a >= 0 ==> r >= 0)
    && (a <= 0 ==> r <= 0)
  }

  lemma SmallProduct(b: int, k: int, d: int)
    requires b * k == d && b > 0 && -b < d < b
    ensures k == 0
  {
  }

  lemma OneQuotient(a: int, b: int, q: int, r: int, q1: int, r1: int)
    requires b != 0 && Truncates(a, b, q, r) && Truncates(a, b, q1, r1)
    ensures q == q1 && r == r1
  {
    assert b * (q - q1) == r1 - r;
    if b > 0 {
      SmallProduct(b, q - q1, r1 - r);
    } else {
      assert -b * (q - q1) == r - r1;
      SmallProduct(-b, q - q1, r - r1);
    }
  }

  lemma DivisionTruncates(m: Machine, c: Core, base: seq<RuntimeValue>, a: i64, b: i64, q: int, r: int)
    requires c.stack == base + [Scalar(Int(a)), Scalar(Int(b))]
    ensures b == 0 ==>
              Faults(m, BinaryOperation(Divide), c, DivisionByZero)
              && Faults(m, BinaryOperation(Remainder), c, DivisionByZero)
    ensures b == -1 && a == -9_223_372_036_854_775_808 ==>
              Faults(m, BinaryOperation(Divide), c, IntegerOverflow)
              && Faults(m, BinaryOperation(Remainder), c, IntegerOverflow)
    ensures b != 0 && !(b == -1 && a == -9_223_372_036_854_775_808) && Truncates(a, b, q, r) ==>
              -9_223_372_036_854_775_808 <= q <= 9_223_372_036_854_775_807
              && -9_223_372_036_854_775_808 <= r <= 9_223_372_036_854_775_807
              && Gives(m, BinaryOperation(Divide), c, base, Int(q))
              && Gives(m, BinaryOperation(Remainder), c, base, Int(r))
  {
    hide TruncatedQuotient, TruncatedRemainder;
    TwoOnTop(c, base, Scalar(Int(a)), Scalar(Int(b)));
    if b != 0 {
      TruncatedDivision(a, b);
      QuotientInRange(a, b);
      if Truncates(a, b, q, r) { OneQuotient(a, b, q, r, TruncatedQuotient(a, b), TruncatedRemainder(a, b)); }
    }
  }

  lemma NegationIsExact(m: Machine, c: Core, base: seq<RuntimeValue>, a: i64)
    requires c.stack == base + [Scalar(Int(a))]
    ensures GivesExactly(m, UnaryOperation(Negate), c, base, -(a as int))
  {
    OneOnTop(c, base, Scalar(Int(a)));
  }

  // ---------- truth values, texts and equality ----------

  lemma NotNegates(m: Machine, c: Core, base: seq<RuntimeValue>, b: bool)
    requires c.stack == base + [Scalar(Bool(b))]
    ensures Gives(m, UnaryOperation(Not), c, base, Bool(!b))
  {
    OneOnTop(c, base, Scalar(Bool(b)));
  }

  /** Integers, texts and truth values are equal when they are the same. */
  lemma EqualityIsIdentity(m: Machine, c: Core, base: seq<RuntimeValue>, x: Value, y: Value)
    requires c.stack == base + [Scalar(x), Scalar(y)]
    ensures Gives(m, BinaryOperation(Equal), c, base, Bool(x == y))
    ensures Gives(m, BinaryOperation(NotEqual), c, base, Bool(x != y))
  {
    TwoOnTop(c, base, Scalar(x), Scalar(y));
  }

  lemma ConcatenationJoins(m: Machine, c: Core, base: seq<RuntimeValue>, s: string, t: string)
    requires c.stack == base + [Scalar(Str(s)), Scalar(Str(t))]
    ensures if Utf8Len(s + t) <= m.program.limits.maxStringBytes then
              Gives(m, BinaryOperation(Add), c, base, Str(s + t))
            else Faults(m, BinaryOperation(Add), c, StringLimit)
  {
    TwoOnTop(c, base, Scalar(Str(s)), Scalar(Str(t)));
    Utf8LenConcat(s, t);
  }

  /** Operands of other types are refused, whatever the operator. */
  lemma MixedOperandsFault(m: Machine, c: Core, base: seq<RuntimeValue>, op: BinaryOp, x: Value, y: Value)
    requires c.stack == base + [Scalar(x), Scalar(y)]
    requires op !in {Equal, NotEqual} && !(x.Int? && y.Int?) && !(op == Add && x.Str? && y.Str?)
    ensures Faults(m, BinaryOperation(op), c, VmInvariant)
  {
    TwoOnTop(c, base, Scalar(x), Scalar(y));
  }

  // ---------- texts of integers ----------

  /** `text` writes `n` in decimal: a sign if it is negative, and digits without leading zeros. */
  predicate IsNumeral(text: string, n: int) {
    if n < 0 then text != [] && text[0] == '-' && IsDigits(text[1..], -n) else IsDigits(text, n)
  }

  predicate IsDigits(text: string, n: nat) {
    && text != [] && (forall i :: 0 <= i < |text| ==> IsDigit(text[i]))
    && (|text| > 1 ==> text[0] != '0') && NumberOf(text) == n
  }

  lemma {:induction false} OneNumeral(text: string, n: nat)
    requires IsDigits(text, n)
    ensures text == Digits(n)
  {
    var front, last := text[..|text| - 1], text[|text| - 1] as int - '0' as int;
    if |text| > 1 {
      assert front[0] == text[0] && forall i :: 0 <= i < |front| ==> front[i] == text[i];
      NonZero(front);
      OneNumeral(front, NumberOf(front));
      assert n / 10 == NumberOf(front) && n % 10 == last;
      assert text == front + [text[|text| - 1]];
    } else {
      assert front == [] && NumberOf(front) == 0;
    }
  }

  lemma {:induction false} NonZero(text: string)
    requires text != [] && text[0] != '0' && forall i :: 0 <= i < |text| ==> IsDigit(text[i])
    ensures NumberOf(text) > 0
  {
    var front := text[..|text| - 1];
    if |text| > 1 {
      assert front[0] == text[0] && forall i :: 0 <= i < |front| ==> front[i] == text[i];
      NonZero(front);
    } else {
      assert NumberOf(front) == 0;
    }
  }

  lemma {:induction false} DigitsAreNumeral(n: nat)
    ensures IsDigits(Digits(n), n)
  {
    DigitsRead(n);
    if n >= 10 { DigitsAreNumeral(n / 10); }
  }

  lemma TextOfInteger(m: Machine, c: Core, base: seq<RuntimeValue>, n: i64, text: string)
    requires c.stack == base + [Scalar(Int(n))] && IsNumeral(text, n)
    ensures if Utf8Len(text) <= m.program.limits.maxStringBytes then Gives(m, IntegerToString, c, base, Str(text))
            else Faults(m, IntegerToString, c, StringLimit)
  {
    OneOnTop(c, base, Scalar(Int(n)));
    if n < 0 {
      OneNumeral(text[1..], -(n as int));
      assert text == "-" + text[1..];
    } else {
      OneNumeral(text, n);
    }
  }

  lemma NumeralExists(n: i64)
    ensures exists text :: IsNumeral(text, n)
  {
    if n < 0 {
      DigitsAreNumeral(-(n as int));
      var text := "-" + Digits(-(n as int));
      assert text[1..] == Digits(-(n as int));
      assert IsNumeral(text, n);
    } else {
      DigitsAreNumeral(n);
      assert IsNumeral(Digits(n), n);
    }
  }

  // ---------- inputs and flags ----------

  lemma InputsAreGiven(m: Machine, c: Core, name: string)
    ensures name in m.args ==> Gives(m, Arg(name), c, c.stack, m.args[name])
    ensures name in m.prompts ==> Gives(m, PromptOp(name), c, c.stack, Str(m.prompts[name]))
  {
    assert Dropped(c.stack, 0) == c.stack;
  }

  lemma FlagIsRead(m: Machine, c: Core, base: seq<RuntimeValue>, id: nat)
    requires c.stack == base + [Watcher(id)]
    ensures if id < |c.ledger.watchers| then Gives(m, MatchedOp, c, base, Bool(c.ledger.watchers[id]))
            else Faults(m, MatchedOp, c, UnknownWatcher)
  {
    OneOnTop(c, base, Watcher(id));
  }

  // ---------- in the syntax tree ----------

  /** An operator of the tree has the result of its instruction. */
  lemma OperatorInTree(m: Machine, c: Core, base: seq<RuntimeValue>, e: Expr, frames: seq<Frame>, w: World,
                       a: RuntimeValue, w1: World, b: RuntimeValue, w2: World)
    requires e.Binary? && e.bop !in {And, Or} && c.stack == base + [a, b]
    requires Evaluate(e.left, frames, w, m.Setting()) == Yields(a, w1)
    requires Evaluate(e.right, frames, w1, m.Setting()) == Yields(b, w2) && CanCharge(w2, m.Setting())
    ensures forall v :: Gives(m, BinaryOperation(e.bop), c, base, v) ==>
              Evaluate(e, frames, w, m.Setting()) == Yields(Scalar(v), Charged(w2))
    ensures forall code :: Faults(m, BinaryOperation(e.bop), c, code) ==>
              Evaluate(e, frames, w, m.Setting()) == Stops(Fault(code, Charged(w2)))
  {
    hide MarkAll, BinaryValue, Delivered;
    TwoOnTop(c, base, a, b);
    LastIsLast(base);
  }

  lemma LastIsLast(base: seq<RuntimeValue>)
    ensures forall x, y :: base + [x] == base + [y] ==> x == y
  {
    forall x, y | base + [x] == base + [y] ensures x == y {
      assert (base + [x])[|base|] == (base + [y])[|base|];
    }
  }

  /** A name stands for its innermost declaration. */
  lemma InnermostIsRead(name: string, frames: seq<Frame>, k: nat, w: World, g: Setting)
    requires k < |frames| && name in frames[k] && (forall j | k < j < |frames| :: name !in frames[j]) && CanCharge(w, g)
    ensures Evaluate(Variable(name), frames, w, g) == Yields(frames[k][name], Charged(w))
  {
    InnermostFound(name, frames, k);
  }

  lemma {:induction false} InnermostFound<V>(name: string, frames: seq<map<string, V>>, k: nat)
    requires k < |frames| && name in frames[k] && forall j | k < j < |frames| :: name !in frames[j]
    ensures Lookup(frames, name) == Some(frames[k][name])
    decreases |frames|
  {
    if k < |frames| - 1 { InnermostFound(name, frames[..|frames| - 1], k); }
  }

  /** Arguments, prompts, flags and texts of integers in the tree. */
  lemma InputsInTree(name: string, frames: seq<Frame>, w: World, g: Setting)
    requires CanCharge(w, g)
    ensures name in g.args ==>
              Evaluate(Member(Variable("args"), name), frames, w, g) == Yields(Scalar(g.args[name]), Charged(w))
    ensures name in g.prompts ==>
              Evaluate(Call("prompt", [Literal(Str(name))]), frames, w, g) ==
                Yields(Scalar(Str(g.prompts[name])), Charged(w))
  {
  }

  lemma FlagInTree(e: Expr, id: nat, frames: seq<Frame>, w: World, w1: World, g: Setting)
    requires !IsArgs(e) && Evaluate(e, frames, w, g) == Yields(Watcher(id), w1) && CanCharge(w1, g)
    requires id < |w1.ledger.watchers|
    ensures Evaluate(Member(e, "matched"), frames, w, g)
         == Yields(Scalar(Bool(Charged(w1).ledger.watchers[id])), Charged(w1))
  {
  }

  lemma TextCalls(e: Expr, v: RuntimeValue, frames: seq<Frame>, w: World, w1: World, g: Setting)
    requires Evaluate(e, frames, w, g) == Yields(v, w1)
    ensures Evaluate(Call("str", [e]), frames, w, g) == Charge(FormatInteger(v, g.limits.maxStringBytes), w1, g)
  {
    hide FormatInteger, Charge;
  }

  lemma TextInTree(e: Expr, n: i64, text: string, frames: seq<Frame>, w: World, w1: World, g: Setting)
    requires Evaluate(e, frames, w, g) == Yields(Scalar(Int(n)), w1) && CanCharge(w1, g) && IsNumeral(text, n)
    ensures Evaluate(Call("str", [e]), frames, w, g)
         == if Utf8Len(text) <= g.limits.maxStringBytes then Yields(Scalar(Str(text)), Charged(w1))
            else Stops(Fault(StringLimit, Charged(w1)))
  {
    hide Utf8Len, NumberOf, Delivered;
    TextCalls(e, Scalar(Int(n)), frames, w, w1, g);
    hide Evaluate;
    if n < 0 {
      OneNumeral(text[1..], -(n as int));
      assert text == "-" + text[1..];
    } else {
      OneNumeral(text, n);
    }
  }

  // ---------- which effect each name issues ----------

  /** The effect of this kind is issued under the next ID, and its answer is what the call gives. */
  ghost predicate Hands(r: ExprResult, w: World, kind: EffectKind) {
    var effect := Effect(w.ledger.nextEffect, kind);
    exists ledger :: r == Answered(effect, w.(ledger := ledger, trace := w.trace + [effect]))
  }

  /** Nothing is issued and the run ends with this failure. */
  ghost predicate Refuses(r: ExprResult, w: World, code: ErrorCode) {
    r.Stops? && r.result.outcome == Failed(code) && r.result.world.trace == w.trace
  }

  predicate IdLeft(ledger: Ledger) {
    ledger.nextEffect < 18_446_744_073_709_551_615
  }

  /** Why a command cannot be sent: its length, a control character, the byte budget, or no ID is left. */
  function SendFault(text: string, ledger: Ledger, limits: Limits): Option<ErrorCode> {
    if Utf8Len(text) > limits.maxStringBytes then Some(StringLimit)
    else if exists c | c in text :: c as int < 32 || 127 <= c as int <= 159 then Some(CommandControlCharacter)
    else if ledger.commandBytes + Utf8Len(text) > limits.maxTotalCommandBytes then Some(TxBudget)
    else if !IdLeft(ledger) then Some(EffectBudget)
    else None
  }

  lemma ControlsAre(text: string)
    ensures HasControl(text) <==> exists c | c in text :: c as int < 32 || 127 <= c as int <= 159
  {
    if HasControl(text) {
      var i :| 0 <= i < |text| && IsControl(text[i]);
      assert text[i] in text;
    }
    if c :| c in text && (c as int < 32 || 127 <= c as int <= 159) {
      var i :| 0 <= i < |text| && text[i] == c;
      assert IsControl(text[i]);
    }
  }

  /** `cmd(text)` sends with its echo verified, `cmd(text, "send_only")` without. */
  lemma CommandsSend(arg: Expr, text: string, frames: seq<Frame>, w: World, w1: World, g: Setting)
    requires Evaluate(arg, frames, w, g) == Yields(Scalar(Str(text)), w1) && CanCharge(w1, g)
    ensures var w2 := Charged(w1);
            var plain := Evaluate(Call("cmd", [arg]), frames, w, g);
            var sendOnly := Evaluate(Call("cmd", [arg, Literal(Str("send_only"))]), frames, w, g);
            match SendFault(text, w2.ledger, g.limits)
            case None => Hands(plain, w2, CommandEffect(text, true)) && Hands(sendOnly, w2, CommandEffect(text, false))
            case Some(code) => Refuses(plain, w2, code) && Refuses(sendOnly, w2, code)
  {
    hide Utf8Len, HasControl, Answered, MarkAll;
    ControlsAre(text);
    OneArgumentCalls(Call("cmd", [arg]), frames, w, g);
    OneArgumentCalls(Call("cmd", [arg, Literal(Str("send_only"))]), frames, w, g);
    hide Evaluate;
  }

  lemma OneArgumentCalls(e: Expr, frames: seq<Frame>, w: World, g: Setting)
    requires e.Call? && (|e.args| == 1 || (|e.args| == 2 && e.callee == "cmd")) && e.callee in {"cmd", "watch", "delay"}
    requires Evaluate(e.args[0], frames, w, g).Yields?
    ensures var r := Evaluate(e.args[0], frames, w, g);
            Evaluate(e, frames, w, g) ==
              ChargeEffect(if |e.args| == 2 then CmdSendOnly else if e.callee == "cmd" then Cmd
                           else if e.callee == "watch" then Watch else Delay, r.value, None, r.world, g)
  {
    hide ChargeEffect;
  }

  lemma TwoArgumentCalls(e: Expr, frames: seq<Frame>, w: World, w1: World, g: Setting)
    requires e.Call? && |e.args| == 2 && e.callee in {"wait", "expect"}
    requires Evaluate(e.args[0], frames, w, g).Yields? && Evaluate(e.args[0], frames, w, g).world == w1
    requires Evaluate(e.args[1], frames, w1, g).Yields?
    ensures var a, b := Evaluate(e.args[0], frames, w, g), Evaluate(e.args[1], frames, w1, g);
            Evaluate(e, frames, w, g) ==
              ChargeEffect(if e.callee == "wait" then Wait else Expect, b.value, Some(a.value), b.world, g)
  {
    hide ChargeEffect;
  }

  /** `watch(pattern)` creates the next watcher for the pattern. */
  lemma WatchCreates(arg: Expr, pattern: string, frames: seq<Frame>, w: World, w1: World, g: Setting)
    requires Evaluate(arg, frames, w, g) == Yields(Scalar(Str(pattern)), w1) && CanCharge(w1, g)
    ensures var w2 := Charged(w1);
            var r := Evaluate(Call("watch", [arg]), frames, w, g);
            if pattern == "" then Refuses(r, w2, EmptyPattern)
            else if |w2.ledger.watchers| >= g.limits.maxWatchers then Refuses(r, w2, WatcherBudget)
            else if !IdLeft(w2.ledger) then Refuses(r, w2, EffectBudget)
            else Hands(r, w2, WatchEffect(|w2.ledger.watchers|, pattern))
  {
    hide Answered, MarkAll;
    OneArgumentCalls(Call("watch", [arg]), frames, w, g);
    hide Evaluate;
  }

  /** `delay(ms)` delays, for a duration within the limit. */
  lemma DelayDelays(arg: Expr, ms: i64, frames: seq<Frame>, w: World, w1: World, g: Setting)
    requires Evaluate(arg, frames, w, g) == Yields(Scalar(Int(ms)), w1) && CanCharge(w1, g)
    ensures var w2 := Charged(w1);
            var r := Evaluate(Call("delay", [arg]), frames, w, g);
            if !(0 <= ms <= g.limits.maxDurationMs) then Refuses(r, w2, DurationLimit)
            else if !IdLeft(w2.ledger) then Refuses(r, w2, EffectBudget)
            else Hands(r, w2, DelayEffect(ms))
  {
    hide Answered, MarkAll;
    OneArgumentCalls(Call("delay", [arg]), frames, w, g);
    hide Evaluate;
  }

  /** `wait(watcher, ms)` waits for that watcher and goes on either way; `expect(watcher, ms)` is strict. */
  lemma WaitsWait(left: Expr, right: Expr, id: nat, ms: i64, frames: seq<Frame>, w: World, w0: World, w1: World,
                  g: Setting)
    requires Evaluate(left, frames, w, g) == Yields(Watcher(id), w0)
    requires Evaluate(right, frames, w0, g) == Yields(Scalar(Int(ms)), w1) && CanCharge(w1, g)
    ensures var w2 := Charged(w1);
            var wait := Evaluate(Call("wait", [left, right]), frames, w, g);
            var strict := Evaluate(Call("expect", [left, right]), frames, w, g);
            if !(0 <= ms <= g.limits.maxDurationMs) then
              Refuses(wait, w2, DurationLimit) && Refuses(strict, w2, DurationLimit)
            else if !IdLeft(w2.ledger) then Refuses(wait, w2, EffectBudget) && Refuses(strict, w2, EffectBudget)
            else Hands(wait, w2, WaitEffect(id, ms, false)) && Hands(strict, w2, WaitEffect(id, ms, true))
  {
    hide Answered, MarkAll;
    TwoArgumentCalls(Call("wait", [left, right]), frames, w, w0, g);
    TwoArgumentCalls(Call("expect", [left, right]), frames, w, w0, g);
    hide Evaluate;
  }
}
