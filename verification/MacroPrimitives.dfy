/** What the primitive operations that tree and machine share are, said without their definitions:
    integer arithmetic and formatting, acknowledgements, and the issuing of effects
    (crates/serial-macro/src/vm.rs). */
module MacroPrimitives {
  import opened Wrappers
  import opened Numerals
  import opened MacroCore

  // ---------- integers ----------

  predicate InRange(n: int) {
    I64_MIN <= n <= I64_MAX
  }

  lemma Division(x: nat, y: nat)
    requires y > 0
    ensures x == y * (x / y) + x % y && x % y < y
  {
  }

  lemma Times(y: nat, q: nat, k: nat)
    requires y >= k
    ensures y * q >= k * q
  {
    assert (y - k) * q >= 0;
    assert (y - k) * q == y * q - k * q;
  }

  /** A quotient is at most its dividend, and less when the divisor is more than one. */
  lemma SmallQuotient(x: nat, y: nat)
    requires y > 0
    ensures 0 <= x / y <= x && (y > 1 && x > 0 ==> x / y < x)
  {
    Division(x, y);
    var q := x / y;
    Times(y, q, 1);
    if y > 1 { Times(y, q, 2); }
  }

  /** Quotient and remainder truncate toward zero: together they give back the dividend, the remainder
      is smaller than the divisor and has the dividend's sign. */
  lemma TruncatedDivision(a: int, b: int)
    requires b != 0
    ensures var q, r := TruncatedQuotient(a, b), TruncatedRemainder(a, b);
            a == b * q + r && Magnitude(r) < Magnitude(b) && (a >= 0 ==> r >= 0) && (a <= 0 ==> r <= 0)
  {
    var x, y := Magnitude(a), Magnitude(b);
    Division(x, y);
    var q: int := x / y;
    Signs(y, q);
    if (a < 0) == (b < 0) {
      assert TruncatedQuotient(a, b) == q;
    } else {
      assert TruncatedQuotient(a, b) == -q;
    }
  }

  lemma Signs(y: int, q: int)
    ensures -y * q == -(y * q) && y * -q == -(y * q) && -y * -q == y * q
  {
  }

  /** Division of two 64-bit integers fails for a zero divisor and for the one quotient out of range. */
  lemma DivisionFailsExactly(a: i64, b: i64)
    ensures IntegerBinary(Divide, a, b).Err? <==> b == 0 || (a == I64_MIN && b == -1)
    ensures IntegerBinary(Remainder, a, b).Err? <==> b == 0 || (a == I64_MIN && b == -1)
    ensures IntegerBinary(Divide, a, b).Ok? ==>
              IntegerBinary(Divide, a, b).value.Int? && IntegerBinary(Remainder, a, b).value.Int?
              && a == b * IntegerBinary(Divide, a, b).value.number + IntegerBinary(Remainder, a, b).value.number
  {
    if b != 0 {
      TruncatedDivision(a, b);
      QuotientInRange(a, b);
    }
  }

  lemma QuotientInRange(a: i64, b: i64)
    requires b != 0
    ensures InRange(TruncatedQuotient(a, b)) <==> !(a == I64_MIN && b == -1)
    ensures InRange(TruncatedRemainder(a, b))
  {
    var x, y := Magnitude(a), Magnitude(b);
    Division(x, y);
    SmallQuotient(x, y);
  }

  function ValueOf(text: string): int {
    if text != [] && text[0] == '-' then -NumberOf(text[1..]) else NumberOf(text)
  }

  /** `str` writes an integer so that it can be read back, for every 64-bit value. */
  lemma DecimalReads(n: i64)
    ensures ValueOf(Decimal(n)) == n
  {
    if n < 0 {
      DigitsRead(-(n as int));
      assert Decimal(n)[1..] == Digits(-(n as int));
    } else {
      DigitsRead(n);
    }
  }

  // ---------- effects ----------

  /** A reply is accepted exactly when it is a result for the pending effect, of that effect's kind, and
      not a strict wait's `false`. */
  lemma AcceptedExactly(effect: Effect, reply: Reply, ledger: Ledger)
    ensures Acknowledge(effect, reply, ledger).Accepted? <==>
              && reply.Resume? && reply.id == effect.id
              && (if effect.kind.WaitEffect?
                  then reply.result.Matched? && effect.kind.awaited < |ledger.watchers|
                  && (effect.kind.strict ==> reply.result.matched)
                  else reply.result.Done?)
  {
  }

  /** A watch gives its watcher, an ordinary wait its answer, everything else nothing; only a wait that
      matched changes a flag, and only its own. */
  lemma AcceptedGives(effect: Effect, reply: Reply, ledger: Ledger)
    requires Acknowledge(effect, reply, ledger).Accepted?
    ensures var ack := Acknowledge(effect, reply, ledger);
            && (effect.kind.WatchEffect? ==> ack.push == Some(Watcher(effect.kind.watcher)))
            && (effect.kind.WaitEffect? && !effect.kind.strict ==> ack.push == Some(Scalar(Bool(reply.result.matched))))
            && ((effect.kind.WaitEffect? && effect.kind.strict) || effect.kind.CommandEffect?
                || effect.kind.DelayEffect?
                ==> ack.push == None)
            && ack.ledger == ledger.(watchers := ack.ledger.watchers) && |ack.ledger.watchers| == |ledger.watchers|
            && forall i :: 0 <= i < |ledger.watchers| ==>
                 (ack.ledger.watchers[i] <==>
                  ledger.watchers[i] || (effect.kind.WaitEffect? && effect.kind.awaited == i && reply.result.matched))
  {
  }

  /** A command is issued exactly when its text is admissible, the byte budget has room and an ID is left;
      the effect carries the text as it is, under the next ID. */
  lemma CommandIssuedExactly(text: string, verifyEcho: bool, ledger: Ledger, limits: Limits)
    ensures var issue := IssueCommand(Scalar(Str(text)), verifyEcho, ledger, limits);
            && (issue.Issued? <==>
                  && Utf8Len(text) <= limits.maxStringBytes && (forall i :: 0 <= i < |text| ==> !IsControl(text[i]))
                  && ledger.commandBytes + Utf8Len(text) <= limits.maxTotalCommandBytes && ledger.nextEffect < U64_MAX)
            && (issue.Issued? ==> issue.effect == Effect(ledger.nextEffect, CommandEffect(text, verifyEcho)))
  {
    hide Utf8Len, IsControl;
  }

  /** A watcher is numbered by the watchers before it and starts unmatched. */
  lemma WatchIssuedExactly(pattern: string, ledger: Ledger, limits: Limits)
    ensures var issue := IssueWatch(Scalar(Str(pattern)), ledger, limits);
            && (issue.Issued? <==>
                pattern != "" && |ledger.watchers| < limits.maxWatchers && ledger.nextEffect < U64_MAX)
            && (issue.Issued? ==>
                  && issue.effect == Effect(ledger.nextEffect, WatchEffect(|ledger.watchers|, pattern))
                  && |issue.ledger.watchers| == |ledger.watchers| + 1 && !issue.ledger.watchers[|ledger.watchers|]
                  && issue.ledger.watchers[..|ledger.watchers|] == ledger.watchers)
  {
  }

  /** A wait or a delay is issued exactly when its duration is within the limit and, for a wait, the
      value below it is a watcher; nothing but the next ID changes. */
  lemma TimedIssuedExactly(ms: i64, watcher: Option<RuntimeValue>, strict: bool, ledger: Ledger, limits: Limits)
    ensures var wait := IssueWait(Scalar(Int(ms)), watcher, strict, ledger, limits);
            && (wait.Issued? <==>
                0 <= ms <= limits.maxDurationMs && watcher.Some? && watcher.value.Watcher?
                && ledger.nextEffect < U64_MAX)
            && (wait.Issued? ==>
                wait.effect == Effect(ledger.nextEffect, WaitEffect(watcher.value.id, ms, strict))
                && wait.ledger == ledger.(nextEffect := ledger.nextEffect + 1))
    ensures var delay := IssueEffect(Delay, Some(Scalar(Int(ms))), watcher, ledger, limits);
            && (delay.Issued? <==> 0 <= ms <= limits.maxDurationMs && ledger.nextEffect < U64_MAX)
            && (delay.Issued? ==>
                delay.effect == Effect(ledger.nextEffect, DelayEffect(ms))
                && delay.ledger == ledger.(nextEffect := ledger.nextEffect + 1))
  {
  }
}
