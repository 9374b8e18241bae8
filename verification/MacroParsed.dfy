/** Whatever the tokens, a tree the parser returns is one the compiler's theorems apply to. */
module MacroParsed {
  import opened Wrappers
  import opened MacroCore
  import opened MacroCompile
  import opened MacroFits
  import opened MacroPrograms
  import opened MacroParser

  /** The lexer keeps every string token within the limit. */
  predicate ShortTokens(ts: seq<Token>, bytes: nat) {
    forall i :: 0 <= i < |ts| && ts[i].StringToken? ==> Utf8Len(ts[i].text) <= bytes
  }

  // ---------- expressions ----------

  lemma {:induction false} ParsedExpression(ts: seq<Token>, i: nat, depth: nat, max: nat, minimum: nat, bytes: nat)
    requires i < |ts| && Terminated(ts) && ShortTokens(ts, bytes) && ParseExpression(ts, i, depth, max, minimum).Ok?
    ensures ShortLiterals(ParseExpression(ts, i, depth, max, minimum).value.value, bytes)
    decreases |ts| - i, 2
  {
    hide ParsePrimary, ParseOperators, ShortLiterals;
    ParsedPrimary(ts, i, depth + 1, max, bytes);
    var left := ParsePrimary(ts, i, depth + 1, max).value;
    ParsedOperators(ts, left.next, depth + 1, max, minimum, left.value, bytes);
  }

  lemma {:induction false} ParsedOperators(ts: seq<Token>, i: nat, depth: nat, max: nat, minimum: nat, left: Expr,
                                           bytes: nat)
    requires i < |ts| && Terminated(ts) && ShortTokens(ts, bytes) && Depth(left) <= max && ShortLiterals(left, bytes)
    requires ParseOperators(ts, i, depth, max, minimum, left).Ok?
    ensures ShortLiterals(ParseOperators(ts, i, depth, max, minimum, left).value.value, bytes)
    decreases |ts| - i, 0
  {
    hide ParseExpression, Depth;
    match BinaryOf(ts[i])
    case None =>
    case Some((op, precedence)) =>
      if precedence >= minimum {
        ParsedExpression(ts, i + 1, depth, max, precedence + 1, bytes);
        var right := ParseExpression(ts, i + 1, depth, max, precedence + 1).value;
        ParsedOperators(ts, right.next, depth, max, minimum, Binary(op, left, right.value), bytes);
      }
  }

  lemma {:induction false} ParsedPrimary(ts: seq<Token>, i: nat, depth: nat, max: nat, bytes: nat)
    requires i < |ts| && Terminated(ts) && ShortTokens(ts, bytes) && ParsePrimary(ts, i, depth, max).Ok?
    ensures ShortLiterals(ParsePrimary(ts, i, depth, max).value.value, bytes)
    decreases |ts| - i, 1
  {
    hide ParseAtom, ParsePostfix, ShortLiterals;
    ParsedAtom(ts, i, depth, max, bytes);
    var atom := ParseAtom(ts, i, depth, max).value;
    ParsedPostfix(ts, atom.next, max, atom.value, bytes);
  }

  lemma {:induction false} ParsedAtom(ts: seq<Token>, i: nat, depth: nat, max: nat, bytes: nat)
    requires i < |ts| && Terminated(ts) && ShortTokens(ts, bytes) && ParseAtom(ts, i, depth, max).Ok?
    ensures ShortLiterals(ParseAtom(ts, i, depth, max).value.value, bytes)
    decreases |ts| - i, 0
  {
    hide ParseExpression, ParseCallArguments;
    match ts[i]
    case Ident(name) =>
      if !Reserved(name) || name == "args" { if ts[i + 1] ==
                                            LParen { ParsedCallArguments(ts, i + 2, depth, max, bytes); } }
    case Bang => ParsedExpression(ts, i + 1, depth, max, 7, bytes);
    case Minus => ParsedExpression(ts, i + 1, depth, max, 7, bytes);
    case LParen => ParsedExpression(ts, i + 1, depth, max, 0, bytes);
    case _ =>
  }

  lemma {:induction false} ParsedPostfix(ts: seq<Token>, i: nat, max: nat, e: Expr, bytes: nat)
    requires i < |ts| && Terminated(ts) && ShortLiterals(e, bytes) && ParsePostfix(ts, i, max, e).Ok?
    ensures ShortLiterals(ParsePostfix(ts, i, max, e).value.value, bytes)
    decreases |ts| - i
  {
    hide Depth;
    if ts[i] == Dot { ParsedPostfix(ts, i + 2, max, Member(e, ts[i + 1].name), bytes); }
  }

  lemma {:induction false} ParsedCallArguments(ts: seq<Token>, i: nat, depth: nat, max: nat, bytes: nat)
    requires i < |ts| && Terminated(ts) && ShortTokens(ts, bytes) && ParseCallArguments(ts, i, depth, max).Ok?
    ensures ShortArguments(ParseCallArguments(ts, i, depth, max).value.value, bytes)
    decreases |ts| - i, 4
  {
    hide ParseArguments;
    if ts[i] != RParen { ParsedArguments(ts, i, depth, max, bytes); }
  }

  lemma {:induction false} ParsedArguments(ts: seq<Token>, i: nat, depth: nat, max: nat, bytes: nat)
    requires i < |ts| && Terminated(ts) && ShortTokens(ts, bytes) && ParseArguments(ts, i, depth, max).Ok?
    ensures ShortArguments(ParseArguments(ts, i, depth, max).value.value, bytes)
    decreases |ts| - i, 3
  {
    hide ParseExpression, ShortLiterals;
    ParsedExpression(ts, i, depth, max, 0, bytes);
    var first := ParseExpression(ts, i, depth, max, 0).value;
    if ts[first.next] == Comma {
      ParsedArguments(ts, first.next + 1, depth, max, bytes);
      var rest := ParseArguments(ts, first.next + 1, depth, max).value;
      assert ([first.value] + rest.value)[1..] == rest.value;
    }
  }

  // ---------- statements ----------

  /** Bodies are braced, clauses are simple, no expression is deeper than the limit plus the one
      level a compound assignment adds, and every string literal is short. */
  predicate Tame(s: Statement, max: nat, bytes: nat) {
    Braced(s) && Shallow(s, max + 1) && ShortStatement(s, bytes)
  }

  lemma {:induction false} ParsedSimple(ts: seq<Token>, i: nat, depth: nat, max: nat, bytes: nat)
    requires i < |ts| && Terminated(ts) && ShortTokens(ts, bytes) && max > 0 && ParseSimple(ts, i, depth, max).Ok?
    ensures var s := ParseSimple(ts, i, depth, max).value.value;
            (s.Let? || s.Assign? || s.Expression?) && Tame(s, max, bytes)
  {
    hide ParseExpression;
    if Keyword(ts, i, "let") {
      ParsedExpression(ts, i + 3, depth, max, 0, bytes);
    } else if ts[i].Ident? && AssignmentOf(ts[i + 1]).Some? {
      if !(ts[i + 1].PlusPlus? || ts[i + 1].MinusMinus?) { ParsedExpression(ts, i + 2, depth, max, 0, bytes); }
      var value := ParseSimple(ts, i, depth, max).value.value.value;
      if value.Binary? && AssignmentOf(ts[i + 1]).value.Some? {
        assert ShortLiterals(value.left, bytes) && ShortLiterals(value.right, bytes);
        assert Depth(value.left) == 1 && Depth(value.right) <= max;
      }
    } else {
      ParsedExpression(ts, i, depth, max, 0, bytes);
    }
  }

  lemma {:induction false} ParsedStatement(ts: seq<Token>, i: nat, depth: nat, max: nat, bytes: nat)
    requires i < |ts| && Terminated(ts) && ShortTokens(ts, bytes) && ParseStatement(ts, i, depth, max).Ok?
    ensures var s := ParseStatement(ts, i, depth, max).value.value;
            Tame(s, max, bytes) && (Keyword(ts, i, "if") ==> s.If?)
    decreases |ts| - i, 2
  {
    hide ParseStatements, ParseIf, ParseFor, ParseWhile, ParsePlain, BracedAll, ShallowAll, ShortAll;
    var d := depth + 1;
    if ts[i] == LBrace {
      ParsedStatements(ts, i + 1, d, max, true, bytes);
    } else if Keyword(ts, i, "if") {
      ParsedIf(ts, i + 1, d, max, bytes);
    } else if Keyword(ts, i, "while") {
      ParsedWhile(ts, i + 1, d, max, bytes);
    } else if Keyword(ts, i, "for") {
      ParsedFor(ts, i + 1, d, max, bytes);
    } else {
      ParsedPlain(ts, i, d, max, bytes);
    }
  }

  lemma ParsedPlain(ts: seq<Token>, i: nat, depth: nat, max: nat, bytes: nat)
    requires i < |ts| && Terminated(ts) && ShortTokens(ts, bytes) && max > 0 && ParsePlain(ts, i, depth, max).Ok?
    ensures Tame(ParsePlain(ts, i, depth, max).value.value, max, bytes)
  {
    hide ParseSimple, Depth, ShortLiterals;
    if !(Keyword(ts, i, "break") || Keyword(ts, i, "continue") || ts[i] == Semicolon) {
      ParsedSimple(ts, i, depth, max, bytes);
    }
  }

  lemma {:induction false} ParsedWhile(ts: seq<Token>, i: nat, depth: nat, max: nat, bytes: nat)
    requires i < |ts| && Terminated(ts) && ShortTokens(ts, bytes) && ParseWhile(ts, i, depth, max).Ok?
    ensures Tame(ParseWhile(ts, i, depth, max).value.value, max, bytes)
    decreases |ts| - i, 1
  {
    hide ParseBlock, ParseCondition, Depth, ShortLiterals;
    var cond := ParseCondition(ts, i, depth, max).value;
    ParsedCondition(ts, i, depth, max, bytes);
    ParsedBlock(ts, cond.next, depth, max, bytes);
  }

  lemma ParsedCondition(ts: seq<Token>, i: nat, depth: nat, max: nat, bytes: nat)
    requires i < |ts| && Terminated(ts) && ShortTokens(ts, bytes) && ParseCondition(ts, i, depth, max).Ok?
    ensures var e := ParseCondition(ts, i, depth, max).value.value; Depth(e) <= max && ShortLiterals(e, bytes)
  {
    hide ParseExpression;
    ParsedExpression(ts, i + 1, depth, max, 0, bytes);
  }

  lemma {:induction false} ParsedBlock(ts: seq<Token>, i: nat, depth: nat, max: nat, bytes: nat)
    requires i < |ts| && Terminated(ts) && ShortTokens(ts, bytes) && ParseBlock(ts, i, depth, max).Ok?
    ensures var s := ParseBlock(ts, i, depth, max).value.value; s.Block? && Tame(s, max, bytes)
    decreases |ts| - i, 3
  {
    hide ParseStatement, Tame;
    ParsedStatement(ts, i, depth, max, bytes);
  }

  lemma {:induction false} ParsedStatements(ts: seq<Token>, i: nat, depth: nat, max: nat, block: bool, bytes: nat)
    requires i < |ts| && Terminated(ts) && ShortTokens(ts, bytes) && ParseStatements(ts, i, depth, max, block).Ok?
    ensures var body := ParseStatements(ts, i, depth, max, block).value.value;
            BracedAll(body) && ShallowAll(body, max + 1) && ShortAll(body, bytes)
    decreases |ts| - i, 4
  {
    hide ParseStatement, Braced, Shallow, ShortStatement;
    if !(ts[i] == Eof || (block && ts[i] == RBrace)) {
      var first := ParseStatement(ts, i, depth, max).value;
      ParsedStatement(ts, i, depth, max, bytes);
      ParsedStatements(ts, first.next, depth, max, block, bytes);
      var rest := ParseStatements(ts, first.next, depth, max, block).value;
      assert ([first.value] + rest.value)[1..] == rest.value;
    }
  }

  lemma {:induction false} ParsedIf(ts: seq<Token>, i: nat, depth: nat, max: nat, bytes: nat)
    requires i < |ts| && Terminated(ts) && ShortTokens(ts, bytes) && ParseIf(ts, i, depth, max).Ok?
    ensures Tame(ParseIf(ts, i, depth, max).value.value, max, bytes)
    decreases |ts| - i, 1
  {
    hide ParseStatement, ParseBlock, ParseCondition;
    var cond := ParseCondition(ts, i, depth, max).value;
    ParsedCondition(ts, i, depth, max, bytes);
    ParsedBlock(ts, cond.next, depth, max, bytes);
    var body := ParseBlock(ts, cond.next, depth, max).value;
    if Keyword(ts, body.next, "else") {
      if Keyword(ts, body.next + 1, "if") {
        ParsedStatement(ts, body.next + 1, depth, max, bytes);
      } else {
        ParsedBlock(ts, body.next + 1, depth, max, bytes);
      }
    }
    var s := ParseIf(ts, i, depth, max).value.value;
    OptionTame(s.elseBranch, max, bytes);
  }

  lemma OptionTame(s: Option<Statement>, max: nat, bytes: nat)
    requires s.Some? ==> Tame(s.value, max, bytes)
    ensures BracedOption(s) && ShallowOption(s, max + 1) && ShortOption(s, bytes)
  {
    hide Braced, Shallow, ShortStatement;
  }

  lemma {:induction false} ParsedFor(ts: seq<Token>, i: nat, depth: nat, max: nat, bytes: nat)
    requires i < |ts| && Terminated(ts) && ShortTokens(ts, bytes) && max > 0 && ParseFor(ts, i, depth, max).Ok?
    ensures Tame(ParseFor(ts, i, depth, max).value.value, max, bytes)
    decreases |ts| - i, 1
  {
    hide ParseExpression, ParseSimple, ParseBlock;
    var start := ParseClause(ts, i + 1, depth, max, Semicolon).value;
    if start.value.Some? { ParsedSimple(ts, i + 1, depth, max, bytes); }
    var bound := ParseBound(ts, start.next, depth, max).value;
    if bound.value.Some? { ParsedExpression(ts, start.next, depth, max, 0, bytes); }
    var step := ParseClause(ts, bound.next, depth, max, RParen).value;
    if step.value.Some? { ParsedSimple(ts, bound.next, depth, max, bytes); }
    ParsedBlock(ts, step.next, depth, max, bytes);
    OptionTame(start.value, max, bytes);
    OptionTame(step.value, max, bytes);
  }

  /** Whatever the tokens, an accepted program has the shape the theorems about the compiler, the
      stack bound and the string bound ask for. */
  lemma ParsedProgram(ts: seq<Token>, limits: Limits)
    requires Terminated(ts) && ShortTokens(ts, limits.maxStringBytes) && ParseProgram(ts, limits.maxNesting).Ok?
    ensures var program := ParseProgram(ts, limits.maxNesting).value;
            WellFormed(program, limits) && ShortAll(program, limits.maxStringBytes)
  {
    ParsedStatements(ts, 0, 0, limits.maxNesting, false, limits.maxStringBytes);
  }
}
