/** The parser of crates/serial-macro/src/syntax.rs over a list of tokens: what each method
    returns and where it leaves the index, as functions. Class `Parser` in MacroParserObject.dfy
    is the object with the index and the depth counter. */
module MacroParser {
  import opened Wrappers
  import opened MacroCore
  import opened MacroCompile

  datatype Token =
    | Ident(name: string) | StringToken(text: string) | IntegerToken(number: i64)
    | LParen | RParen | LBrace | RBrace | Semicolon | Comma | Dot
    | Plus | Minus | Star | Slash | Percent | Bang
    | EqualSign | EqualEqual | BangEqual | LessSign | LessEqualSign | GreaterSign | GreaterEqualSign
    | AndAnd | OrOr
    | PlusPlus | MinusMinus | PlusEqual | MinusEqual | StarEqual | SlashEqual | PercentEqual
    | Eof

  /** What the lexer hands over: the last token is the end. */
  predicate Terminated(ts: seq<Token>) {
    ts != [] && ts[|ts| - 1] == Eof
  }

  /** A parsed thing and the index after it. */
  datatype Parsed<+T> = Parsed(value: T, next: nat)

  /** The table `binary`: operator and precedence. */
  function BinaryOf(token: Token): Option<(BinaryOp, nat)> {
    match token
    case OrOr => Some((Or, 1))
    case AndAnd => Some((And, 2))
    case EqualEqual => Some((Equal, 3))
    case BangEqual => Some((NotEqual, 3))
    case LessSign => Some((Less, 4))
    case LessEqualSign => Some((LessEqual, 4))
    case GreaterSign => Some((Greater, 4))
    case GreaterEqualSign => Some((GreaterEqual, 4))
    case Plus => Some((Add, 5))
    case Minus => Some((Subtract, 5))
    case Star => Some((Multiply, 6))
    case Slash => Some((Divide, 6))
    case Percent => Some((Remainder, 6))
    case _ => None
  }

  /** The operator of a compound assignment; `Some(None)` is plain `=`. */
  function AssignmentOf(token: Token): Option<Option<BinaryOp>> {
    match token
    case EqualSign => Some(None)
    case PlusEqual => Some(Some(Add))
    case PlusPlus => Some(Some(Add))
    case MinusEqual => Some(Some(Subtract))
    case MinusMinus => Some(Some(Subtract))
    case StarEqual => Some(Some(Multiply))
    case SlashEqual => Some(Some(Divide))
    case PercentEqual => Some(Some(Remainder))
    case _ => None
  }

  function Expect(ts: seq<Token>, i: nat, token: Token): (r: Result<nat>)
    requires i < |ts| && Terminated(ts) && token != Eof
    ensures r.Ok? ==> r.value == i + 1 < |ts|
  {
    if ts[i] == token then Ok(i + 1) else Err(SyntaxError)
  }

  function Identifier(ts: seq<Token>, i: nat): (r: Result<Parsed<string>>)
    requires i < |ts| && Terminated(ts)
    ensures r.Ok? ==> r.value.next == i + 1 < |ts|
  {
    if ts[i].Ident? && !Reserved(ts[i].name) then Ok(Parsed(ts[i].name, i + 1)) else Err(SyntaxError)
  }

  predicate Keyword(ts: seq<Token>, i: nat, text: string)
    requires i < |ts|
  {
    ts[i] == Ident(text)
  }

  // ---------- expressions ----------

  function CheckDepth(e: Expr, next: nat, max: nat): Result<Parsed<Expr>> {
    if Depth(e) > max then Err(NestingLimit) else Ok(Parsed(e, next))
  }

  /** `expression`: every level of recursion is counted and bounded. */
  function ParseExpression(ts: seq<Token>, i: nat, depth: nat, max: nat, minimum: nat): (r: Result<Parsed<Expr>>)
    requires i < |ts| && Terminated(ts)
    ensures r.Ok? ==> i < r.value.next < |ts| && Depth(r.value.value) <= max
    decreases |ts| - i, 2
  {
    if depth >= max then Err(NestingLimit) else
    var left :- ParsePrimary(ts, i, depth + 1, max);
    ParseOperators(ts, left.next, depth + 1, max, minimum, left.value)
  }

  /** The loop of `expression`. */
  function ParseOperators(ts: seq<Token>, i: nat, depth: nat, max: nat, minimum: nat,
                          left: Expr): (r: Result<Parsed<Expr>>)
    requires i < |ts| && Terminated(ts) && Depth(left) <= max
    ensures r.Ok? ==> i <= r.value.next < |ts| && Depth(r.value.value) <= max
    decreases |ts| - i, 0
  {
    match BinaryOf(ts[i])
    case None => Ok(Parsed(left, i))
    case Some((op, precedence)) =>
      if precedence < minimum then Ok(Parsed(left, i)) else
      var right :- ParseExpression(ts, i + 1, depth, max, precedence + 1);
      var e :- CheckDepth(Binary(op, left, right.value), right.next, max);
      ParseOperators(ts, e.next, depth, max, minimum, e.value)
  }

  function ParsePrimary(ts: seq<Token>, i: nat, depth: nat, max: nat): (r: Result<Parsed<Expr>>)
    requires i < |ts| && Terminated(ts)
    ensures r.Ok? ==> i < r.value.next < |ts| && Depth(r.value.value) <= max
    decreases |ts| - i, 1
  {
    var atom :- ParseAtom(ts, i, depth, max);
    ParsePostfix(ts, atom.next, max, atom.value)
  }

  /** `primary` up to its field accesses. */
  function ParseAtom(ts: seq<Token>, i: nat, depth: nat, max: nat): (r: Result<Parsed<Expr>>)
    requires i < |ts| && Terminated(ts)
    ensures r.Ok? ==> i < r.value.next < |ts|
    decreases |ts| - i, 0
  {
    match ts[i]
    case StringToken(text) => Ok(Parsed(Literal(Str(text)), i + 1))
    case IntegerToken(number) => Ok(Parsed(Literal(Int(number)), i + 1))
    case Ident(name) =>
      if name == "true" || name == "false" then Ok(Parsed(Literal(Bool(name == "true")), i + 1))
      else if Reserved(name) && name != "args" then Err(SyntaxError)
      else if ts[i + 1] == LParen then
        var args :- ParseCallArguments(ts, i + 2, depth, max);
        Ok(Parsed(Call(name, args.value), args.next))
      else Ok(Parsed(Variable(name), i + 1))
    case Bang =>
      var operand :- ParseExpression(ts, i + 1, depth, max, 7);
      Ok(Parsed(Unary(Not, operand.value), operand.next))
    case Minus =>
      var operand :- ParseExpression(ts, i + 1, depth, max, 7);
      Ok(Parsed(Unary(Negate, operand.value), operand.next))
    case LParen =>
      var e :- ParseExpression(ts, i + 1, depth, max, 0);
      var next :- Expect(ts, e.next, RParen);
      Ok(Parsed(e.value, next))
    case _ => Err(SyntaxError)
  }

  function ParsePostfix(ts: seq<Token>, i: nat, max: nat, e: Expr): (r: Result<Parsed<Expr>>)
    requires i < |ts| && Terminated(ts)
    ensures r.Ok? ==> i <= r.value.next < |ts| && Depth(r.value.value) <= max
    decreases |ts| - i
  {
    if ts[i] == Dot then
      var field :- Identifier(ts, i + 1);
      var member :- CheckDepth(Member(e, field.value), field.next, max);
      ParsePostfix(ts, member.next, max, member.value)
    else CheckDepth(e, i, max)
  }

  /** The arguments of a call, from after `(` to after `)`. */
  function ParseCallArguments(ts: seq<Token>, i: nat, depth: nat, max: nat): (r: Result<Parsed<seq<Expr>>>)
    requires i < |ts| && Terminated(ts)
    ensures r.Ok? ==> i < r.value.next < |ts|
    decreases |ts| - i, 4
  {
    if ts[i] == RParen then Ok(Parsed([], i + 1)) else ParseArguments(ts, i, depth, max)
  }

  function ParseArguments(ts: seq<Token>, i: nat, depth: nat, max: nat): (r: Result<Parsed<seq<Expr>>>)
    requires i < |ts| && Terminated(ts)
    ensures r.Ok? ==> i < r.value.next < |ts|
    decreases |ts| - i, 3
  {
    var first :- ParseExpression(ts, i, depth, max, 0);
    if ts[first.next] == Comma then
      var rest :- ParseArguments(ts, first.next + 1, depth, max);
      Ok(Parsed([first.value] + rest.value, rest.next))
    else
      var next :- Expect(ts, first.next, RParen);
      Ok(Parsed([first.value], next))
  }

  // ---------- statements ----------

  function ParseAssignment(ts: seq<Token>, i: nat, depth: nat, max: nat): (r: Result<Parsed<Statement>>)
    requires i + 1 < |ts| && Terminated(ts) && ts[i].Ident? && AssignmentOf(ts[i + 1]).Some?
    ensures r.Ok? ==> i < r.value.next < |ts|
  {
    var name, token := ts[i].name, ts[i + 1];
    var rhs :- if token.PlusPlus? || token.MinusMinus? then Ok(Parsed(Literal(Int(1)), i + 2))
               else ParseExpression(ts, i + 2, depth, max, 0);
    match AssignmentOf(token).value
    case None => Ok(Parsed(Assign(name, rhs.value), rhs.next))
    case Some(op) => Ok(Parsed(Assign(name, Binary(op, Variable(name), rhs.value)), rhs.next))
  }

  function ParseSimple(ts: seq<Token>, i: nat, depth: nat, max: nat): (r: Result<Parsed<Statement>>)
    requires i < |ts| && Terminated(ts)
    ensures r.Ok? ==> i < r.value.next < |ts|
  {
    if Keyword(ts, i, "let") then
      var name :- Identifier(ts, i + 1);
      var next :- Expect(ts, name.next, EqualSign);
      var e :- ParseExpression(ts, next, depth, max, 0);
      Ok(Parsed(Let(name.value, e.value), e.next))
    else if ts[i].Ident? && AssignmentOf(ts[i + 1]).Some? then ParseAssignment(ts, i, depth, max)
    else
      var e :- ParseExpression(ts, i, depth, max, 0);
      Ok(Parsed(Expression(e.value), e.next))
  }

  function ParseBlock(ts: seq<Token>, i: nat, depth: nat, max: nat): (r: Result<Parsed<Statement>>)
    requires i < |ts| && Terminated(ts)
    ensures r.Ok? ==> i < r.value.next < |ts| && r.value.value.Block?
    decreases |ts| - i, 3
  {
    if ts[i] != LBrace then Err(SyntaxError) else ParseStatement(ts, i, depth, max)
  }

  /** Statements up to the end, or up to and including `}`. */
  function ParseStatements(ts: seq<Token>, i: nat, depth: nat, max: nat,
                           block: bool): (r: Result<Parsed<seq<Statement>>>)
    requires i < |ts| && Terminated(ts)
    ensures r.Ok? ==> (if block then i < r.value.next < |ts| else i <= r.value.next < |ts|)
    decreases |ts| - i, 4
  {
    if ts[i] == Eof || (block && ts[i] == RBrace) then
      if block then
        var next :- Expect(ts, i, RBrace);
        Ok(Parsed([], next))
      else Ok(Parsed([], i))
    else
      var first :- ParseStatement(ts, i, depth, max);
      var rest :- ParseStatements(ts, first.next, depth, max, block);
      Ok(Parsed([first.value] + rest.value, rest.next))
  }

  function ParseCondition(ts: seq<Token>, i: nat, depth: nat, max: nat): (r: Result<Parsed<Expr>>)
    requires i < |ts| && Terminated(ts)
    ensures r.Ok? ==> i < r.value.next < |ts|
  {
    var open :- Expect(ts, i, LParen);
    var e :- ParseExpression(ts, open, depth, max, 0);
    var next :- Expect(ts, e.next, RParen);
    Ok(Parsed(e.value, next))
  }

  function ParseStatement(ts: seq<Token>, i: nat, depth: nat, max: nat): (r: Result<Parsed<Statement>>)
    requires i < |ts| && Terminated(ts)
    ensures r.Ok? ==> i < r.value.next < |ts| && (ts[i] == LBrace <==> r.value.value.Block?)
    decreases |ts| - i, 2
  {
    if depth >= max then Err(NestingLimit) else
    var d := depth + 1;
    if ts[i] == LBrace then
      var body :- ParseStatements(ts, i + 1, d, max, true);
      Ok(Parsed(Block(body.value), body.next))
    else if Keyword(ts, i, "if") then ParseIf(ts, i + 1, d, max)
    else if Keyword(ts, i, "while") then ParseWhile(ts, i + 1, d, max)
    else if Keyword(ts, i, "for") then ParseFor(ts, i + 1, d, max)
    else ParsePlain(ts, i, d, max)
  }

  /** Which method reads a statement is decided by its first token. */
  lemma StatementUnfolds(ts: seq<Token>, i: nat, depth: nat, max: nat)
    requires i < |ts| && Terminated(ts) && depth < max
    ensures ts[i] == LBrace ==>
              (match ParseStatements(ts, i + 1, depth + 1, max, true)
               case Ok(body) => ParseStatement(ts, i, depth, max) == Ok(Parsed(Block(body.value), body.next))
               case Err(code) => ParseStatement(ts, i, depth, max) == Err(code))
    ensures ts[i] == Ident("if") ==> ParseStatement(ts, i, depth, max) == ParseIf(ts, i + 1, depth + 1, max)
    ensures ts[i] == Ident("while") ==> ParseStatement(ts, i, depth, max) == ParseWhile(ts, i + 1, depth + 1, max)
    ensures ts[i] == Ident("for") ==> ParseStatement(ts, i, depth, max) == ParseFor(ts, i + 1, depth + 1, max)
    ensures ts[i] !in {LBrace, Ident("if"), Ident("while"), Ident("for")} ==>
              ParseStatement(ts, i, depth, max) == ParsePlain(ts, i, depth + 1, max)
  {
    hide ParseStatements, ParseIf, ParseWhile, ParseFor, ParsePlain;
  }

  /** The statements without a body. */
  function ParsePlain(ts: seq<Token>, i: nat, depth: nat, max: nat): (r: Result<Parsed<Statement>>)
    requires i < |ts| && Terminated(ts)
    ensures r.Ok? ==> i < r.value.next < |ts| && !r.value.value.Block? && !r.value.value.If?
  {
    if Keyword(ts, i, "break") || Keyword(ts, i, "continue") then
      var next :- Expect(ts, i + 1, Semicolon);
      Ok(Parsed(if Keyword(ts, i, "break") then Break else Continue, next))
    else if ts[i] == Semicolon then Ok(Parsed(Empty, i + 1))
    else
      var simple :- ParseSimple(ts, i, depth, max);
      var next :- Expect(ts, simple.next, Semicolon);
      SimpleIsNoBlock(ts, i, depth, max);
      Ok(Parsed(simple.value, next))
  }

  function ParseWhile(ts: seq<Token>, i: nat, depth: nat, max: nat): (r: Result<Parsed<Statement>>)
    requires i < |ts| && Terminated(ts)
    ensures r.Ok? ==> i < r.value.next < |ts| && r.value.value.While?
    decreases |ts| - i, 1
  {
    var cond :- ParseCondition(ts, i, depth, max);
    var body :- ParseBlock(ts, cond.next, depth, max);
    Ok(Parsed(While(cond.value, body.value), body.next))
  }

  lemma SimpleIsNoBlock(ts: seq<Token>, i: nat, depth: nat, max: nat)
    requires i < |ts| && Terminated(ts) && ParseSimple(ts, i, depth, max).Ok?
    ensures var s := ParseSimple(ts, i, depth, max).value.value; s.Let? || s.Assign? || s.Expression?
  {
  }

  function ParseIf(ts: seq<Token>, i: nat, depth: nat, max: nat): (r: Result<Parsed<Statement>>)
    requires i < |ts| && Terminated(ts)
    ensures r.Ok? ==> i < r.value.next < |ts| && r.value.value.If?
    decreases |ts| - i, 1
  {
    var cond :- ParseCondition(ts, i, depth, max);
    var body :- ParseBlock(ts, cond.next, depth, max);
    if Keyword(ts, body.next, "else") then
      var alternative :-
        if Keyword(ts, body.next + 1, "if") then ParseStatement(ts, body.next + 1, depth, max)
        else ParseBlock(ts, body.next + 1, depth, max);
      Ok(Parsed(If(cond.value, body.value, Some(alternative.value)), alternative.next))
    else Ok(Parsed(If(cond.value, body.value, None), body.next))
  }

  /** A clause of a `for` that may be missing when `stop` follows. */
  function ParseClause(ts: seq<Token>, i: nat, depth: nat, max: nat,
                       stop: Token): (r: Result<Parsed<Option<Statement>>>)
    requires i < |ts| && Terminated(ts) && stop != Eof
    ensures r.Ok? ==> i < r.value.next < |ts|
  {
    if ts[i] == stop then Ok(Parsed(None, i + 1)) else
    var simple :- ParseSimple(ts, i, depth, max);
    var next :- Expect(ts, simple.next, stop);
    Ok(Parsed(Some(simple.value), next))
  }

  function ParseFor(ts: seq<Token>, i: nat, depth: nat, max: nat): (r: Result<Parsed<Statement>>)
    requires i < |ts| && Terminated(ts)
    ensures r.Ok? ==> i < r.value.next < |ts| && r.value.value.For?
    decreases |ts| - i, 1
  {
    var open :- Expect(ts, i, LParen);
    var start :- ParseClause(ts, open, depth, max, Semicolon);
    var bound :- ParseBound(ts, start.next, depth, max);
    var step :- ParseClause(ts, bound.next, depth, max, RParen);
    var body :- ParseBlock(ts, step.next, depth, max);
    Ok(Parsed(For(start.value, bound.value, step.value, body.value), body.next))
  }

  function ParseBound(ts: seq<Token>, i: nat, depth: nat, max: nat): (r: Result<Parsed<Option<Expr>>>)
    requires i < |ts| && Terminated(ts)
    ensures r.Ok? ==> i < r.value.next < |ts|
  {
    if ts[i] == Semicolon then Ok(Parsed(None, i + 1)) else
    var e :- ParseExpression(ts, i, depth, max, 0);
    var next :- Expect(ts, e.next, Semicolon);
    Ok(Parsed(Some(e.value), next))
  }

  /** `parse` on the tokens of a script. */
  function ParseProgram(ts: seq<Token>, max: nat): Result<seq<Statement>>
    requires Terminated(ts)
  {
    var program :- ParseStatements(ts, 0, 0, max, false);
    Ok(program.value)
  }
}
