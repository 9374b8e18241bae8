/** The parser object of crates/serial-macro/src/syntax.rs: an index into the tokens and a count
    of open constructs. Each method returns what the function of MacroParser returns and leaves
    the index behind what it read, with the count as it found it. */
module MacroParserObject {
  import opened Wrappers
  import opened MacroCore
  import opened MacroCompile
  import opened MacroParser

  // ---------- the height of a tree, with a work list ----------

  datatype Pending = Pending(e: Expr, depth: nat)

  function Nodes(e: Expr): (n: nat)
    ensures n > 0
    decreases e, 0
  {
    match e
    case Member(base, _) => 1 + Nodes(base)
    case Unary(_, operand) => 1 + Nodes(operand)
    case Binary(_, left, right) => 1 + Nodes(left) + Nodes(right)
    case Call(_, args) => 1 + NodesAll(args)
    case _ => 1
  }

  function NodesAll(args: seq<Expr>): nat
    decreases args, 0
  {
    if args == [] then 0 else Nodes(args[0]) + NodesAll(args[1..])
  }

  function Work(pending: seq<Pending>): nat {
    if pending == [] then 0 else Work(pending[..|pending| - 1]) + Nodes(pending[|pending| - 1].e)
  }

  predicate Within(p: Pending, max: nat) {
    p.depth + Depth(p.e) <= max + 1
  }

  predicate AllWithin(pending: seq<Pending>, max: nat) {
    forall k :: 0 <= k < |pending| ==> Within(pending[k], max)
  }

  lemma WorkPush(pending: seq<Pending>, p: Pending)
    ensures Work(pending + [p]) == Work(pending) + Nodes(p.e)
  {
    assert (pending + [p])[..|pending|] == pending;
  }

  lemma {:induction false} ArgumentCounts(args: seq<Expr>, k: nat)
    requires k < |args|
    ensures NodesAll(args[k..]) == Nodes(args[k]) + NodesAll(args[k + 1..])
    ensures DepthAll(args[k..]) == Max(Depth(args[k]), DepthAll(args[k + 1..]))
  {
    assert args[k..][0] == args[k] && args[k..][1..] == args[k + 1..];
  }

  lemma AllWithinPush(pending: seq<Pending>, p: Pending, max: nat)
    ensures AllWithin(pending + [p], max) <==> AllWithin(pending, max) && Within(p, max)
  {
    var longer := pending + [p];
    if AllWithin(longer, max) {
      forall k | 0 <= k < |pending| ensures Within(pending[k], max) { assert longer[k] == pending[k]; }
      assert longer[|pending|] == p;
    }
  }

  /** The arguments of a call, pushed one by one. */
  method PushArguments(pending: seq<Pending>, args: seq<Expr>, depth: nat, max: nat) returns (r: seq<Pending>)
    ensures Work(r) == Work(pending) + NodesAll(args)
    ensures AllWithin(r, max) <==> AllWithin(pending, max) && (args == [] || depth + DepthAll(args) <= max + 1)
  {
    hide Nodes, Depth, AllWithin, Within, DepthAll, NodesAll, Work;
    r := pending;
    var k := 0;
    assert args[0..] == args;
    while k < |args|
      invariant k <= |args|
      invariant Work(r) + NodesAll(args[k..]) == Work(pending) + NodesAll(args)
      invariant AllWithin(r, max) && (k == |args| || depth + DepthAll(args[k..]) <= max + 1) <==>
                AllWithin(pending, max) && (args == [] || depth + DepthAll(args) <= max + 1)
    {
      ArgumentCounts(args, k);
      WorkPush(r, Pending(args[k], depth));
      AllWithinPush(r, Pending(args[k], depth), max);
      LastArgument(args, k);
      assert Within(Pending(args[k], depth), max) <==> depth + Depth(args[k]) <= max + 1 by {
        WithinMeans(args[k], depth, max);
      }
      r := r + [Pending(args[k], depth)];
      k := k + 1;
    }
    assert args[k..] == [];
    assert NodesAll([]) == 0 by { LastArgument(args, k); }
  }

  lemma WithinMeans(e: Expr, depth: nat, max: nat)
    ensures Within(Pending(e, depth), max) <==> depth + Depth(e) <= max + 1
  {
  }

  lemma LastArgument(args: seq<Expr>, k: nat)
    requires k <= |args|
    ensures NodesAll([]) == 0 && DepthAll([]) == 0
    ensures k + 1 >= |args| ==> k + 1 == |args| || args[k..] == []
    ensures k + 1 == |args| ==> args[k + 1..] == []
    ensures k + 1 < |args| ==> DepthAll(args[k + 1..]) >= 1
  {
    if k + 1 < |args| { ArgumentCounts(args, k + 1); }
  }

  /** `check_expression_depth`: a flat chain can be as high as a nested tree, so the height is
      checked on the tree, with a work list in place of recursion. */
  method CheckExpressionDepth(root: Expr, max: nat) returns (ok: bool)
    ensures ok <==> Depth(root) <= max
  {
    hide Work, AllWithin, NodesAll, DepthAll;
    var pending := [Pending(root, 1)];
    assert AllWithin(pending, max) <==> Depth(root) <= max by { One(Pending(root, 1), max); }
    while pending != []
      invariant AllWithin(pending, max) <==> Depth(root) <= max
      decreases Work(pending)
    {
      var last := pending[|pending| - 1];
      var rest := pending[..|pending| - 1];
      assert pending == rest + [last];
      WorkPush(rest, last);
      AllWithinPush(rest, last, max);
      pending := rest;
      if last.depth > max { return false; }
      match last.e
      case Member(base, _) =>
        WorkPush(rest, Pending(base, last.depth + 1));
        AllWithinPush(rest, Pending(base, last.depth + 1), max);
        pending := pending + [Pending(base, last.depth + 1)];
      case Unary(_, operand) =>
        WorkPush(rest, Pending(operand, last.depth + 1));
        AllWithinPush(rest, Pending(operand, last.depth + 1), max);
        pending := pending + [Pending(operand, last.depth + 1)];
      case Binary(_, left, right) =>
        WorkPush(rest, Pending(left, last.depth + 1));
        AllWithinPush(rest, Pending(left, last.depth + 1), max);
        pending := pending + [Pending(left, last.depth + 1)];
        WorkPush(pending, Pending(right, last.depth + 1));
        AllWithinPush(pending, Pending(right, last.depth + 1), max);
        pending := pending + [Pending(right, last.depth + 1)];
      case Call(_, args) =>
        pending := PushArguments(pending, args, last.depth + 1, max);
        assert args == [] ==> DepthAll(args) == 0 by { NoArguments(); }
      case _ =>
    }
    assert AllWithin([], max) by { NonePending(max); }
    ok := true;
  }

  lemma NoArguments()
    ensures DepthAll([]) == 0
  {
  }

  lemma NonePending(max: nat)
    ensures AllWithin([], max)
  {
  }

  lemma One(p: Pending, max: nat)
    ensures AllWithin([p], max) <==> Within(p, max)
  {
    assert [p] == [] + [p];
    AllWithinPush([], p, max);
    NonePending(max);
  }

  // ---------- results with a prefix already read ----------

  /** A list read after `front`. */
  function Behind<T>(front: seq<T>, r: Result<Parsed<seq<T>>>): Result<Parsed<seq<T>>> {
    match r
    case Ok(rest) => Ok(Parsed(front + rest.value, rest.next))
    case Err(code) => Err(code)
  }

  lemma BehindPush<T>(front: seq<T>, x: T, rest: Result<Parsed<seq<T>>>)
    ensures Behind(front, Behind([x], rest)) == Behind(front + [x], rest)
  {
    if rest.Ok? { assert front + ([x] + rest.value.value) == (front + [x]) + rest.value.value; }
  }

  lemma TooDeep(ts: seq<Token>, i: nat, depth: nat, max: nat)
    requires i < |ts| && Terminated(ts) && depth >= max
    ensures ParseStatement(ts, i, depth, max) == Err(NestingLimit)
  {
  }

  /** One turn of the loop over a call's arguments. */
  lemma ArgumentsUnfold(ts: seq<Token>, i: nat, depth: nat, max: nat, before: seq<Expr>)
    requires i < |ts| && Terminated(ts)
    ensures match ParseExpression(ts, i, depth, max, 0) {
              case Err(code) => Behind(before, ParseArguments(ts, i, depth, max)) == Err(code)
              case Ok(first) =>
                if ts[first.next] == Comma
                then first.next + 1 < |ts| && Behind(before, ParseArguments(ts, i, depth, max)) ==
                  Behind(before + [first.value], ParseArguments(ts, first.next + 1, depth, max))
                else Behind(before, ParseArguments(ts, i, depth, max)) ==
                     if ts[first.next] == RParen then Ok(Parsed(before + [first.value], first.next + 1))
                     else Err(SyntaxError)
            }
  {
    hide ParseExpression;
    match ParseExpression(ts, i, depth, max, 0)
    case Err(_) =>
    case Ok(first) =>
      if ts[first.next] == Comma {
        BehindPush(before, first.value, ParseArguments(ts, first.next + 1, depth, max));
      }
  }

  /** `expression` up to its loop, and one pass of the loop. */
  lemma ExpressionUnfolds(ts: seq<Token>, i: nat, depth: nat, max: nat, minimum: nat)
    requires i < |ts| && Terminated(ts)
    ensures ParseExpression(ts, i, depth, max, minimum) ==
            if depth >= max then Err(NestingLimit)
            else match ParsePrimary(ts, i, depth + 1, max) {
              case Err(code) => Err(code)
              case Ok(left) => ParseOperators(ts, left.next, depth + 1, max, minimum, left.value)
            }
  {
    hide ParsePrimary, ParseOperators;
  }

  lemma OperatorsUnfold(ts: seq<Token>, i: nat, depth: nat, max: nat, minimum: nat, left: Expr)
    requires i < |ts| && Terminated(ts) && Depth(left) <= max
    ensures BinaryOf(ts[i]).None? || BinaryOf(ts[i]).value.1 < minimum ==>
              ParseOperators(ts, i, depth, max, minimum, left) == Ok(Parsed(left, i))
    ensures BinaryOf(ts[i]).Some? && BinaryOf(ts[i]).value.1 >= minimum ==>
              var right := ParseExpression(ts, i + 1, depth, max, BinaryOf(ts[i]).value.1 + 1);
              ParseOperators(ts, i, depth, max, minimum, left) ==
                if right.Err? then Err(right.code)
                else if Depth(Binary(BinaryOf(ts[i]).value.0, left, right.value.value)) > max then Err(NestingLimit)
                else ParseOperators(ts, right.value.next, depth, max, minimum,
                                    Binary(BinaryOf(ts[i]).value.0, left, right.value.value))
  {
    hide ParseExpression, Depth, BinaryOf;
  }

  class Parser {
    const tokens: seq<Token>
    const maxDepth: nat
    var index: nat
    var depth: nat

    /** The index stays on a token, and constructs are never nested deeper than the limit: every method
        that recurses enters first, and none is entered at the limit. */
    ghost predicate Valid()
      reads this
    {
      index < |tokens| && Terminated(tokens) && depth <= maxDepth
    }

    constructor (tokens: seq<Token>, maxDepth: nat)
      requires Terminated(tokens)
      ensures this.tokens == tokens && this.maxDepth == maxDepth && index == 0 && depth == 0 && Valid()
    {
      this.tokens, this.maxDepth := tokens, maxDepth;
      index, depth := 0, 0;
    }

    /** A method started at `at` with `open` constructs did what `expected` says: the same value
        or error, and on success the index behind what was read and the count as it was. */
    ghost predicate Did<T>(at: nat, open: nat, expected: Result<Parsed<T>>, r: Result<T>)
      reads this
    {
      && Valid() && index >= at
      && (expected.Ok? ==> r == Ok(expected.value.value) && index == expected.value.next && depth == open)
      && (expected.Err? ==> r == Err(expected.code))
    }

    function Current(): Token
      requires Valid()
      reads this
    {
      tokens[index]
    }

    method Bump() returns (token: Token)
      requires Valid()
      modifies `index
      ensures Valid() && token == tokens[old(index)]
      ensures index == if token == Eof then old(index) else old(index) + 1
    {
      token := Current();
      if token != Eof { index := index + 1; }
    }

    method Take(kind: Token) returns (taken: bool)
      requires Valid() && kind != Eof
      modifies `index
      ensures Valid() && taken == (tokens[old(index)] == kind)
      ensures index == if taken then old(index) + 1 else old(index)
    {
      taken := Current() == kind;
      if taken { var _ := Bump(); }
    }

    method ExpectToken(kind: Token) returns (r: Result<()>)
      requires Valid() && kind != Eof
      modifies `index
      ensures Valid() && r == (if tokens[old(index)] == kind then Ok(()) else Err(SyntaxError))
      ensures index == if r.Ok? then old(index) + 1 else old(index)
    {
      var taken := Take(kind);
      r := if taken then Ok(()) else Err(SyntaxError);
    }

    method Enter() returns (r: Result<()>)
      requires Valid()
      modifies `depth
      ensures Valid() && r == (if old(depth) >= maxDepth then Err(NestingLimit) else Ok(()))
      ensures depth == if r.Ok? then old(depth) + 1 else old(depth)
    {
      if depth >= maxDepth { return Err(NestingLimit); }
      depth := depth + 1;
      r := Ok(());
    }

    method ReadIdentifier() returns (r: Result<string>)
      requires Valid()
      modifies this
      ensures Did(old(index), old(depth), Identifier(tokens, old(index)), r)
    {
      var token := Bump();
      r := if token.Ident? && !Reserved(token.name) then Ok(token.name) else Err(SyntaxError);
    }

    method CheckTree(e: Expr) returns (r: Result<()>)
      ensures r == (if Depth(e) > maxDepth then Err(NestingLimit) else Ok(()))
    {
      var ok := CheckExpressionDepth(e, maxDepth);
      r := if ok then Ok(()) else Err(NestingLimit);
    }

    method ReadExpression(minimum: nat) returns (r: Result<Expr>)
      requires Valid()
      modifies this
      ensures Did(old(index), old(depth), ParseExpression(tokens, old(index), old(depth), maxDepth, minimum), r)
      decreases |tokens| - index, 2
    {
      hide ParsePrimary, ParseExpression, ParseOperators, Depth, Terminated;
      ghost var at, open := index, depth;
      ExpressionUnfolds(tokens, at, open, maxDepth, minimum);
      var _ :- Enter();
      var left :- ReadPrimary();
      while BinaryOf(Current()).Some?
        invariant Valid() && index > at && depth == open + 1 && Depth(left) <= maxDepth
        invariant ParseOperators(tokens, index, open + 1, maxDepth, minimum, left) ==
                    ParseExpression(tokens, at, open, maxDepth, minimum)
        decreases |tokens| - index
      {
        OperatorsUnfold(tokens, index, open + 1, maxDepth, minimum, left);
        var (op, precedence) := BinaryOf(Current()).value;
        if precedence < minimum { break; }
        var _ := Bump();
        var right :- ReadExpression(precedence + 1);
        left := Binary(op, left, right);
        var _ :- CheckTree(left);
      }
      OperatorsUnfold(tokens, index, open + 1, maxDepth, minimum, left);
      depth := depth - 1;
      r := Ok(left);
    }

    method ReadPrimary() returns (r: Result<Expr>)
      requires Valid()
      modifies this
      ensures Did(old(index), old(depth), ParsePrimary(tokens, old(index), old(depth), maxDepth), r)
      decreases |tokens| - index, 1
    {
      hide ParseAtom, Depth, Terminated;
      ghost var at, open := index, depth;
      var e :- ReadAtom();
      var dot := Take(Dot);
      while dot
        invariant Valid() && index > at && depth == open
        invariant ParsePrimary(tokens, at, open, maxDepth) ==
                  if dot then ParsePostfix(tokens, index - 1, maxDepth, e) else CheckDepth(e, index, maxDepth)
        invariant dot ==> tokens[index - 1] == Dot
        decreases |tokens| - index, if dot then 1 else 0
      {
        var field :- ReadIdentifier();
        e := Member(e, field);
        var _ :- CheckTree(e);
        dot := Take(Dot);
      }
      var _ :- CheckTree(e);
      r := Ok(e);
    }

    method ReadAtom() returns (r: Result<Expr>)
      requires Valid()
      modifies this
      ensures Did(old(index), old(depth), ParseAtom(tokens, old(index), old(depth), maxDepth), r)
      decreases |tokens| - index, 0
    {
      hide ParseExpression, ParseCallArguments, Depth, Reserved, Terminated;
      if Current().Ident? {
        r := ReadNamed();
        return;
      }
      var token := Bump();
      match token
      case StringToken(text) => r := Ok(Literal(Str(text)));
      case IntegerToken(number) => r := Ok(Literal(Int(number)));
      case Bang =>
        var operand :- ReadExpression(7);
        r := Ok(Unary(Not, operand));
      case Minus =>
        var operand :- ReadExpression(7);
        r := Ok(Unary(Negate, operand));
      case LParen =>
        var e :- ReadExpression(0);
        var _ :- ExpectToken(RParen);
        r := Ok(e);
      case _ => r := Err(SyntaxError);
    }

    /** What starts with a name: a truth value, a call or a variable. */
    method ReadNamed() returns (r: Result<Expr>)
      requires Valid() && Current().Ident?
      modifies this
      ensures Did(old(index), old(depth), ParseAtom(tokens, old(index), old(depth), maxDepth), r)
      decreases |tokens| - index, 0, 0
    {
      hide ParseExpression, ParseCallArguments, Depth, Reserved;
      var token := Bump();
      var name := token.name;
      if name == "true" || name == "false" {
        r := Ok(Literal(Bool(name == "true")));
      } else if !Reserved(name) || name == "args" {
        var call := Take(LParen);
        if call {
          var args :- ReadArguments();
          r := Ok(Call(name, args));
        } else {
          r := Ok(Variable(name));
        }
      } else {
        r := Err(SyntaxError);
      }
    }

    method ReadArguments() returns (r: Result<seq<Expr>>)
      requires Valid()
      modifies this
      ensures Did(old(index), old(depth), ParseCallArguments(tokens, old(index), old(depth), maxDepth), r)
      decreases |tokens| - index, 4
    {
      hide ParseExpression, ParseArguments, Behind, Depth, Terminated;
      ghost var at, open := index, depth;
      var args := [];
      if Current() != RParen {
        var more := true;
        BehindNothing(ParseArguments(tokens, at, open, maxDepth));
        while more
          invariant Valid() && index >= at && depth == open
          invariant more ==>
                      Behind(args, ParseArguments(tokens, index, open, maxDepth)) ==
                        ParseArguments(tokens, at, open, maxDepth)
          invariant !more ==>
                      ParseArguments(tokens, at, open, maxDepth) ==
                        (if Current() == RParen then Ok(Parsed(args, index + 1)) else Err(SyntaxError))
          decreases |tokens| - index, if more then 1 else 0
        {
          ArgumentsUnfold(tokens, index, open, maxDepth, args);
          var arg :- ReadExpression(0);
          args := args + [arg];
          more := Take(Comma);
        }
      }
      var _ :- ExpectToken(RParen);
      r := Ok(args);
    }

    predicate AtKeyword(text: string)
      requires Valid()
      reads this
    {
      Current() == Ident(text)
    }

    method ReadStatements(block: bool) returns (r: Result<seq<Statement>>)
      requires Valid()
      modifies this
      ensures Did(old(index), old(depth), ParseStatements(tokens, old(index), old(depth), maxDepth, block), r)
      decreases |tokens| - index, 4
    {
      hide ParseStatement;
      ghost var at, open := index, depth;
      var body := [];
      BehindNothing(ParseStatements(tokens, at, open, maxDepth, block));
      while !(Current() == Eof || (block && Current() == RBrace))
        invariant Valid() && index >= at && depth == open
        invariant Behind(body, ParseStatements(tokens, index, open, maxDepth, block)) ==
                    ParseStatements(tokens, at, open, maxDepth, block)
        decreases |tokens| - index
      {
        ghost var before := body;
        var statement :- ReadStatement();
        body := body + [statement];
        BehindPush(before, statement, ParseStatements(tokens, index, open, maxDepth, block));
      }
      assert body + [] == body;
      if block { var _ :- ExpectToken(RBrace); }
      r := Ok(body);
    }

    method ReadBlock() returns (r: Result<Statement>)
      requires Valid()
      modifies this
      ensures Did(old(index), old(depth), ParseBlock(tokens, old(index), old(depth), maxDepth), r)
      decreases |tokens| - index, 3
    {
      hide ParseStatement;
      if Current() != LBrace { return Err(SyntaxError); }
      r := ReadStatement();
    }

    method ReadStatement() returns (r: Result<Statement>)
      requires Valid()
      modifies this
      ensures Did(old(index), old(depth), ParseStatement(tokens, old(index), old(depth), maxDepth), r)
      decreases |tokens| - index, 2
    {
      hide ParseStatement, ParseStatements, ParseIf, ParseFor, ParseWhile, ParsePlain, Terminated;
      if depth < maxDepth {
        StatementUnfolds(tokens, index, depth, maxDepth);
      } else {
        TooDeep(tokens, index, depth, maxDepth);
      }
      var _ :- Enter();
      var brace := Take(LBrace);
      if brace {
        var body :- ReadStatements(true);
        r := Ok(Block(body));
      } else if AtKeyword("if") {
        var _ := Bump();
        var s :- ReadIf();
        r := Ok(s);
      } else if AtKeyword("while") {
        var _ := Bump();
        var s :- ReadWhile();
        r := Ok(s);
      } else if AtKeyword("for") {
        var _ := Bump();
        var s :- ReadFor();
        r := Ok(s);
      } else {
        var s :- ReadPlain();
        r := Ok(s);
      }
      depth := depth - 1;
    }

    method ReadWhile() returns (r: Result<Statement>)
      requires Valid()
      modifies this
      ensures Did(old(index), old(depth), ParseWhile(tokens, old(index), old(depth), maxDepth), r)
      decreases |tokens| - index, 1
    {
      hide ParseCondition, ParseBlock, Terminated;
      var test :- ReadCondition();
      var body :- ReadBlock();
      r := Ok(While(test, body));
    }

    /** `break`, `continue`, the empty statement or a simple one, with its semicolon. */
    method ReadPlain() returns (r: Result<Statement>)
      requires Valid()
      modifies this
      ensures Did(old(index), old(depth), ParsePlain(tokens, old(index), old(depth), maxDepth), r)
    {
      hide ParseSimple;
      if AtKeyword("break") || AtKeyword("continue") {
        var isBreak := AtKeyword("break");
        var _ := Bump();
        var _ :- ExpectToken(Semicolon);
        return Ok(if isBreak then Break else Continue);
      }
      var none := Take(Semicolon);
      if none { return Ok(Empty); }
      var simple :- ReadSimple();
      var _ :- ExpectToken(Semicolon);
      r := Ok(simple);
    }

    method ReadSimple() returns (r: Result<Statement>)
      requires Valid()
      modifies this
      ensures Did(old(index), old(depth), ParseSimple(tokens, old(index), old(depth), maxDepth), r)
    {
      hide ParseExpression, ParseAssignment;
      if AtKeyword("let") {
        var _ := Bump();
        var name :- ReadIdentifier();
        var _ :- ExpectToken(EqualSign);
        var e :- ReadExpression(0);
        return Ok(Let(name, e));
      }
      if Current().Ident? && AssignmentOf(tokens[index + 1]).Some? {
        r := ReadAssignment();
        return;
      }
      var e :- ReadExpression(0);
      r := Ok(Expression(e));
    }

    method ReadAssignment() returns (r: Result<Statement>)
      requires Valid() && Current().Ident? && AssignmentOf(tokens[index + 1]).Some?
      modifies this
      ensures Did(old(index), old(depth), ParseAssignment(tokens, old(index), old(depth), maxDepth), r)
    {
      hide ParseExpression;
      var name := Current().name;
      var operator := AssignmentOf(tokens[index + 1]).value;
      var _ := Bump();
      var token := Bump();
      var rhs := Literal(Int(1));
      if !(token.PlusPlus? || token.MinusMinus?) { rhs :- ReadExpression(0); }
      r := Ok(Assign(name, if operator.Some? then Binary(operator.value, Variable(name), rhs) else rhs));
    }

    method ReadCondition() returns (r: Result<Expr>)
      requires Valid()
      modifies this
      ensures Did(old(index), old(depth), ParseCondition(tokens, old(index), old(depth), maxDepth), r)
    {
      hide ParseExpression;
      var _ :- ExpectToken(LParen);
      var e :- ReadExpression(0);
      var _ :- ExpectToken(RParen);
      r := Ok(e);
    }

    method ReadIf() returns (r: Result<Statement>)
      requires Valid()
      modifies this
      ensures Did(old(index), old(depth), ParseIf(tokens, old(index), old(depth), maxDepth), r)
      decreases |tokens| - index, 1
    {
      hide ParseCondition, ParseBlock, ParseStatement;
      var cond :- ReadCondition();
      var body :- ReadBlock();
      if AtKeyword("else") {
        var _ := Bump();
        var alternative;
        if AtKeyword("if") {
          alternative :- ReadStatement();
        } else {
          alternative :- ReadBlock();
        }
        return Ok(If(cond, body, Some(alternative)));
      }
      r := Ok(If(cond, body, None));
    }

    method ReadClause(stop: Token) returns (r: Result<Option<Statement>>)
      requires Valid() && stop != Eof
      modifies this
      ensures Did(old(index), old(depth), ParseClause(tokens, old(index), old(depth), maxDepth, stop), r)
    {
      hide ParseSimple;
      var clause := None;
      if Current() != stop {
        var simple :- ReadSimple();
        clause := Some(simple);
      }
      var _ :- ExpectToken(stop);
      r := Ok(clause);
    }

    method ReadBound() returns (r: Result<Option<Expr>>)
      requires Valid()
      modifies this
      ensures Did(old(index), old(depth), ParseBound(tokens, old(index), old(depth), maxDepth), r)
    {
      hide ParseExpression, Terminated;
      var bound := None;
      if Current() != Semicolon {
        var e :- ReadExpression(0);
        bound := Some(e);
      }
      var _ :- ExpectToken(Semicolon);
      r := Ok(bound);
    }

    method ReadFor() returns (r: Result<Statement>)
      requires Valid()
      modifies this
      ensures Did(old(index), old(depth), ParseFor(tokens, old(index), old(depth), maxDepth), r)
      decreases |tokens| - index, 1
    {
      hide ParseClause, ParseBound, ParseBlock, Terminated;
      var _ :- ExpectToken(LParen);
      var start :- ReadClause(Semicolon);
      var bound :- ReadBound();
      var step :- ReadClause(RParen);
      var body :- ReadBlock();
      r := Ok(For(start, bound, step, body));
    }
  }

  /** The whole parse: the object's answer is the function's. */
  method Parse(tokens: seq<Token>, maxDepth: nat) returns (r: Result<seq<Statement>>)
    requires Terminated(tokens)
    ensures r == ParseProgram(tokens, maxDepth)
  {
    hide ParseStatements;
    var parser := new Parser(tokens, maxDepth);
    r := parser.ReadStatements(false);
  }

  lemma BehindNothing<T>(r: Result<Parsed<seq<T>>>)
    ensures Behind([], r) == r
  {
    if r.Ok? { assert [] + r.value.value == r.value.value; }
  }
}
