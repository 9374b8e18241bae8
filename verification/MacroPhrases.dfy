/** The parser reads every phrase of the grammar as the tree it stands for. */
module MacroPhrases {
  import opened Wrappers
  import opened MacroCore
  import opened MacroCompile
  import opened MacroParser
  import opened MacroGrammar

  // ---------- tokens in place ----------

  /** The tokens `p` stand in `ts` from index `i`. */
  predicate At(ts: seq<Token>, i: nat, p: seq<Token>) {
    i + |p| <= |ts| && ts[i..i + |p|] == p
  }

  lemma Split(ts: seq<Token>, i: nat, p: seq<Token>, q: seq<Token>)
    requires At(ts, i, p + q)
    ensures At(ts, i, p) && At(ts, i + |p|, q)
  {
    assert ts[i..i + |p|] == ts[i..i + |p + q|][..|p|] == p;
    assert ts[i + |p|..i + |p| + |q|] == ts[i..i + |p + q|][|p|..] == q;
  }

  lemma First(ts: seq<Token>, i: nat, p: seq<Token>)
    requires At(ts, i, p) && p != []
    ensures i < |ts| && ts[i] == p[0] && At(ts, i + 1, p[1..])
  {
    assert p == [p[0]] + p[1..];
    Split(ts, i, [p[0]], p[1..]);
    assert ts[i..i + 1][0] == ts[i];
  }

  /** No token that would go on with an operand that binds at `level`. */
  predicate Stops(token: Token, level: nat) {
    token != Dot && token != LParen && (BinaryOf(token).Some? ==> BinaryOf(token).value.1 <= level)
  }

  /** No token that would go on with an expression. */
  predicate Ends(token: Token) {
    token != Dot && token != LParen && BinaryOf(token).None?
  }

  lemma Punctuation(level: nat)
    ensures Ends(RParen) && Ends(Comma) && Stops(RParen, level) && BinaryOf(RParen).None?
  {
  }

  // ---------- the parser reads phrases ----------

  /** An operand is read whole: the parser goes on behind it, with its tree in hand. */
  lemma {:induction false} OperandRead(ts: seq<Token>, i: nat, depth: nat, max: nat, minimum: nat, p: Phrase)
    requires Terminated(ts) && Room(p, depth, max) && minimum <= Level(p)
    requires At(ts, i, Spell(p)) && i + |Spell(p)| < |ts| && Stops(ts[i + |Spell(p)|], Level(p))
    ensures ParseExpression(ts, i, depth, max, minimum) ==
              ParseOperators(ts, i + |Spell(p)|, depth + 1, max, minimum, Meant(p))
    decreases p, 3
  {
    hide ParseExpression, ParseOperators, ParsePrimary, ParsePostfix, Spell, Meant, Nest, Depth, Proper, At, Terminated;
    match p
    case Infix(_, _, _) => BinaryRead(ts, i, depth, max, minimum, p);
    case Sign(_, _) => UnaryRead(ts, i, depth, max, minimum, p);
    case _ =>
      PrimaryRead(ts, i, depth + 1, max, p);
      PostfixEnds(ts, i + |Spell(p)|, max, Meant(p));
      First(ts, i, Spell(p));
      ExpressionUnfolds(ts, i, depth, max, minimum);
  }

  lemma {:induction false} PrimaryRead(ts: seq<Token>, i: nat, depth: nat, max: nat, p: Phrase)
    requires Terminated(ts) && depth > 0 && Room(p, depth - 1, max) && Level(p) == 8
    requires At(ts, i, Spell(p)) && i + |Spell(p)| < |ts| && ts[i + |Spell(p)|] != LParen
    ensures i < |ts| && ParsePrimary(ts, i, depth, max) == ParsePostfix(ts, i + |Spell(p)|, max, Meant(p))
    decreases p, 2
  {
    hide At, ParsePrimary, ParsePostfix, Spell, Meant, Proper, Nest, Depth, Terminated;
    First(ts, i, Spell(p));
    match p
    case Lit(_) => AtomRead(ts, i, depth, max, p);
    case Name(_) => AtomRead(ts, i, depth, max, p);
    case Field(_, _) => MemberRead(ts, i, depth, max, p);
    case Apply(_, _) => CallRead(ts, i, depth, max, p);
    case Paren(_) => ParenthesesRead(ts, i, depth, max, p);
    case Infix(op, _, _) => assert false;
  }

  lemma AtomRead(ts: seq<Token>, i: nat, depth: nat, max: nat, p: Phrase)
    requires Terminated(ts) && Proper(p) && (p.Lit? || p.Name?)
    requires At(ts, i, Spell(p)) && i + |Spell(p)| < |ts| && ts[i + |Spell(p)|] != LParen
    ensures ParsePrimary(ts, i, depth, max) == ParsePostfix(ts, i + |Spell(p)|, max, Meant(p))
  {
    hide ParseExpression, ParseCallArguments, ParsePostfix, At;
    First(ts, i, Spell(p));
  }

  lemma {:induction false} ParenthesesRead(ts: seq<Token>, i: nat, depth: nat, max: nat, p: Phrase)
    requires Terminated(ts) && depth > 0 && Room(p, depth - 1, max) && p.Paren?
    requires At(ts, i, Spell(p)) && i + |Spell(p)| < |ts|
    ensures i < |ts| && ParsePrimary(ts, i, depth, max) == ParsePostfix(ts, i + |Spell(p)|, max, Meant(p))
    decreases p, 1
  {
    hide ParseExpression, ParseOperators, ParsePrimary, ParseAtom, ParsePostfix, At, Spell, Nest, Meant, Depth, Proper,
         Stops, Ends, BinaryOf, Terminated;
    var inner := Spell(p.inner);
    var next := i + 1 + |inner|;
    ParenthesesForm(p);
    Split(ts, i, [LParen], inner + [RParen]);
    First(ts, i, [LParen]);
    Split(ts, i + 1, inner, [RParen]);
    First(ts, next, [RParen]);
    Punctuation(0);
    WholeRead(ts, i + 1, depth, max, p.inner);
    ParenthesesAtom(ts, i, depth, max, Meant(p.inner), next);
    AtomGives(ts, i, depth, max, Meant(p), next + 1);
  }

  lemma ParenthesesForm(p: Phrase)
    requires p.Paren?
    ensures Spell(p) == [LParen] + (Spell(p.inner) + [RParen]) && Nest(p) == 1 + Nest(p.inner)
    ensures Meant(p) == Meant(p.inner) && (Proper(p) <==> Proper(p.inner))
  {
  }

  lemma NoOperator(ts: seq<Token>, i: nat, depth: nat, max: nat, minimum: nat, e: Expr)
    requires i < |ts| && Terminated(ts) && Depth(e) <= max
    requires BinaryOf(ts[i]).Some? ==> BinaryOf(ts[i]).value.1 < minimum
    ensures ParseOperators(ts, i, depth, max, minimum, e) == Ok(Parsed(e, i))
  {
    hide ParseExpression, Depth;
  }

  lemma {:induction false} MemberRead(ts: seq<Token>, i: nat, depth: nat, max: nat, p: Phrase)
    requires Terminated(ts) && depth > 0 && Room(p, depth - 1, max) && p.Field?
    requires At(ts, i, Spell(p)) && i + |Spell(p)| < |ts|
    ensures i < |ts| && ParsePrimary(ts, i, depth, max) == ParsePostfix(ts, i + |Spell(p)|, max, Meant(p))
    decreases p, 0
  {
    hide ParsePrimary, At, Spell, Nest, Meant, Proper, Terminated, Depth;
    var base, field := Spell(p.base), p.field;
    MemberForm(p);
    Split(ts, i, base, [Dot, Ident(field)]);
    First(ts, i + |base|, [Dot, Ident(field)]);
    First(ts, i + |base| + 1, [Ident(field)]);
    ReservedIsKept(field);
    PrimaryRead(ts, i, depth, max, p.base);
    assert ParsePostfix(ts, i + |base|, max, Meant(p.base)) == ParsePostfix(ts, i + |base| + 2, max, Meant(p));
  }

  lemma MemberForm(p: Phrase)
    requires p.Field?
    ensures Spell(p) == Spell(p.base) + [Dot, Ident(p.field)] && Nest(p) == Nest(p.base)
    ensures Meant(p) == Member(Meant(p.base), p.field) && Depth(Meant(p.base)) <= Depth(Meant(p))
    ensures Proper(p) ==> Proper(p.base) && Level(p.base) == 8 && !Kept(p.field)
  {
  }

  lemma {:induction false} CallRead(ts: seq<Token>, i: nat, depth: nat, max: nat, p: Phrase)
    requires Terminated(ts) && depth > 0 && Room(p, depth - 1, max) && p.Apply?
    requires At(ts, i, Spell(p)) && i + |Spell(p)| < |ts|
    ensures i < |ts| && ParsePrimary(ts, i, depth, max) == ParsePostfix(ts, i + |Spell(p)|, max, Meant(p))
    decreases p, 1
  {
    hide ParseArguments, ParsePostfix, ParsePrimary, ParseAtom, At, Spell, Nest, Meant, MeantAll, SpellArguments,
         NestArguments, DepthAll, ProperAll, Terminated;
    var name, args := p.callee, SpellArguments(p.args);
    CallForm(p);
    Split(ts, i, [Ident(name)], [LParen] + (args + [RParen]));
    First(ts, i, [Ident(name)]);
    Split(ts, i + 1, [LParen], args + [RParen]);
    First(ts, i + 1, [LParen]);
    Split(ts, i + 2, args, [RParen]);
    First(ts, i + 2 + |args|, [RParen]);
    if p.args == [] {
      NoArguments();
    } else {
      ArgumentsRead(ts, i + 2, depth, max, p.args);
      FirstArgument(ts, i + 2, p.args);
    }
    assert ParseCallArguments(ts, i + 2, depth, max) == Ok(Parsed(MeantAll(p.args), i + 3 + |args|));
    CallAtom(ts, i, depth, max, name);
    AtomGives(ts, i, depth, max, Meant(p), i + 3 + |args|);
  }

  lemma NoArguments()
    ensures SpellArguments([]) == [] && MeantAll([]) == []
  {
  }

  lemma CallAtom(ts: seq<Token>, i: nat, depth: nat, max: nat, name: string)
    requires i + 2 < |ts| && Terminated(ts) && Usable(name) && ts[i] == Ident(name) && ts[i + 1] == LParen
    requires ParseCallArguments(ts, i + 2, depth, max).Ok?
    ensures var args := ParseCallArguments(ts, i + 2, depth, max).value;
            ParseAtom(ts, i, depth, max) == Ok(Parsed(Call(name, args.value), args.next))
  {
    hide ParseCallArguments, ParseExpression;
    ReservedIsKept(name);
  }

  lemma CallForm(p: Phrase)
    requires p.Apply?
    ensures Spell(p) == [Ident(p.callee)] + ([LParen] + (SpellArguments(p.args) + [RParen]))
    ensures Nest(p) == 1 + NestArguments(p.args) && Meant(p) == Call(p.callee, MeantAll(p.args))
    ensures DepthAll(MeantAll(p.args)) <= Depth(Meant(p))
    ensures Proper(p) ==> Usable(p.callee) && ProperAll(p.args)
  {
  }

  lemma ArgumentsForm(args: seq<Phrase>)
    requires args != []
    ensures |args| == 1 ==> SpellArguments(args) == Spell(args[0]) && MeantAll(args) == [Meant(args[0])]
    ensures |args| > 1 ==> SpellArguments(args) == Spell(args[0]) + ([Comma] + SpellArguments(args[1..]))
    ensures MeantAll(args) == [Meant(args[0])] + MeantAll(args[1..])
    ensures NestArguments(args) >= Nest(args[0]) && NestArguments(args) >= NestArguments(args[1..])
    ensures DepthAll(MeantAll(args)) >= Depth(Meant(args[0]))
            && DepthAll(MeantAll(args)) >= DepthAll(MeantAll(args[1..]))
    ensures ProperAll(args) <==> Proper(args[0]) && ProperAll(args[1..])
  {
    hide Spell, SpellArguments, Nest, NestArguments, Meant, Depth, DepthAll, Proper, ProperAll;
    assert MeantAll(args)[1..] == MeantAll(args[1..]);
    ArgumentsSpelled(args);
    ArgumentsNested(args);
    ArgumentsDeep(MeantAll(args));
    ArgumentsProper(args);
    if |args| == 1 { assert MeantAll(args[1..]) == []; }
  }

  lemma ArgumentsSpelled(args: seq<Phrase>)
    ensures |args| == 1 ==> SpellArguments(args) == Spell(args[0])
    ensures |args| > 1 ==> SpellArguments(args) == Spell(args[0]) + ([Comma] + SpellArguments(args[1..]))
  {
    hide Spell;
  }

  lemma ArgumentsNested(args: seq<Phrase>)
    ensures args != [] ==> NestArguments(args) == Max(Nest(args[0]), NestArguments(args[1..]))
  {
    hide Nest;
  }

  lemma ArgumentsDeep(args: seq<Expr>)
    ensures args != [] ==> DepthAll(args) >= Depth(args[0]) && DepthAll(args) >= DepthAll(args[1..])
  {
    hide Depth;
  }

  lemma ArgumentsProper(args: seq<Phrase>)
    ensures args != [] ==> (ProperAll(args) <==> Proper(args[0]) && ProperAll(args[1..]))
  {
    hide Proper;
  }

  lemma {:induction false} ArgumentsRead(ts: seq<Token>, i: nat, depth: nat, max: nat, args: seq<Phrase>)
    requires Terminated(ts) && args != [] && ProperAll(args) && DepthAll(MeantAll(args)) <= max
             && depth + NestArguments(args) <= max
    requires var p := SpellArguments(args); At(ts, i, p) && i + |p| < |ts| && ts[i + |p|] == RParen
    ensures i < |ts|
            && ParseArguments(ts, i, depth, max) == Ok(Parsed(MeantAll(args), i + |SpellArguments(args)| + 1))
    decreases args, 4
  {
    hide ParseExpression, ParseArguments, At, Spell, Nest, Meant, MeantAll, Depth, Proper, SpellArguments,
         NestArguments, DepthAll, ProperAll, Terminated, Ends, BinaryOf;
    ArgumentsForm(args);
    Punctuation(0);
    var p := Spell(args[0]);
    assert Room(args[0], depth, max);
    if |args| == 1 {
      WholeRead(ts, i, depth, max, args[0]);
      LastArgumentRead(ts, i, depth, max, Meant(args[0]), i + |p|);
    } else {
      Split(ts, i, p, [Comma] + SpellArguments(args[1..]));
      Split(ts, i + |p|, [Comma], SpellArguments(args[1..]));
      First(ts, i + |p|, [Comma]);
      WholeRead(ts, i, depth, max, args[0]);
      ArgumentsRead(ts, i + |p| + 1, depth, max, args[1..]);
      ArgumentRead(ts, i, depth, max, Meant(args[0]), i + |p|);
    }
  }

  lemma LastArgumentRead(ts: seq<Token>, i: nat, depth: nat, max: nat, e: Expr, next: nat)
    requires i < |ts| && next < |ts| && Terminated(ts) && ts[next] == RParen
    requires ParseExpression(ts, i, depth, max, 0) == Ok(Parsed(e, next))
    ensures ParseArguments(ts, i, depth, max) == Ok(Parsed([e], next + 1))
  {
    hide ParseExpression;
  }

  lemma ArgumentRead(ts: seq<Token>, i: nat, depth: nat, max: nat, e: Expr, next: nat)
    requires i < |ts| && next + 1 < |ts| && Terminated(ts) && ts[next] == Comma
    requires ParseExpression(ts, i, depth, max, 0) == Ok(Parsed(e, next))
    requires ParseArguments(ts, next + 1, depth, max).Ok?
    ensures var rest := ParseArguments(ts, next + 1, depth, max).value;
            ParseArguments(ts, i, depth, max) == Ok(Parsed([e] + rest.value, rest.next))
  {
    hide ParseExpression;
  }

  /** A phrase with no operator behind it is read as its tree. */
  lemma {:induction false} WholeRead(ts: seq<Token>, i: nat, depth: nat, max: nat, p: Phrase)
    requires Terminated(ts) && Room(p, depth, max)
    requires At(ts, i, Spell(p)) && i + |Spell(p)| < |ts| && Ends(ts[i + |Spell(p)|])
    ensures i < |ts| && ParseExpression(ts, i, depth, max, 0) == Ok(Parsed(Meant(p), i + |Spell(p)|))
    decreases p, 4
  {
    hide ParseExpression, ParseOperators, At, Spell, Meant, Nest, Depth, Proper;
    First(ts, i, Spell(p));
    OperandRead(ts, i, depth, max, 0, p);
    NoOperator(ts, i + |Spell(p)|, depth + 1, max, 0, Meant(p));
  }

  lemma {:induction false} BinaryRead(ts: seq<Token>, i: nat, depth: nat, max: nat, minimum: nat, p: Phrase)
    requires Terminated(ts) && Room(p, depth, max) && p.Infix? && minimum <= Precedence(p.bop)
    requires At(ts, i, Spell(p)) && i + |Spell(p)| < |ts| && Stops(ts[i + |Spell(p)|], Precedence(p.bop))
    ensures ParseExpression(ts, i, depth, max, minimum) ==
              ParseOperators(ts, i + |Spell(p)|, depth + 1, max, minimum, Meant(p))
    decreases p, 0
  {
    hide ParseExpression, ParseOperators, At, Spell, Meant, Nest, Depth, Proper, Stops, OperatorToken,
         Precedence, Room, BinaryOf, Level, Terminated;
    var level, next := Precedence(p.bop), i + |Spell(p)|;
    var token := OperatorToken(p.bop);
    var left, right := Spell(p.left), Spell(p.right);
    BinaryForm(p, depth, max);
    Split(ts, i, left, [token] + right);
    Split(ts, i + |left|, [token], right);
    First(ts, i + |left|, [token]);
    First(ts, i + |left| + 1, right);
    OperatorStops(p.bop, ts[next], Level(p.left), Level(p.right));
    OperandRead(ts, i, depth, max, minimum, p.left);
    OperandRead(ts, i + |left| + 1, depth + 1, max, level + 1, p.right);
    NoOperator(ts, next, depth + 2, max, level + 1, Meant(p.right));
    WholeOperand(ts, i + |left| + 1, depth + 1, max, level + 1, Meant(p.right), next);
    OperatorTaken(ts, i + |left|, depth + 1, max, minimum, p.bop, Meant(p.left), Meant(p.right), next);
  }

  lemma WholeOperand(ts: seq<Token>, i: nat, depth: nat, max: nat, minimum: nat, e: Expr, next: nat)
    requires i < |ts| && next < |ts| && Terminated(ts) && Depth(e) <= max
    requires ParseExpression(ts, i, depth, max, minimum) == ParseOperators(ts, next, depth + 1, max, minimum, e)
    requires ParseOperators(ts, next, depth + 1, max, minimum, e) == Ok(Parsed(e, next))
    ensures ParseExpression(ts, i, depth, max, minimum) == Ok(Parsed(e, next))
  {
    hide ParseExpression, ParseOperators, Depth;
  }

  lemma BinaryForm(p: Phrase, depth: nat, max: nat)
    requires p.Infix? && Room(p, depth, max)
    ensures Spell(p) == Spell(p.left) + ([OperatorToken(p.bop)] + Spell(p.right))
    ensures Meant(p) == Binary(p.bop, Meant(p.left), Meant(p.right)) && Depth(Meant(p)) <= max
    ensures Room(p.left, depth, max) && Room(p.right, depth + 1, max)
    ensures Level(p.left) >= Precedence(p.bop) && Level(p.right) > Precedence(p.bop)
    ensures Depth(Meant(p.left)) <= max && Depth(Meant(p.right)) <= max
  {
    hide OperatorToken, Precedence;
  }

  /** An operator stops its left operand, and what may follow the whole stops its right one. */
  lemma OperatorStops(op: BinaryOp, after: Token, left: nat, right: nat)
    requires Stops(after, Precedence(op)) && left >= Precedence(op) && right > Precedence(op)
    ensures Stops(OperatorToken(op), left) && Stops(after, right)
    ensures BinaryOf(after).Some? ==> BinaryOf(after).value.1 < Precedence(op) + 1
  {
    hide BinaryOf;
    OperatorIsBinary(op);
  }

  lemma OperatorTaken(ts: seq<Token>, i: nat, depth: nat, max: nat, minimum: nat, op: BinaryOp, left: Expr,
                      right: Expr, next: nat)
    requires i + 1 < |ts| && next < |ts| && Terminated(ts) && ts[i] == OperatorToken(op) && minimum <= Precedence(op)
    requires Depth(left) <= max && Depth(Binary(op, left, right)) <= max
    requires ParseExpression(ts, i + 1, depth, max, Precedence(op) + 1) == Ok(Parsed(right, next))
    ensures ParseOperators(ts, i, depth, max, minimum, left) ==
              ParseOperators(ts, next, depth, max, minimum, Binary(op, left, right))
  {
    hide ParseExpression, Depth, BinaryOf;
    OperatorIsBinary(op);
  }

  lemma {:induction false} UnaryRead(ts: seq<Token>, i: nat, depth: nat, max: nat, minimum: nat, p: Phrase)
    requires Terminated(ts) && Room(p, depth, max) && p.Sign?
    requires At(ts, i, Spell(p)) && i + |Spell(p)| < |ts| && Stops(ts[i + |Spell(p)|], 7)
    ensures ParseExpression(ts, i, depth, max, minimum) ==
              ParseOperators(ts, i + |Spell(p)|, depth + 1, max, minimum, Meant(p))
    decreases p, 0
  {
    hide ParseExpression, ParseOperators, ParsePrimary, ParseAtom, ParsePostfix, At, Spell, Meant, Nest,
         Depth, Proper, Room, Stops, BinaryOf, Terminated;
    var sign := if p.uop.Not? then Bang else Minus;
    var operand := Spell(p.operand);
    UnaryForm(p, depth, max);
    Split(ts, i, [sign], operand);
    First(ts, i, [sign]);
    First(ts, i + 1, operand);
    var next := i + 1 + |operand|;
    StopsUnary(ts[next], Level(p.operand));
    OperandRead(ts, i + 1, depth + 1, max, 7, p.operand);
    NoOperator(ts, next, depth + 2, max, 7, Meant(p.operand));
    WholeOperand(ts, i + 1, depth + 1, max, 7, Meant(p.operand), next);
    UnaryAtom(ts, i, depth + 1, max, Meant(p), next);
    AtomGives(ts, i, depth + 1, max, Meant(p), next);
    PostfixEnds(ts, next, max, Meant(p));
    ExpressionUnfolds(ts, i, depth, max, minimum);
  }

  lemma StopsUnary(token: Token, level: nat)
    requires Stops(token, 7) && level >= 7
    ensures token != Dot && (BinaryOf(token).Some? ==> BinaryOf(token).value.1 < 7) && Stops(token, level)
  {
  }

  lemma PostfixEnds(ts: seq<Token>, i: nat, max: nat, e: Expr)
    requires i < |ts| && Terminated(ts) && ts[i] != Dot && Depth(e) <= max
    ensures ParsePostfix(ts, i, max, e) == Ok(Parsed(e, i))
  {
    hide Depth;
  }

  lemma UnaryForm(p: Phrase, depth: nat, max: nat)
    requires p.Sign? && Room(p, depth, max)
    ensures Spell(p) == [if p.uop.Not? then Bang else Minus] + Spell(p.operand)
    ensures Meant(p) == Unary(p.uop, Meant(p.operand)) && Depth(Meant(p)) <= max
    ensures Room(p.operand, depth + 1, max) && depth < max && Depth(Meant(p.operand)) <= max && Level(p.operand) >= 7
  {
  }

  lemma UnaryAtom(ts: seq<Token>, i: nat, depth: nat, max: nat, e: Expr, next: nat)
    requires i + 1 < |ts| && Terminated(ts) && e.Unary? && ts[i] == if e.uop.Not? then Bang else Minus
    requires ParseExpression(ts, i + 1, depth, max, 7) == Ok(Parsed(e.operand, next))
    ensures ParseAtom(ts, i, depth, max) == Ok(Parsed(e, next))
  {
    hide ParseExpression, ParseCallArguments;
  }

  lemma ParenthesesAtom(ts: seq<Token>, i: nat, depth: nat, max: nat, e: Expr, next: nat)
    requires i + 1 < |ts| && next < |ts| && Terminated(ts) && ts[i] == LParen && ts[next] == RParen
    requires ParseExpression(ts, i + 1, depth, max, 0) == Ok(Parsed(e, next))
    ensures ParseAtom(ts, i, depth, max) == Ok(Parsed(e, next + 1))
  {
    hide ParseExpression, ParseCallArguments;
  }

  lemma AtomGives(ts: seq<Token>, i: nat, depth: nat, max: nat, e: Expr, next: nat)
    requires i < |ts| && next < |ts| && Terminated(ts) && ParseAtom(ts, i, depth, max) == Ok(Parsed(e, next))
    ensures ParsePrimary(ts, i, depth, max) == ParsePostfix(ts, next, max, e)
  {
    hide ParseAtom, ParsePostfix;
  }

  lemma ExpressionUnfolds(ts: seq<Token>, i: nat, depth: nat, max: nat, minimum: nat)
    requires i < |ts| && Terminated(ts) && depth < max && ParsePrimary(ts, i, depth + 1, max).Ok?
    ensures var left := ParsePrimary(ts, i, depth + 1, max).value;
            ParseExpression(ts, i, depth, max, minimum) ==
              ParseOperators(ts, left.next, depth + 1, max, minimum, left.value)
  {
    hide ParsePrimary, ParseOperators;
  }

  // ---------- how a phrase starts ----------

  /** The first token of an expression, and never the start of an assignment. */
  predicate Starts(token: Token) {
    match token
    case StringToken(_) => true
    case IntegerToken(_) => true
    case Ident(name) => Usable(name) || name == "true" || name == "false"
    case _ => token.Bang? || token.Minus? || token.LParen?
  }

  lemma {:induction false} SpellStarts(p: Phrase)
    requires Proper(p)
    ensures var ts := Spell(p); Starts(ts[0]) && (ts[0].Ident? && |ts| > 1 ==> AssignmentOf(ts[1]).None?)
    decreases p
  {
    hide Usable, Kept, OperatorToken;
    match p
    case Field(base, field) => SpellStarts(base);
    case Infix(op, left, right) => SpellStarts(left); OperatorIsBinary(op);
    case _ =>
  }

  lemma FirstArgument(ts: seq<Token>, i: nat, args: seq<Phrase>)
    requires args != [] && ProperAll(args) && At(ts, i, SpellArguments(args))
    ensures i < |ts| && Starts(ts[i])
  {
    hide At, Spell, Proper, SpellArguments, ProperAll, Nest, Depth, Meant, MeantAll;
    ArgumentsForm(args);
    SpellStarts(args[0]);
    First(ts, i, SpellArguments(args));
  }
}
