/** Whatever the parser returns is written in its tokens by the grammar. */
module MacroSpelled {
  import opened Wrappers
  import opened MacroCore
  import opened MacroCompile
  import opened MacroParser
  import opened MacroGrammar
  import opened MacroPhrases
  import opened MacroSentences

  lemma Join(ts: seq<Token>, i: nat, p: seq<Token>, q: seq<Token>)
    requires At(ts, i, p) && At(ts, i + |p|, q)
    ensures At(ts, i, p + q)
  {
    assert ts[i..i + |p + q|] == ts[i..i + |p|] + ts[i + |p|..i + |p| + |q|];
  }

  lemma One(ts: seq<Token>, i: nat)
    requires i < |ts|
    ensures At(ts, i, [ts[i]])
  {
  }

  lemma Two(ts: seq<Token>, i: nat)
    requires i + 1 < |ts|
    ensures At(ts, i, [ts[i], ts[i + 1]])
  {
  }

  // ---------- expressions ----------

  /** The phrase is written from `i` to `next` and stands for `e`. */
  predicate Stands(ts: seq<Token>, i: nat, p: Phrase, e: Expr, next: nat) {
    Proper(p) && Meant(p) == e && At(ts, i, Spell(p)) && next == i + |Spell(p)|
  }

  /** No token that goes on with an expression of the least precedence `minimum`. */
  predicate Ended(token: Token, minimum: nat) {
    token != Dot && (BinaryOf(token).Some? ==> BinaryOf(token).value.1 < minimum)
  }

  lemma {:induction false} ExpressionSpelled(ts: seq<Token>, i: nat, depth: nat, max: nat, minimum: nat)
    returns (p: Phrase)
    requires i < |ts| && Terminated(ts) && minimum <= 7 && ParseExpression(ts, i, depth, max, minimum).Ok?
    ensures var r := ParseExpression(ts, i, depth, max, minimum).value;
            && Stands(ts, i, p, r.value, r.next) && Level(p) >= minimum && depth + Nest(p) <= max
            && Ended(ts[r.next], minimum)
    decreases |ts| - i, 2
  {
    hide ParsePrimary, ParseOperators, Stands, Nest, BinaryOf, Depth;
    var left := ParsePrimary(ts, i, depth + 1, max).value;
    var q := PrimarySpelled(ts, i, depth + 1, max);
    assert BinaryOf(ts[left.next]).Some? ==> BinaryOf(ts[left.next]).value.1 <= Level(q) by {
      BinaryIsOperator(ts[left.next]);
    }
    p := OperatorsSpelled(ts, i, left.next, depth + 1, max, minimum, left.value, q);
  }

  lemma {:induction false} OperatorsSpelled(ts: seq<Token>, s: nat, i: nat, depth: nat, max: nat, minimum: nat,
                                            left: Expr, q: Phrase)
    returns (p: Phrase)
    requires s < i < |ts| && Terminated(ts) && minimum <= 7 && 0 < depth && Depth(left) <= max
    requires Stands(ts, s, q, left, i) && Level(q) >= minimum && depth - 1 + Nest(q) <= max
    requires ts[i] != Dot && (BinaryOf(ts[i]).Some? ==> BinaryOf(ts[i]).value.1 <= Level(q))
    requires ParseOperators(ts, i, depth, max, minimum, left).Ok?
    ensures var r := ParseOperators(ts, i, depth, max, minimum, left).value;
            && Stands(ts, s, p, r.value, r.next) && Level(p) >= minimum && depth - 1 + Nest(p) <= max
            && Ended(ts[r.next], minimum)
    decreases |ts| - i, 0
  {
    hide ParseExpression, ParseOperators, Stands, Nest, BinaryOf, Depth, Level, Precedence;
    BinaryIsOperator(ts[i]);
    OperatorsUnfold(ts, i, depth, max, minimum, left);
    if BinaryOf(ts[i]).None? || BinaryOf(ts[i]).value.1 < minimum {
      p := q;
    } else {
      var (op, precedence) := BinaryOf(ts[i]).value;
      var right := ParseExpression(ts, i + 1, depth, max, precedence + 1).value;
      var more := ExpressionSpelled(ts, i + 1, depth, max, precedence + 1);
      InfixStands(ts, s, i, op, q, left, more, right, depth, max);
      p := OperatorsSpelled(ts, s, right.next, depth, max, minimum, Binary(op, left, right.value), Infix(op, q, more));
    }
  }

  lemma OperatorsUnfold(ts: seq<Token>, i: nat, depth: nat, max: nat, minimum: nat, left: Expr)
    requires i < |ts| && Terminated(ts) && Depth(left) <= max && ParseOperators(ts, i, depth, max, minimum, left).Ok?
    ensures BinaryOf(ts[i]).None? || BinaryOf(ts[i]).value.1 < minimum ==>
              ParseOperators(ts, i, depth, max, minimum, left) == Ok(Parsed(left, i))
    ensures BinaryOf(ts[i]).Some? && BinaryOf(ts[i]).value.1 >= minimum ==>
              var (op, precedence) := BinaryOf(ts[i]).value;
              var right := ParseExpression(ts, i + 1, depth, max, precedence + 1);
              && right.Ok? && Depth(Binary(op, left, right.value.value)) <= max
              && ParseOperators(ts, i, depth, max, minimum, left) ==
                ParseOperators(ts, right.value.next, depth, max, minimum, Binary(op, left, right.value.value))
  {
    hide ParseExpression, BinaryOf, Depth;
  }

  lemma InfixStands(ts: seq<Token>, s: nat, i: nat, op: BinaryOp, q: Phrase, left: Expr, more: Phrase,
                    right: Parsed<Expr>, depth: nat, max: nat)
    requires i < |ts| && ts[i] == OperatorToken(op) && depth > 0
    requires Stands(ts, s, q, left, i) && Stands(ts, i + 1, more, right.value, right.next)
    requires Level(q) >= Precedence(op) && Level(more) > Precedence(op)
    requires depth - 1 + Nest(q) <= max && depth + Nest(more) <= max
    ensures Stands(ts, s, Infix(op, q, more), Binary(op, left, right.value), right.next)
    ensures Level(Infix(op, q, more)) == Precedence(op) && depth - 1 + Nest(Infix(op, q, more)) <= max
  {
    hide At;
    One(ts, i);
    Join(ts, i, [ts[i]], Spell(more));
    Join(ts, s, Spell(q), [ts[i]] + Spell(more));
  }

  lemma {:induction false} PrimarySpelled(ts: seq<Token>, i: nat, depth: nat, max: nat) returns (p: Phrase)
    requires i < |ts| && Terminated(ts) && 0 < depth <= max && ParsePrimary(ts, i, depth, max).Ok?
    ensures var r := ParsePrimary(ts, i, depth, max).value;
            Stands(ts, i, p, r.value, r.next) && Level(p) >= 7 && depth - 1 + Nest(p) <= max && ts[r.next] != Dot
    decreases |ts| - i, 1
  {
    hide ParseAtom, ParsePostfix, Stands, Nest, Level;
    var q := AtomSpelled(ts, i, depth, max);
    var atom := ParseAtom(ts, i, depth, max).value;
    p := PostfixSpelled(ts, i, atom.next, depth, max, atom.value, q);
  }

  lemma {:induction false} AtomSpelled(ts: seq<Token>, i: nat, depth: nat, max: nat) returns (p: Phrase)
    requires i < |ts| && Terminated(ts) && 0 < depth <= max && ParseAtom(ts, i, depth, max).Ok?
    ensures var r := ParseAtom(ts, i, depth, max).value;
            && Stands(ts, i, p, r.value, r.next) && depth - 1 + Nest(p) <= max
            && (Level(p) == 8 || (Level(p) == 7 && ts[r.next] != Dot))
    decreases |ts| - i, 0
  {
    hide ParseExpression, ParseCallArguments, ParseAtom, Stands, Nest;
    AtomUnfolds(ts, i, depth, max);
    var t := ts[i];
    if t.Ident? && ts[i + 1] == LParen && !IsFlag(t) {
      var args := CallArgumentsSpelled(ts, i + 2, depth, max);
      p := Apply(t.name, args);
      ApplyStands(ts, i, depth, max, t.name, args);
    } else if IsWord(t) {
      p := WordPhrase(t);
      SingleStands(ts, i, p);
    } else if t == LParen {
      var inner := ExpressionSpelled(ts, i + 1, depth, max, 0);
      p := Paren(inner);
      ParenStands(ts, i, inner, ParseExpression(ts, i + 1, depth, max, 0).value);
    } else {
      var operand := ExpressionSpelled(ts, i + 1, depth, max, 7);
      var op := if t == Bang then Not else Negate;
      p := Sign(op, operand);
      SignStands(ts, i, op, operand, ParseExpression(ts, i + 1, depth, max, 7).value);
    }
  }

  predicate IsFlag(token: Token) {
    token == Ident("true") || token == Ident("false")
  }

  predicate IsWord(token: Token) {
    token.StringToken? || token.IntegerToken? || token.Ident?
  }

  /** The phrase of one token. */
  function WordPhrase(token: Token): Phrase
    requires IsWord(token)
  {
    if token.StringToken? then Lit(Str(token.text))
    else if token.IntegerToken? then Lit(Int(token.number))
    else if IsFlag(token) then Lit(Bool(token.name == "true"))
    else Name(token.name)
  }

  /** The atoms that are accepted, by their first token. */
  lemma AtomUnfolds(ts: seq<Token>, i: nat, depth: nat, max: nat)
    requires i < |ts| && Terminated(ts) && ParseAtom(ts, i, depth, max).Ok?
    ensures var (t, r) := (ts[i], ParseAtom(ts, i, depth, max).value);
            if t.Ident? && ts[i + 1] == LParen && !IsFlag(t) then
              var args := ParseCallArguments(ts, i + 2, depth, max);
              Usable(t.name) && args.Ok? && r == Parsed(Call(t.name, args.value.value), args.value.next)
            else if IsWord(t) then Proper(WordPhrase(t)) && r == Parsed(Meant(WordPhrase(t)), i + 1)
            else if t == LParen then
              var inner := ParseExpression(ts, i + 1, depth, max, 0);
              inner.Ok? && ts[inner.value.next] == RParen && r == Parsed(inner.value.value, inner.value.next + 1)
            else
              var operand := ParseExpression(ts, i + 1, depth, max, 7);
              && (t == Bang || t == Minus) && operand.Ok?
              && r == Parsed(Unary(if t == Bang then Not else Negate, operand.value.value), operand.value.next)
  {
    hide ParseExpression, ParseCallArguments, Reserved, Kept;
    if ts[i].Ident? { ReservedIsKept(ts[i].name); }
  }

  lemma SingleStands(ts: seq<Token>, i: nat, p: Phrase)
    requires i < |ts| && Proper(p) && (p.Lit? || p.Name?) && Spell(p) == [ts[i]]
    ensures Stands(ts, i, p, Meant(p), i + 1) && Level(p) == 8 && Nest(p) == 1
  {
    One(ts, i);
  }

  lemma ApplyStands(ts: seq<Token>, i: nat, depth: nat, max: nat, name: string, args: seq<Phrase>)
    requires i + 2 < |ts| && Terminated(ts) && depth > 0 && Usable(name) && ts[i] == Ident(name) && ts[i + 1] == LParen
    requires ParseCallArguments(ts, i + 2, depth, max).Ok?
    requires var r := ParseCallArguments(ts, i + 2, depth, max).value;
             ArgumentsStand(ts, i + 2, args, r.value, r.next) && depth + NestArguments(args) <= max
    ensures var r := ParseCallArguments(ts, i + 2, depth, max).value;
            Stands(ts, i, Apply(name, args), Call(name, r.value), r.next)
    ensures Level(Apply(name, args)) == 8 && depth - 1 + Nest(Apply(name, args)) <= max
  {
    hide At, SpellArguments, MeantAll, ProperAll, NestArguments, ParseCallArguments;
    One(ts, i);
    One(ts, i + 1);
    Join(ts, i + 1, [LParen], SpellArguments(args) + [RParen]);
    Join(ts, i, [Ident(name)], [LParen] + (SpellArguments(args) + [RParen]));
  }

  lemma ParenStands(ts: seq<Token>, i: nat, inner: Phrase, r: Parsed<Expr>)
    requires i < |ts| && r.next < |ts| && ts[i] == LParen && ts[r.next] == RParen
    requires Stands(ts, i + 1, inner, r.value, r.next)
    ensures Stands(ts, i, Paren(inner), r.value, r.next + 1) && Level(Paren(inner)) == 8
    ensures Nest(Paren(inner)) == 1 + Nest(inner)
  {
    hide At;
    One(ts, i);
    One(ts, r.next);
    Join(ts, i + 1, Spell(inner), [RParen]);
    Join(ts, i, [LParen], Spell(inner) + [RParen]);
  }

  lemma SignStands(ts: seq<Token>, i: nat, op: UnaryOp, operand: Phrase, r: Parsed<Expr>)
    requires i < |ts| && ts[i] == (if op.Not? then Bang else Minus)
    requires Stands(ts, i + 1, operand, r.value, r.next) && Level(operand) >= 7
    ensures Stands(ts, i, Sign(op, operand), Unary(op, r.value), r.next) && Level(Sign(op, operand)) == 7
    ensures Nest(Sign(op, operand)) == 1 + Nest(operand)
  {
    hide At;
    One(ts, i);
    Join(ts, i, [ts[i]], Spell(operand));
  }

  lemma {:induction false} PostfixSpelled(ts: seq<Token>, s: nat, i: nat, depth: nat, max: nat, e: Expr, q: Phrase)
    returns (p: Phrase)
    requires i < |ts| && Terminated(ts) && depth > 0 && ParsePostfix(ts, i, max, e).Ok?
    requires Stands(ts, s, q, e, i) && depth - 1 + Nest(q) <= max
    requires Level(q) == 8 || (Level(q) == 7 && ts[i] != Dot)
    ensures var r := ParsePostfix(ts, i, max, e).value;
            Stands(ts, s, p, r.value, r.next) && Level(p) >= 7 && depth - 1 + Nest(p) <= max && ts[r.next] != Dot
    decreases |ts| - i
  {
    hide Stands, Nest, Level, Depth, ParsePostfix;
    PostfixUnfolds(ts, i, max, e);
    if ts[i] == Dot {
      var field := ts[i + 1].name;
      FieldStands(ts, s, i, q, e, field);
      p := PostfixSpelled(ts, s, i + 2, depth, max, Member(e, field), Field(q, field));
    } else {
      p := q;
    }
  }

  lemma PostfixUnfolds(ts: seq<Token>, i: nat, max: nat, e: Expr)
    requires i < |ts| && Terminated(ts) && ParsePostfix(ts, i, max, e).Ok?
    ensures ts[i] != Dot ==> ParsePostfix(ts, i, max, e) == Ok(Parsed(e, i))
    ensures ts[i] == Dot ==>
              && i + 2 < |ts| && ts[i + 1].Ident? && !Kept(ts[i + 1].name)
              && ParsePostfix(ts, i, max, e) == ParsePostfix(ts, i + 2, max, Member(e, ts[i + 1].name))
  {
    hide Reserved, Kept, Depth;
    if ts[i] == Dot && ts[i + 1].Ident? { ReservedIsKept(ts[i + 1].name); }
  }

  lemma FieldStands(ts: seq<Token>, s: nat, i: nat, q: Phrase, e: Expr, field: string)
    requires i + 1 < |ts| && ts[i] == Dot && ts[i + 1] == Ident(field) && !Kept(field)
    requires Stands(ts, s, q, e, i) && Level(q) == 8
    ensures Stands(ts, s, Field(q, field), Member(e, field), i + 2)
    ensures Level(Field(q, field)) == 8 && Nest(Field(q, field)) == Nest(q)
  {
    hide Kept;
    Two(ts, i);
    Join(ts, s, Spell(q), [Dot, Ident(field)]);
  }

  // ---------- arguments ----------

  predicate ArgumentsStand(ts: seq<Token>, i: nat, args: seq<Phrase>, es: seq<Expr>, next: nat) {
    ProperAll(args) && MeantAll(args) == es && At(ts, i, SpellArguments(args) + [RParen])
    && next == i + |SpellArguments(args)| + 1
  }

  lemma {:induction false} CallArgumentsSpelled(ts: seq<Token>, i: nat, depth: nat, max: nat)
    returns (args: seq<Phrase>)
    requires i < |ts| && Terminated(ts) && depth <= max && ParseCallArguments(ts, i, depth, max).Ok?
    ensures var r := ParseCallArguments(ts, i, depth, max).value;
            ArgumentsStand(ts, i, args, r.value, r.next) && depth + NestArguments(args) <= max
    decreases |ts| - i, 4
  {
    hide ParseArguments, ArgumentsStand;
    if ts[i] == RParen {
      args := [];
      NoneStand(ts, i);
    } else {
      args := ArgumentsSpelled(ts, i, depth, max);
    }
  }

  lemma NoneStand(ts: seq<Token>, i: nat)
    requires i < |ts| && ts[i] == RParen
    ensures ArgumentsStand(ts, i, [], [], i + 1)
  {
    One(ts, i);
    assert SpellArguments([]) + [RParen] == [RParen];
  }

  lemma {:induction false} ArgumentsSpelled(ts: seq<Token>, i: nat, depth: nat, max: nat) returns (args: seq<Phrase>)
    requires i < |ts| && Terminated(ts) && ParseArguments(ts, i, depth, max).Ok?
    ensures var r := ParseArguments(ts, i, depth, max).value;
            && args != [] && ArgumentsStand(ts, i, args, r.value, r.next) && depth + NestArguments(args) <= max
    decreases |ts| - i, 3
  {
    hide ParseExpression, ArgumentsStand, Stands, Nest;
    var first := ParseExpression(ts, i, depth, max, 0).value;
    var p := ExpressionSpelled(ts, i, depth, max, 0);
    if ts[first.next] == Comma {
      var rest := ParseArguments(ts, first.next + 1, depth, max).value;
      var more := ArgumentsSpelled(ts, first.next + 1, depth, max);
      args := [p] + more;
      MoreStand(ts, i, p, first, more, rest);
    } else {
      args := [p];
      LastStands(ts, i, p, first);
    }
  }

  lemma LastStands(ts: seq<Token>, i: nat, p: Phrase, r: Parsed<Expr>)
    requires r.next < |ts| && ts[r.next] == RParen && Stands(ts, i, p, r.value, r.next)
    ensures ArgumentsStand(ts, i, [p], [r.value], r.next + 1) && NestArguments([p]) == Nest(p)
  {
    hide At;
    One(ts, r.next);
    Join(ts, i, Spell(p), [RParen]);
    ArgumentsForm([p]);
  }

  lemma MoreStand(ts: seq<Token>, i: nat, p: Phrase, r: Parsed<Expr>, more: seq<Phrase>, rest: Parsed<seq<Expr>>)
    requires r.next < |ts| && ts[r.next] == Comma && Stands(ts, i, p, r.value, r.next) && more != []
    requires ArgumentsStand(ts, r.next + 1, more, rest.value, rest.next)
    ensures ArgumentsStand(ts, i, [p] + more, [r.value] + rest.value, rest.next)
    ensures NestArguments([p] + more) == Max(Nest(p), NestArguments(more))
  {
    hide At, Spell, SpellArguments, Meant, MeantAll, Proper, ProperAll, Nest, NestArguments;
    var args, tail := [p] + more, SpellArguments(more) + [RParen];
    assert args[1..] == more;
    ArgumentsForm(args);
    ArgumentsNested(args);
    One(ts, r.next);
    Join(ts, r.next, [Comma], tail);
    Join(ts, i, Spell(p), [Comma] + tail);
    assert Spell(p) + ([Comma] + tail) == SpellArguments(args) + [RParen];
  }

  // ---------- simple statements ----------

  predicate SimpleStands(ts: seq<Token>, i: nat, s: Sentence, t: Statement, next: nat) {
    Said(s) == t && At(ts, i, SpellSimple(s)) && next == i + |SpellSimple(s)|
  }

  lemma RoomFound(p: Phrase, e: Expr, depth: nat, max: nat)
    requires Proper(p) && Meant(p) == e && Depth(e) <= max && depth + Nest(p) <= max
    ensures Room(p, depth, max)
  {
  }

  /** An expression that stands for itself: what `ParseExpression` has read, with room. */
  lemma WholeSpelled(ts: seq<Token>, i: nat, depth: nat, max: nat) returns (p: Phrase)
    requires i < |ts| && Terminated(ts) && ParseExpression(ts, i, depth, max, 0).Ok?
    ensures var r := ParseExpression(ts, i, depth, max, 0).value;
            Room(p, depth, max) && Meant(p) == r.value && At(ts, i, Spell(p)) && r.next == i + |Spell(p)|
  {
    hide ParseExpression, Proper, Meant, Depth, Nest, Spell, At, Room;
    p := ExpressionSpelled(ts, i, depth, max, 0);
    RoomFound(p, ParseExpression(ts, i, depth, max, 0).value.value, depth, max);
  }

  lemma SimpleSpelled(ts: seq<Token>, i: nat, depth: nat, max: nat) returns (s: Sentence)
    requires i < |ts| && Terminated(ts) && ParseSimple(ts, i, depth, max).Ok?
    ensures var r := ParseSimple(ts, i, depth, max).value; SimpleStands(ts, i, s, r.value, r.next)
    ensures IsSimple(s) && SimpleFits(s, depth, max)
    ensures s.Sets? || s.Updates? || s.Bumps? ==> ts[i] == Ident(s.name)
  {
    hide ParseExpression, ParseAssignment, Room, Spell, Meant, At, Reserved, Kept;
    if Keyword(ts, i, "let") {
      var name := ts[i + 1].name;
      var p := WholeSpelled(ts, i + 3, depth, max);
      s := Declares(name, p);
      ReservedIsKept(name);
      assert At(ts, i, [Ident("let"), Ident(name), EqualSign]) by { Three(ts, i); }
      Join(ts, i, [Ident("let"), Ident(name), EqualSign], Spell(p));
    } else if ts[i].Ident? && AssignmentOf(ts[i + 1]).Some? {
      s := AssignmentSpelled(ts, i, depth, max);
    } else {
      var p := WholeSpelled(ts, i, depth, max);
      s := Does(p);
    }
  }

  lemma Three(ts: seq<Token>, i: nat)
    requires i + 2 < |ts|
    ensures At(ts, i, [ts[i], ts[i + 1], ts[i + 2]])
  {
  }

  lemma AssignmentSpelled(ts: seq<Token>, i: nat, depth: nat, max: nat) returns (s: Sentence)
    requires i + 1 < |ts| && Terminated(ts) && ts[i].Ident? && AssignmentOf(ts[i + 1]).Some? && ts[i].name != "let"
    requires ParseAssignment(ts, i, depth, max).Ok?
    ensures var r := ParseAssignment(ts, i, depth, max).value; SimpleStands(ts, i, s, r.value, r.next)
    ensures IsSimple(s) && SimpleFits(s, depth, max)
    ensures s.Sets? || s.Updates? || s.Bumps? ==> ts[i] == Ident(s.name)
  {
    hide ParseExpression, Room, Spell, Meant, At;
    var name, token := ts[i].name, ts[i + 1];
    Two(ts, i);
    if token.PlusPlus? || token.MinusMinus? {
      s := Bumps(name, token.PlusPlus?);
    } else {
      var p := WholeSpelled(ts, i + 2, depth, max);
      Join(ts, i, [Ident(name), token], Spell(p));
      if token == EqualSign {
        s := Sets(name, p);
      } else {
        s := Updates(name, AssignmentOf(token).value.value, p);
      }
    }
  }

  // ---------- statements ----------

  predicate SentenceStands(ts: seq<Token>, i: nat, s: Sentence, t: Statement, next: nat) {
    Said(s) == t && At(ts, i, SpellSentence(s)) && next == i + |SpellSentence(s)|
  }

  predicate AllStand(ts: seq<Token>, i: nat, body: seq<Sentence>, block: bool, t: seq<Statement>, next: nat) {
    var end := i + |SpellAll(body)|;
    && SaidAll(body) == t && At(ts, i, SpellAll(body)) && end < |ts|
    && if block then next == end + 1 && ts[end] == RBrace else next == end && ts[end] == Eof
  }

  lemma {:induction false} StatementSpelled(ts: seq<Token>, i: nat, depth: nat, max: nat) returns (s: Sentence)
    requires i < |ts| && Terminated(ts) && ParseStatement(ts, i, depth, max).Ok?
    ensures var r := ParseStatement(ts, i, depth, max).value;
            SentenceStands(ts, i, s, r.value, r.next) && (Open(s) ==> ts[r.next] != Ident("else"))
    ensures Fits(s, depth, max) && (ts[i] == Ident("if") ==> s.Chooses?) && (ts[i] == LBrace ==> s.Braces?)
    decreases |ts| - i, 2
  {
    hide ParseStatement, ParseStatements, ParseIf, ParseWhile, ParseFor, ParsePlain, SentenceStands, AllStand, FitsAll;
    assert depth < max by { StatementHasRoom(ts, i, depth, max); }
    StatementUnfolds(ts, i, depth, max);
    if ts[i] == LBrace {
      var body := StatementsSpelled(ts, i + 1, depth + 1, max, true);
      s := Braces(body);
      BracesStand(ts, i, body, ParseStatements(ts, i + 1, depth + 1, max, true).value);
    } else if ts[i] == Ident("if") {
      s := IfSpelled(ts, i, depth, max);
    } else if ts[i] == Ident("while") {
      s := WhileSpelled(ts, i, depth, max);
    } else if ts[i] == Ident("for") {
      s := ForSpelled(ts, i, depth, max);
    } else {
      s := PlainSpelled(ts, i, depth, max);
    }
  }

  lemma StatementHasRoom(ts: seq<Token>, i: nat, depth: nat, max: nat)
    requires i < |ts| && Terminated(ts) && ParseStatement(ts, i, depth, max).Ok?
    ensures depth < max
  {
    hide ParseStatements, ParseIf, ParseWhile, ParseFor, ParsePlain;
  }

  lemma BracesStand(ts: seq<Token>, i: nat, body: seq<Sentence>, r: Parsed<seq<Statement>>)
    requires i < |ts| && ts[i] == LBrace && AllStand(ts, i + 1, body, true, r.value, r.next)
    ensures SentenceStands(ts, i, Braces(body), Block(r.value), r.next)
  {
    hide At, SpellAll, SaidAll;
    var inner := SpellAll(body);
    One(ts, i);
    One(ts, i + 1 + |inner|);
    Join(ts, i + 1, inner, [RBrace]);
    Join(ts, i, [LBrace], inner + [RBrace]);
  }

  lemma {:induction false} StatementsSpelled(ts: seq<Token>, i: nat, depth: nat, max: nat, block: bool)
    returns (body: seq<Sentence>)
    requires i < |ts| && Terminated(ts) && ParseStatements(ts, i, depth, max, block).Ok?
    ensures var r := ParseStatements(ts, i, depth, max, block).value; AllStand(ts, i, body, block, r.value, r.next)
    ensures FitsAll(body, depth, max) && (body != [] && BeginsElse(body[0]) ==> ts[i] == Ident("else"))
    decreases |ts| - i, 4
  {
    hide ParseStatement, SentenceStands, AllStand, Fits, FitsAll, Open, BeginsElse;
    if ts[i] == Eof || (block && ts[i] == RBrace) {
      body := [];
      NoneStands(ts, i, block, depth, max);
    } else {
      var first := ParseStatement(ts, i, depth, max).value;
      var s := StatementSpelled(ts, i, depth, max);
      var more := StatementsSpelled(ts, first.next, depth, max, block);
      body := [s] + more;
      MoreStands(ts, i, s, first, more, ParseStatements(ts, first.next, depth, max, block).value, block, depth, max);
    }
  }

  lemma NoneStands(ts: seq<Token>, i: nat, block: bool, depth: nat, max: nat)
    requires i < |ts| && ts[i] == if block then RBrace else Eof
    ensures AllStand(ts, i, [], block, [], if block then i + 1 else i) && FitsAll([], depth, max)
  {
  }

  lemma MoreStands(ts: seq<Token>, i: nat, s: Sentence, r: Parsed<Statement>, more: seq<Sentence>,
                   rest: Parsed<seq<Statement>>, block: bool, depth: nat, max: nat)
    requires SentenceStands(ts, i, s, r.value, r.next) && AllStand(ts, r.next, more, block, rest.value, rest.next)
    requires r.next < |ts| && Fits(s, depth, max) && FitsAll(more, depth, max)
    requires Open(s) ==> ts[r.next] != Ident("else")
    requires more != [] && BeginsElse(more[0]) ==> ts[r.next] == Ident("else")
    ensures AllStand(ts, i, [s] + more, block, [r.value] + rest.value, rest.next) && FitsAll([s] + more, depth, max)
    ensures BeginsElse(s) ==> ts[i] == Ident("else")
  {
    hide At, Said, SaidAll, SpellSentence, SpellAll, Fits, FitsAll, Open, BeginsElse;
    AllOf(s, more, depth, max);
    Join(ts, i, SpellSentence(s), SpellAll(more));
    SentenceOpens(s, depth, max);
    First(ts, i, SpellSentence(s));
  }

  lemma AllOf(s: Sentence, more: seq<Sentence>, depth: nat, max: nat)
    ensures SpellAll([s] + more) == SpellSentence(s) + SpellAll(more)
    ensures SaidAll([s] + more) == [Said(s)] + SaidAll(more)
    ensures FitsAll([s] + more, depth, max) <==>
              Fits(s, depth, max) && FitsAll(more, depth, max) && (more != [] ==> !(Open(s) && BeginsElse(more[0])))
  {
    hide Said, SpellSentence, Fits, Open, BeginsElse;
    assert ([s] + more)[1..] == more;
  }

  lemma PlainSpelled(ts: seq<Token>, i: nat, depth: nat, max: nat) returns (s: Sentence)
    requires i < |ts| && Terminated(ts) && depth < max && ParsePlain(ts, i, depth + 1, max).Ok?
    requires ts[i] !in {LBrace, Ident("if"), Ident("while"), Ident("for")}
    ensures var r := ParsePlain(ts, i, depth + 1, max).value; SentenceStands(ts, i, s, r.value, r.next)
    ensures Fits(s, depth, max) && !s.Chooses?
  {
    hide ParseSimple, SimpleStands, At, Said, SpellSimple, SimpleFits;
    if Keyword(ts, i, "break") || Keyword(ts, i, "continue") {
      s := if Keyword(ts, i, "break") then Breaks else GoesOn;
      WordStands(ts, i, s);
    } else if ts[i] == Semicolon {
      s := Nothing;
      WordStands(ts, i, s);
    } else {
      var r := ParseSimple(ts, i, depth + 1, max).value;
      s := SimpleSpelled(ts, i, depth + 1, max);
      SimpleEnds(ts, i, s, r);
    }
  }

  lemma WordStands(ts: seq<Token>, i: nat, s: Sentence)
    requires i < |ts|
    requires s.Nothing? ==> ts[i] == Semicolon
    requires s.Breaks? || s.GoesOn? ==>
               i + 1 < |ts| && ts[i] == Ident(if s.Breaks? then "break" else "continue") && ts[i + 1] == Semicolon
    requires s.Nothing? || s.Breaks? || s.GoesOn?
    ensures SentenceStands(ts, i, s, if s.Breaks? then Break else if s.GoesOn? then Continue else Empty,
                           if s.Nothing? then i + 1 else i + 2)
  {
    hide At;
    if s.Nothing? { One(ts, i); } else { Two(ts, i); }
  }

  lemma SimpleEnds(ts: seq<Token>, i: nat, s: Sentence, r: Parsed<Statement>)
    requires r.next < |ts| && ts[r.next] == Semicolon && IsSimple(s) && SimpleStands(ts, i, s, r.value, r.next)
    ensures SentenceStands(ts, i, s, r.value, r.next + 1)
  {
    hide At, SpellSimple, Said;
    One(ts, r.next);
    Join(ts, i, SpellSimple(s), [Semicolon]);
  }

  lemma ConditionSpelled(ts: seq<Token>, i: nat, depth: nat, max: nat) returns (p: Phrase)
    requires i < |ts| && Terminated(ts) && ParseCondition(ts, i, depth, max).Ok?
    ensures var r := ParseCondition(ts, i, depth, max).value;
            && Room(p, depth, max) && Meant(p) == r.value && At(ts, i, SpellCondition(p))
            && r.next == i + |SpellCondition(p)|
  {
    hide ParseExpression, At, Spell, Meant, Room;
    p := WholeSpelled(ts, i + 1, depth, max);
    var next := ParseExpression(ts, i + 1, depth, max, 0).value.next;
    One(ts, i);
    One(ts, next);
    Join(ts, i + 1, Spell(p), [RParen]);
    Join(ts, i, [LParen], Spell(p) + [RParen]);
  }

  lemma {:induction false} BlockSpelled(ts: seq<Token>, i: nat, depth: nat, max: nat) returns (s: Sentence)
    requires i < |ts| && Terminated(ts) && ParseBlock(ts, i, depth, max).Ok?
    ensures var r := ParseBlock(ts, i, depth, max).value; SentenceStands(ts, i, s, r.value, r.next)
    ensures s.Braces? && Fits(s, depth, max)
    decreases |ts| - i, 3
  {
    hide ParseStatement, SentenceStands, Fits;
    s := StatementSpelled(ts, i, depth, max);
  }

  lemma {:induction false} WhileSpelled(ts: seq<Token>, i: nat, depth: nat, max: nat) returns (s: Sentence)
    requires i + 1 < |ts| && Terminated(ts) && depth < max && ts[i] == Ident("while")
             && ParseWhile(ts, i + 1, depth + 1, max).Ok?
    ensures var r := ParseWhile(ts, i + 1, depth + 1, max).value; SentenceStands(ts, i, s, r.value, r.next)
    ensures Fits(s, depth, max) && s.Repeats?
    decreases |ts| - i, 1
  {
    hide ParseCondition, ParseBlock, SentenceStands, At, SpellCondition, Meant, Room;
    var cond := ParseCondition(ts, i + 1, depth + 1, max).value;
    var p := ConditionSpelled(ts, i + 1, depth + 1, max);
    var inner := BlockSpelled(ts, cond.next, depth + 1, max);
    s := Repeats(p, inner);
    RepeatsStand(ts, i, p, inner, cond, ParseBlock(ts, cond.next, depth + 1, max).value);
  }

  lemma RepeatsStand(ts: seq<Token>, i: nat, p: Phrase, inner: Sentence, cond: Parsed<Expr>, body: Parsed<Statement>)
    requires i < |ts| && ts[i] == Ident("while") && Meant(p) == cond.value && At(ts, i + 1, SpellCondition(p))
    requires cond.next == i + 1 + |SpellCondition(p)| && SentenceStands(ts, cond.next, inner, body.value, body.next)
    ensures SentenceStands(ts, i, Repeats(p, inner), While(cond.value, body.value), body.next)
  {
    hide At, SpellCondition, Meant;
    One(ts, i);
    Join(ts, i + 1, SpellCondition(p), SpellSentence(inner));
    Join(ts, i, [Ident("while")], SpellCondition(p) + SpellSentence(inner));
  }

  predicate ElseStands(ts: seq<Token>, i: nat, s: Option<Sentence>, t: Option<Statement>, next: nat) {
    SaidOption(s) == t && At(ts, i, SpellElse(s)) && next == i + |SpellElse(s)|
  }

  lemma {:induction false} IfSpelled(ts: seq<Token>, i: nat, depth: nat, max: nat) returns (s: Sentence)
    requires i + 1 < |ts| && Terminated(ts) && depth < max && ts[i] == Ident("if")
             && ParseIf(ts, i + 1, depth + 1, max).Ok?
    ensures var r := ParseIf(ts, i + 1, depth + 1, max).value;
            SentenceStands(ts, i, s, r.value, r.next) && (Open(s) ==> ts[r.next] != Ident("else"))
    ensures Fits(s, depth, max) && s.Chooses?
    decreases |ts| - i, 1
  {
    hide ParseCondition, ParseBlock, ParseElse, ParseIf, SentenceStands, ElseStands, At, SpellCondition, Meant, Room,
         Fits, FitsOption;
    IfIsRead(ts, i + 1, depth + 1, max);
    var cond := ParseCondition(ts, i + 1, depth + 1, max).value;
    var p := ConditionSpelled(ts, i + 1, depth + 1, max);
    var body := ParseBlock(ts, cond.next, depth + 1, max).value;
    IfHasElse(ts, i + 1, depth + 1, max);
    var thenPart := BlockSpelled(ts, cond.next, depth + 1, max);
    var elsePart := ElseSpelled(ts, body.next, depth + 1, max);
    s := Chooses(p, thenPart, elsePart);
    ChoosesStand(ts, i, s, cond, body, ParseElse(ts, body.next, depth + 1, max).value);
    ChoosesFit(s, depth, max);
  }

  lemma IfIsRead(ts: seq<Token>, i: nat, depth: nat, max: nat)
    requires i < |ts| && Terminated(ts) && ParseIf(ts, i, depth, max).Ok?
    ensures ParseCondition(ts, i, depth, max).Ok?
            && ParseBlock(ts, ParseCondition(ts, i, depth, max).value.next, depth, max).Ok?
  {
    hide ParseCondition, ParseBlock, ParseStatement;
  }

  lemma ChoosesFit(s: Sentence, depth: nat, max: nat)
    requires s.Chooses? && depth < max && Room(s.cond, depth + 1, max) && s.thenPart.Braces?
             && Fits(s.thenPart, depth + 1, max)
    requires (s.elsePart.Some? ==> s.elsePart.value.Braces? || s.elsePart.value.Chooses?)
             && FitsOption(s.elsePart, depth + 1, max)
    ensures Fits(s, depth, max)
  {
    hide Room;
  }

  lemma {:induction false} ElseSpelled(ts: seq<Token>, i: nat, depth: nat, max: nat) returns (s: Option<Sentence>)
    requires i < |ts| && Terminated(ts) && ParseElse(ts, i, depth, max).Ok?
    ensures var r := ParseElse(ts, i, depth, max).value;
            && r.next < |ts| && ElseStands(ts, i, s, r.value, r.next)
            && (s.None? || Open(s.value) ==> ts[r.next] != Ident("else"))
    ensures FitsOption(s, depth, max) && (s.Some? ==> s.value.Braces? || s.value.Chooses?)
    decreases |ts| - i, 1
  {
    hide ParseStatement, ParseBlock, SentenceStands, Fits, ElseStands, Open;
    if Keyword(ts, i, "else") {
      var inner;
      var r;
      if Keyword(ts, i + 1, "if") {
        inner := StatementSpelled(ts, i + 1, depth, max);
        r := ParseStatement(ts, i + 1, depth, max).value;
      } else {
        inner := BlockSpelled(ts, i + 1, depth, max);
        r := ParseBlock(ts, i + 1, depth, max).value;
        BracesAreClosed(inner);
      }
      s := Some(inner);
      OtherwiseStands(ts, i, inner, r);
    } else {
      s := None;
      NoElse(ts, i);
    }
  }

  lemma BracesAreClosed(s: Sentence)
    requires s.Braces?
    ensures !Open(s)
  {
  }

  lemma NoElse(ts: seq<Token>, i: nat)
    requires i < |ts|
    ensures ElseStands(ts, i, None, None, i)
  {
  }

  lemma OtherwiseStands(ts: seq<Token>, i: nat, inner: Sentence, r: Parsed<Statement>)
    requires i < |ts| && ts[i] == Ident("else") && SentenceStands(ts, i + 1, inner, r.value, r.next)
    ensures ElseStands(ts, i, Some(inner), Some(r.value), r.next)
  {
    hide At, Said, SpellSentence;
    One(ts, i);
    Join(ts, i, [Ident("else")], SpellSentence(inner));
  }

  lemma ChoosesStand(ts: seq<Token>, i: nat, s: Sentence, cond: Parsed<Expr>, body: Parsed<Statement>,
                     other: Parsed<Option<Statement>>)
    requires i < |ts| && ts[i] == Ident("if") && s.Chooses? && Meant(s.cond) == cond.value
    requires At(ts, i + 1, SpellCondition(s.cond)) && cond.next == i + 1 + |SpellCondition(s.cond)|
    requires SentenceStands(ts, cond.next, s.thenPart, body.value, body.next)
    requires ElseStands(ts, body.next, s.elsePart, other.value, other.next)
    ensures SentenceStands(ts, i, s, If(cond.value, body.value, other.value), other.next)
    ensures Open(s) <==> s.elsePart.None? || Open(s.elsePart.value)
  {
    hide At, SpellCondition, Meant, SpellElse, SaidOption;
    var c, a, e := SpellCondition(s.cond), SpellSentence(s.thenPart), SpellElse(s.elsePart);
    One(ts, i);
    Join(ts, cond.next, a, e);
    Join(ts, i + 1, c, a + e);
    Join(ts, i, [Ident("if")], c + (a + e));
  }

  predicate ClauseStands(ts: seq<Token>, i: nat, s: Option<Sentence>, stop: Token, t: Option<Statement>, next: nat) {
    SaidOption(s) == t && At(ts, i, SpellClause(s, stop)) && next == i + |SpellClause(s, stop)|
  }

  lemma ClauseSpelled(ts: seq<Token>, i: nat, depth: nat, max: nat, stop: Token) returns (s: Option<Sentence>)
    requires i < |ts| && Terminated(ts) && stop != Eof && ParseClause(ts, i, depth, max, stop).Ok?
    ensures var r := ParseClause(ts, i, depth, max, stop).value; ClauseStands(ts, i, s, stop, r.value, r.next)
    ensures ClauseFits(s, depth, max)
  {
    hide ParseSimple, SimpleFits, At, Said, SpellSimple;
    if ts[i] == stop {
      s := None;
      One(ts, i);
      assert SpellClause(None, stop) == [stop];
    } else {
      var simple := SimpleSpelled(ts, i, depth, max);
      s := Some(simple);
      var next := ParseSimple(ts, i, depth, max).value.next;
      One(ts, next);
      Join(ts, i, SpellSimple(simple), [stop]);
    }
  }

  predicate BoundStands(ts: seq<Token>, i: nat, p: Option<Phrase>, t: Option<Expr>, next: nat) {
    && t == (if p.None? then None else Some(Meant(p.value)))
    && At(ts, i, SpellBound(p)) && next == i + |SpellBound(p)|
  }

  lemma BoundSpelled(ts: seq<Token>, i: nat, depth: nat, max: nat) returns (p: Option<Phrase>)
    requires i < |ts| && Terminated(ts) && ParseBound(ts, i, depth, max).Ok?
    ensures var r := ParseBound(ts, i, depth, max).value; BoundStands(ts, i, p, r.value, r.next)
    ensures p.Some? ==> Room(p.value, depth, max)
  {
    hide ParseExpression, At, Spell, Meant, Room;
    if ts[i] == Semicolon {
      p := None;
      One(ts, i);
      assert SpellBound(None) == [Semicolon];
    } else {
      var q := WholeSpelled(ts, i, depth, max);
      p := Some(q);
      One(ts, ParseExpression(ts, i, depth, max, 0).value.next);
      Join(ts, i, Spell(q), [Semicolon]);
    }
  }

  lemma {:induction false} ForSpelled(ts: seq<Token>, i: nat, depth: nat, max: nat) returns (s: Sentence)
    requires i + 1 < |ts| && Terminated(ts) && depth < max && ts[i] == Ident("for")
             && ParseFor(ts, i + 1, depth + 1, max).Ok?
    ensures var r := ParseFor(ts, i + 1, depth + 1, max).value; SentenceStands(ts, i, s, r.value, r.next)
    ensures Fits(s, depth, max) && s.Loops?
    decreases |ts| - i, 1
  {
    hide ParseClause, ParseBound, ParseBlock, SentenceStands, ClauseStands, BoundStands, ClauseFits, Room, Terminated;
    var start := ParseClause(ts, i + 2, depth + 1, max, Semicolon).value;
    var a := ClauseSpelled(ts, i + 2, depth + 1, max, Semicolon);
    var bound := ParseBound(ts, start.next, depth + 1, max).value;
    var b := BoundSpelled(ts, start.next, depth + 1, max);
    var step := ParseClause(ts, bound.next, depth + 1, max, RParen).value;
    var c := ClauseSpelled(ts, bound.next, depth + 1, max, RParen);
    var inner := BlockSpelled(ts, step.next, depth + 1, max);
    s := Loops(a, b, c, inner);
    LoopsStand(ts, i, s, start, bound, step, ParseBlock(ts, step.next, depth + 1, max).value);
  }

  lemma LoopsStand(ts: seq<Token>, i: nat, s: Sentence, start: Parsed<Option<Statement>>, bound: Parsed<Option<Expr>>,
                   step: Parsed<Option<Statement>>, body: Parsed<Statement>)
    requires i + 1 < |ts| && ts[i] == Ident("for") && ts[i + 1] == LParen && s.Loops?
    requires ClauseStands(ts, i + 2, s.start, Semicolon, start.value, start.next)
    requires BoundStands(ts, start.next, s.bound, bound.value, bound.next)
    requires ClauseStands(ts, bound.next, s.step, RParen, step.value, step.next)
    requires SentenceStands(ts, step.next, s.inner, body.value, body.next)
    ensures SentenceStands(ts, i, s, For(start.value, bound.value, step.value, body.value), body.next)
  {
    hide At, SpellClause, SpellBound, SaidOption, Meant;
    var a, b, c, d := SpellClause(s.start, Semicolon), SpellBound(s.bound), SpellClause(s.step, RParen),
        SpellSentence(s.inner);
    Two(ts, i);
    Join(ts, bound.next, c, d);
    Join(ts, start.next, b, c + d);
    Join(ts, i + 2, a, b + (c + d));
    Join(ts, i, [Ident("for"), LParen], a + (b + (c + d)));
  }

  // ---------- programs ----------

  /** The tokens are written by the grammar and stand for the program. */
  ghost predicate Grammatical(tokens: seq<Token>, program: seq<Statement>, max: nat) {
    exists body: seq<Sentence> :: FitsAll(body, 0, max) && SpellAll(body) == tokens && SaidAll(body) == program
  }

  /** The parser accepts exactly what the grammar writes, and returns what it stands for. */
  lemma ParserReadsGrammar(tokens: seq<Token>, program: seq<Statement>, max: nat)
    requires Eof !in tokens
    ensures ParseProgram(tokens + [Eof], max) == Ok(program) <==> Grammatical(tokens, program, max)
  {
    hide ParseStatements, SpellAll, SaidAll, FitsAll;
    if Grammatical(tokens, program, max) {
      var body: seq<Sentence> :| FitsAll(body, 0, max) && SpellAll(body) == tokens && SaidAll(body) == program;
      GrammarRead(body, max);
    }
    if ParseProgram(tokens + [Eof], max) == Ok(program) {
      var ts := tokens + [Eof];
      var body := StatementsSpelled(ts, 0, 0, max, false);
      var end := |SpellAll(body)|;
      assert forall k | 0 <= k < |tokens| :: ts[k] == tokens[k];
      assert ts[0..|tokens|] == tokens;
    }
  }

  /** So a list of tokens stands for at most one program, whatever room there is. */
  lemma GrammarIsUnambiguous(tokens: seq<Token>, a: seq<Statement>, b: seq<Statement>, m: nat, n: nat)
    requires Eof !in tokens && Grammatical(tokens, a, m) && Grammatical(tokens, b, n)
    ensures a == b
  {
    hide FitsAll, SpellAll, SaidAll, ParseProgram;
    MoreRoom(tokens, a, m, Max(m, n));
    MoreRoom(tokens, b, n, Max(m, n));
    ParserReadsGrammar(tokens, a, Max(m, n));
    ParserReadsGrammar(tokens, b, Max(m, n));
  }

  lemma MoreRoom(tokens: seq<Token>, program: seq<Statement>, m: nat, n: nat)
    requires Grammatical(tokens, program, m) && m <= n
    ensures Grammatical(tokens, program, n)
  {
    hide FitsAll, SpellAll, SaidAll;
    var body: seq<Sentence> :| FitsAll(body, 0, m) && SpellAll(body) == tokens && SaidAll(body) == program;
    AllFitMore(body, 0, m, n);
  }

  lemma {:induction false} FitsMore(s: Sentence, depth: nat, m: nat, n: nat)
    requires Fits(s, depth, m) && m <= n
    ensures Fits(s, depth, n)
    decreases s, 1
  {
    hide Proper, Nest, Depth, Meant, FitsAll;
    match s
    case Braces(body) => AllFitMore(body, depth + 1, m, n);
    case Chooses(_, a, b) =>
      FitsMore(a, depth + 1, m, n);
      if b.Some? { FitsMore(b.value, depth + 1, m, n); }
    case Repeats(_, inner) => FitsMore(inner, depth + 1, m, n);
    case Loops(_, _, _, inner) => FitsMore(inner, depth + 1, m, n);
    case _ =>
  }

  lemma {:induction false} AllFitMore(body: seq<Sentence>, depth: nat, m: nat, n: nat)
    requires FitsAll(body, depth, m) && m <= n
    ensures FitsAll(body, depth, n)
    decreases body, 0
  {
    hide Fits;
    if body != [] {
      FitsMore(body[0], depth, m, n);
      AllFitMore(body[1..], depth, m, n);
    }
  }
}
