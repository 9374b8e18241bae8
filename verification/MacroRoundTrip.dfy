/** Printing a tree with only the parentheses its precedences need, and parsing it back. */
module MacroRoundTrip {
  import opened Wrappers
  import opened MacroCore
  import opened MacroCompile
  import opened MacroParser
  import opened MacroGrammar
  import opened MacroSentences

  // ---------- the printer ----------

  /** `e` where only what binds at least as tightly as `level` may stand bare. */
  function Formed(e: Expr, level: nat): Phrase
    decreases e, 1
  {
    var p := Bare(e);
    if Level(p) < level then Paren(p) else p
  }

  function Bare(e: Expr): Phrase
    decreases e, 0
  {
    match e
    case Literal(v) => Lit(v)
    case Variable(name) => Name(name)
    case Member(base, field) => Field(Formed(base, 8), field)
    case Unary(op, operand) => Sign(op, Formed(operand, 7))
    case Binary(op, left, right) => Infix(op, Formed(left, Precedence(op)), Formed(right, Precedence(op) + 1))
    case Call(name, args) => Apply(name, FormedAll(args))
  }

  function FormedAll(args: seq<Expr>): seq<Phrase>
    decreases args, 0
  {
    if args == [] then [] else [Formed(args[0], 0)] + FormedAll(args[1..])
  }

  function Written(s: Statement): Sentence
    decreases s, 1
  {
    match s
    case Let(name, e) => Declares(name, Formed(e, 0))
    case Assign(name, e) => Sets(name, Formed(e, 0))
    case Expression(e) => Does(Formed(e, 0))
    case Block(body) => Braces(WrittenAll(body))
    case If(cond, a, b) => Chooses(Formed(cond, 0), Written(a), WrittenOption(b))
    case While(test, body) => Repeats(Formed(test, 0), Written(body))
    case For(start, bound, step, body) =>
      Loops(WrittenOption(start), if bound.None? then None else Some(Formed(bound.value, 0)), WrittenOption(step),
            Written(body))
    case Break => Breaks
    case Continue => GoesOn
    case Empty => Nothing
  }

  function WrittenOption(s: Option<Statement>): Option<Sentence>
    decreases s, 0
  {
    match s
    case None => None
    case Some(inner) => Some(Written(inner))
  }

  function WrittenAll(body: seq<Statement>): seq<Sentence>
    decreases body, 0
  {
    if body == [] then [] else [Written(body[0])] + WrittenAll(body[1..])
  }

  function PrintAll(program: seq<Statement>): seq<Token> {
    SpellAll(WrittenAll(program))
  }

  // ---------- what can be printed ----------

  predicate Printable(e: Expr)
    decreases e, 0
  {
    match e
    case Literal(_) => true
    case Variable(name) => Usable(name)
    case Member(base, field) => Printable(base) && !Kept(field)
    case Unary(_, operand) => Printable(operand)
    case Binary(_, left, right) => Printable(left) && Printable(right)
    case Call(name, args) => Usable(name) && PrintableAll(args)
  }

  predicate PrintableAll(args: seq<Expr>)
    decreases args, 0
  {
    args == [] || (Printable(args[0]) && PrintableAll(args[1..]))
  }

  predicate ExpressionFits(e: Expr, depth: nat, max: nat) {
    Printable(e) && Depth(e) <= max && depth + Nest(Formed(e, 0)) <= max
  }

  /** Statements whose bodies are braced and whose `for` clauses are simple, that the parser has
      room to read when it is already `depth` calls deep. */
  predicate Writable(s: Statement, depth: nat, max: nat)
    decreases s, 1
  {
    && depth < max
    && match s
       case Block(body) => WritableAll(body, depth + 1, max)
       case If(cond, a, b) =>
         && ExpressionFits(cond, depth + 1, max) && a.Block? && Writable(a, depth + 1, max)
         && (b.Some? ==> b.value.Block? || b.value.If?) && WritableOption(b, depth + 1, max)
       case While(test, body) => ExpressionFits(test, depth + 1, max) && body.Block? && Writable(body, depth + 1, max)
       case For(start, bound, step, body) =>
         && PartFits(start, depth + 1, max) && (bound.Some? ==> ExpressionFits(bound.value, depth + 1, max))
         && PartFits(step, depth + 1, max) && body.Block? && Writable(body, depth + 1, max)
       case Break => true
       case Continue => true
       case Empty => true
       case _ => PlainFits(s, depth + 1, max)
  }

  predicate PlainFits(s: Statement, depth: nat, max: nat) {
    match s
    case Let(name, e) => !Kept(name) && ExpressionFits(e, depth, max)
    case Assign(name, e) => !Kept(name) && ExpressionFits(e, depth, max)
    case Expression(e) => ExpressionFits(e, depth, max)
    case _ => false
  }

  predicate PartFits(s: Option<Statement>, depth: nat, max: nat) {
    s.Some? ==> PlainFits(s.value, depth, max)
  }

  predicate WritableOption(s: Option<Statement>, depth: nat, max: nat)
    decreases s, 0
  {
    match s
    case None => true
    case Some(inner) => Writable(inner, depth, max)
  }

  predicate WritableAll(body: seq<Statement>, depth: nat, max: nat)
    decreases body, 0
  {
    body == [] || (Writable(body[0], depth, max) && WritableAll(body[1..], depth, max))
  }

  // ---------- the printed form stands for the tree ----------

  /** A tree is what its printed form means, and the form is proper if the tree's names are. */
  lemma {:induction false} FormedMeans(e: Expr, level: nat)
    requires level <= 8
    ensures var p := Formed(e, level); Meant(p) == e && Level(p) >= level && (Printable(e) ==> Proper(p))
    decreases e, 1
  {
    hide Precedence, Kept, Usable;
    match e
    case Literal(_) =>
    case Variable(_) =>
    case Member(base, _) => FormedMeans(base, 8);
    case Unary(_, operand) => FormedMeans(operand, 7);
    case Binary(op, left, right) =>
      FormedMeans(left, Precedence(op));
      FormedMeans(right, Precedence(op) + 1);
    case Call(_, args) => AllFormedMean(args);
  }

  lemma {:induction false} AllFormedMean(args: seq<Expr>)
    ensures MeantAll(FormedAll(args)) == args && (PrintableAll(args) ==> ProperAll(FormedAll(args)))
    decreases args, 0
  {
    hide Formed, Meant, Proper, Printable;
    if args != [] {
      FormedMeans(args[0], 0);
      AllFormedMean(args[1..]);
      assert FormedAll(args)[1..] == FormedAll(args[1..]);
    }
  }

  lemma RoomToWrite(e: Expr, depth: nat, max: nat)
    ensures Meant(Formed(e, 0)) == e && (ExpressionFits(e, depth, max) ==> Room(Formed(e, 0), depth, max))
  {
    hide Formed, Meant, Proper, Printable, Nest, Depth;
    FormedMeans(e, 0);
  }

  lemma PlainMeans(s: Statement, depth: nat, max: nat)
    requires s.Let? || s.Assign? || s.Expression?
    ensures var t := Written(s);
            Said(t) == s && (PlainFits(s, depth, max) ==> SimpleFits(t, depth, max) && TargetFits(t) && !BeginsElse(t))
  {
    hide Formed, Meant, ExpressionFits, Room;
    RoomToWrite(if s.Let? then s.init else if s.Assign? then s.value else s.expr, depth, max);
  }

  lemma {:induction false} WrittenMeans(s: Statement, depth: nat, max: nat)
    ensures var t := Written(s);
            Said(t) == s && (Writable(s, depth, max) ==> Fits(t, depth, max) && !BeginsElse(t))
    decreases s, 1
  {
    hide Formed, Meant, ExpressionFits, Room, PlainFits, SimpleFits, TargetFits, FitsAll, WritableAll, WrittenAll,
         SaidAll;
    match s
    case Let(_, _) => PlainMeans(s, depth + 1, max);
    case Assign(_, _) => PlainMeans(s, depth + 1, max);
    case Expression(_) => PlainMeans(s, depth + 1, max);
    case Block(body) => AllWrittenMean(body, depth + 1, max);
    case If(cond, a, b) =>
      RoomToWrite(cond, depth + 1, max);
      WrittenMeans(a, depth + 1, max);
      OptionMeans(b, depth + 1, max);
    case While(test, body) =>
      RoomToWrite(test, depth + 1, max);
      WrittenMeans(body, depth + 1, max);
    case For(start, bound, step, body) =>
      PartMeans(start, depth + 1, max);
      if bound.Some? { RoomToWrite(bound.value, depth + 1, max); }
      PartMeans(step, depth + 1, max);
      WrittenMeans(body, depth + 1, max);
    case _ =>
  }

  lemma {:induction false} OptionMeans(s: Option<Statement>, depth: nat, max: nat)
    ensures var t := WrittenOption(s);
            && SaidOption(t) == s && (WritableOption(s, depth, max) ==> FitsOption(t, depth, max))
            && (s.Some? <==> t.Some?)
            && (s.Some? && (s.value.Block? || s.value.If?) ==> t.value.Braces? || t.value.Chooses?)
    decreases s, 0
  {
    hide Said, Writable, Fits, BeginsElse;
    if s.Some? { WrittenMeans(s.value, depth, max); }
  }

  lemma {:induction false} PartMeans(s: Option<Statement>, depth: nat, max: nat)
    ensures SaidOption(WrittenOption(s)) == s && (PartFits(s, depth, max) ==> ClauseFits(WrittenOption(s), depth, max))
    decreases s, 0
  {
    hide Written, Said, SimpleFits;
    if s.Some? {
      WrittenMeans(s.value, depth, max);
      if s.value.Let? || s.value.Assign? || s.value.Expression? { PlainMeans(s.value, depth, max); }
    }
  }

  lemma {:induction false} AllWrittenMean(body: seq<Statement>, depth: nat, max: nat)
    ensures var ts := WrittenAll(body);
            && SaidAll(ts) == body && |ts| == |body|
            && (WritableAll(body, depth, max) ==> FitsAll(ts, depth, max) && (ts != [] ==> !BeginsElse(ts[0])))
    decreases body, 0
  {
    hide Written, Said, Writable, Fits, BeginsElse, Open;
    if body != [] {
      WrittenMeans(body[0], depth, max);
      AllWrittenMean(body[1..], depth, max);
      assert WrittenAll(body)[1..] == WrittenAll(body[1..]);
    }
  }

  /** Parse undoes print: every program within the limits, printed with only the parentheses its
      precedences need, parses to itself. */
  lemma RoundTrip(program: seq<Statement>, max: nat)
    requires WritableAll(program, 0, max)
    ensures ParseProgram(PrintAll(program) + [Eof], max) == Ok(program)
  {
    hide ParseProgram, SpellAll, WrittenAll, WritableAll, FitsAll, SaidAll;
    AllWrittenMean(program, 0, max);
    GrammarRead(WrittenAll(program), max);
  }

  /** `x op= e;` parses as `x = x op (e)`, with the whole of `e` as the right operand, however
      loosely `e` itself binds. */
  lemma CompoundRead(name: string, op: BinaryOp, p: Phrase, max: nat)
    requires !Kept(name) && op in {Add, Subtract, Multiply, Divide, Remainder} && Room(p, 1, max)
    ensures ParseProgram(([Ident(name), UpdateToken(op)] + Spell(p)) + [Semicolon, Eof], max) ==
              Ok([Assign(name, Binary(op, Variable(name), Meant(p)))])
  {
    hide ParseProgram, Proper, Nest, Depth, Spell, Meant;
    OneRead(Updates(name, op, p), max);
  }

  /** `x++;` and `x--;` add and subtract one. */
  lemma BumpRead(name: string, up: bool, max: nat)
    requires !Kept(name) && max > 0
    ensures ParseProgram([Ident(name), if up then PlusPlus else MinusMinus] + [Semicolon, Eof], max) ==
              Ok([Assign(name, Binary(if up then Add else Subtract, Variable(name), Literal(Int(1))))])
  {
    hide ParseProgram;
    OneRead(Bumps(name, up), max);
  }

  lemma OneRead(s: Sentence, max: nat)
    requires IsSimple(s) && Fits(s, 0, max)
    ensures ParseProgram(SpellSimple(s) + [Semicolon, Eof], max) == Ok([Said(s)])
  {
    hide ParseProgram, SpellSimple, Fits, Said;
    assert SpellAll([s]) == SpellSimple(s) + [Semicolon];
    assert SpellAll([s]) + [Eof] == SpellSimple(s) + [Semicolon, Eof];
    assert FitsAll([s], 0, max) && SaidAll([s]) == [Said(s)];
    GrammarRead([s], max);
  }
}
