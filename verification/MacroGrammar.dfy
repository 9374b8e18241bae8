/** The grammar of scripts over tokens, on its own terms: what is written is a phrase or a sentence, with
    every parenthesis and every short form of an assignment, and stands for a tree. */
module MacroGrammar {
  import opened Wrappers
  import opened MacroCore
  import opened MacroCompile
  import opened MacroParser

  // ---------- words and operators ----------

  /** The words no variable or field may be called. */
  predicate Kept(name: string) {
    || name in {"let", "if", "else", "while", "for", "break", "continue"}
    || name in {"true", "false", "args"}
    || name in {"return", "fn", "function", "import", "eval"}
  }

  /** A name an expression may begin with: `args` is the one kept word among them. */
  predicate Usable(name: string) {
    !Kept(name) || name == "args"
  }

  function OperatorToken(op: BinaryOp): Token {
    match op
    case Or => OrOr
    case And => AndAnd
    case Equal => EqualEqual
    case NotEqual => BangEqual
    case Less => LessSign
    case LessEqual => LessEqualSign
    case Greater => GreaterSign
    case GreaterEqual => GreaterEqualSign
    case Add => Plus
    case Subtract => Minus
    case Multiply => Star
    case Divide => Slash
    case Remainder => Percent
  }

  /** From the loosest operator to the tightest. */
  function Precedence(op: BinaryOp): (p: nat)
    ensures 1 <= p <= 6
  {
    match op
    case Or => 1
    case And => 2
    case Equal | NotEqual => 3
    case Less | LessEqual | Greater | GreaterEqual => 4
    case Add | Subtract => 5
    case Multiply | Divide | Remainder => 6
  }

  // ---------- expressions ----------

  datatype Phrase =
    | Lit(value: Value)
    | Name(name: string)
    | Field(base: Phrase, field: string)
    | Sign(uop: UnaryOp, operand: Phrase)
    | Infix(bop: BinaryOp, left: Phrase, right: Phrase)
    | Apply(callee: string, args: seq<Phrase>)
    | Paren(inner: Phrase)

  /** How tightly a phrase binds: its operator's precedence, 7 for a sign, 8 for what is whole in itself. */
  function Level(p: Phrase): nat {
    match p
    case Infix(op, _, _) => Precedence(op)
    case Sign(_, _) => 7
    case _ => 8
  }

  function LiteralToken(v: Value): Token {
    match v
    case Str(text) => StringToken(text)
    case Int(number) => IntegerToken(number)
    case Bool(flag) => Ident(if flag then "true" else "false")
  }

  function Spell(p: Phrase): (ts: seq<Token>)
    ensures |ts| > 0
  {
    match p
    case Lit(v) => [LiteralToken(v)]
    case Name(name) => [Ident(name)]
    case Field(base, field) => Spell(base) + [Dot, Ident(field)]
    case Sign(op, operand) => [if op.Not? then Bang else Minus] + Spell(operand)
    case Infix(op, left, right) => Spell(left) + ([OperatorToken(op)] + Spell(right))
    case Apply(name, args) => [Ident(name)] + ([LParen] + (SpellArguments(args) + [RParen]))
    case Paren(inner) => [LParen] + (Spell(inner) + [RParen])
  }

  function SpellArguments(args: seq<Phrase>): seq<Token> {
    if args == [] then []
    else if |args| == 1 then Spell(args[0])
    else Spell(args[0]) + ([Comma] + SpellArguments(args[1..]))
  }

  /** The tree a phrase stands for. */
  function Meant(p: Phrase): Expr {
    match p
    case Lit(v) => Literal(v)
    case Name(name) => Variable(name)
    case Field(base, field) => Member(Meant(base), field)
    case Sign(op, operand) => Unary(op, Meant(operand))
    case Infix(op, left, right) => Binary(op, Meant(left), Meant(right))
    case Apply(name, args) => Call(name, MeantAll(args))
    case Paren(inner) => Meant(inner)
  }

  function MeantAll(args: seq<Phrase>): (es: seq<Expr>)
    ensures |es| == |args|
  {
    if args == [] then [] else [Meant(args[0])] + MeantAll(args[1..])
  }

  /** Names are names, and every operand binds at least as tightly as its place asks for: a binary operator
      takes a tighter operand on its right, so that operators of one level associate to the left. */
  predicate Proper(p: Phrase) {
    match p
    case Lit(_) => true
    case Name(name) => Usable(name)
    case Field(base, field) => Proper(base) && Level(base) == 8 && !Kept(field)
    case Sign(_, operand) => Proper(operand) && Level(operand) >= 7
    case Infix(op, left, right) =>
      Proper(left) && Proper(right) && Level(left) >= Precedence(op) && Level(right) > Precedence(op)
    case Apply(name, args) => Usable(name) && ProperAll(args)
    case Paren(inner) => Proper(inner)
  }

  predicate ProperAll(args: seq<Phrase>) {
    args == [] || (Proper(args[0]) && ProperAll(args[1..]))
  }

  /** How many expressions stand inside each other. */
  function Nest(p: Phrase): (n: nat)
    ensures n > 0
  {
    match p
    case Lit(_) => 1
    case Name(_) => 1
    case Field(base, _) => Nest(base)
    case Sign(_, operand) => 1 + Nest(operand)
    case Infix(_, left, right) => Max(Nest(left), 1 + Nest(right))
    case Apply(_, args) => 1 + NestArguments(args)
    case Paren(inner) => 1 + Nest(inner)
  }

  function NestArguments(args: seq<Phrase>): nat {
    if args == [] then 0 else Max(Nest(args[0]), NestArguments(args[1..]))
  }

  /** A phrase the parser has room for when it is already `depth` calls deep. */
  predicate Room(p: Phrase, depth: nat, max: nat) {
    Proper(p) && Depth(Meant(p)) <= max && depth + Nest(p) <= max
  }

  // ---------- statements ----------

  datatype Sentence =
    | Declares(name: string, value: Phrase)
    | Sets(name: string, value: Phrase)
    | Updates(name: string, op: BinaryOp, value: Phrase)
    | Bumps(name: string, up: bool)
    | Does(value: Phrase)
    | Braces(body: seq<Sentence>)
    | Chooses(cond: Phrase, thenPart: Sentence, elsePart: Option<Sentence>)
    | Repeats(test: Phrase, inner: Sentence)
    | Loops(start: Option<Sentence>, bound: Option<Phrase>, step: Option<Sentence>, inner: Sentence)
    | Breaks
    | GoesOn
    | Nothing

  predicate IsSimple(s: Sentence) {
    s.Declares? || s.Sets? || s.Updates? || s.Bumps? || s.Does?
  }

  function UpdateToken(op: BinaryOp): Token {
    match op
    case Add => PlusEqual
    case Subtract => MinusEqual
    case Multiply => StarEqual
    case Divide => SlashEqual
    case _ => PercentEqual
  }

  function SpellSimple(s: Sentence): seq<Token> {
    match s
    case Declares(name, p) => [Ident("let"), Ident(name), EqualSign] + Spell(p)
    case Sets(name, p) => [Ident(name), EqualSign] + Spell(p)
    case Updates(name, op, p) => [Ident(name), UpdateToken(op)] + Spell(p)
    case Bumps(name, up) => [Ident(name), if up then PlusPlus else MinusMinus]
    case Does(p) => Spell(p)
    case _ => []
  }

  function SpellClause(s: Option<Sentence>, stop: Token): seq<Token> {
    (if s.None? then [] else SpellSimple(s.value)) + [stop]
  }

  function SpellBound(p: Option<Phrase>): seq<Token> {
    (if p.None? then [] else Spell(p.value)) + [Semicolon]
  }

  function SpellCondition(p: Phrase): seq<Token> {
    [LParen] + (Spell(p) + [RParen])
  }

  function SpellSentence(s: Sentence): (ts: seq<Token>)
    ensures |ts| > 0
    decreases s, 1
  {
    match s
    case Braces(body) => [LBrace] + (SpellAll(body) + [RBrace])
    case Chooses(cond, a, b) => [Ident("if")] + (SpellCondition(cond) + (SpellSentence(a) + SpellElse(b)))
    case Repeats(test, inner) => [Ident("while")] + (SpellCondition(test) + SpellSentence(inner))
    case Loops(start, bound, step, inner) =>
      [Ident("for"), LParen] + (SpellClause(start, Semicolon)
                                + (SpellBound(bound) + (SpellClause(step, RParen) + SpellSentence(inner))))
    case Breaks => [Ident("break"), Semicolon]
    case GoesOn => [Ident("continue"), Semicolon]
    case Nothing => [Semicolon]
    case _ => SpellSimple(s) + [Semicolon]
  }

  function SpellElse(s: Option<Sentence>): seq<Token>
    decreases s, 0
  {
    match s
    case None => []
    case Some(other) => [Ident("else")] + SpellSentence(other)
  }

  function SpellAll(body: seq<Sentence>): seq<Token>
    decreases body, 0
  {
    if body == [] then [] else SpellSentence(body[0]) + SpellAll(body[1..])
  }

  /** The statement a sentence stands for: `x op= e` is `x = x op (e)`, and `x++` is `x = x + 1`. */
  function Said(s: Sentence): Statement
    decreases s, 1
  {
    match s
    case Declares(name, p) => Let(name, Meant(p))
    case Sets(name, p) => Assign(name, Meant(p))
    case Updates(name, op, p) => Assign(name, Binary(op, Variable(name), Meant(p)))
    case Bumps(name, up) => Assign(name, Binary(if up then Add else Subtract, Variable(name), Literal(Int(1))))
    case Does(p) => Expression(Meant(p))
    case Braces(body) => Block(SaidAll(body))
    case Chooses(cond, a, b) => If(Meant(cond), Said(a), SaidOption(b))
    case Repeats(test, inner) => While(Meant(test), Said(inner))
    case Loops(start, bound, step, inner) =>
      For(SaidOption(start), if bound.None? then None else Some(Meant(bound.value)), SaidOption(step), Said(inner))
    case Breaks => Break
    case GoesOn => Continue
    case Nothing => Empty
  }

  function SaidOption(s: Option<Sentence>): Option<Statement>
    decreases s, 0
  {
    match s
    case None => None
    case Some(inner) => Some(Said(inner))
  }

  function SaidAll(body: seq<Sentence>): seq<Statement>
    decreases body, 0
  {
    if body == [] then [] else [Said(body[0])] + SaidAll(body[1..])
  }

  /** Simple sentences with the room their expressions need. A target of an assignment is any word but `let`. */
  predicate SimpleFits(s: Sentence, depth: nat, max: nat) {
    match s
    case Declares(name, p) => !Kept(name) && Room(p, depth, max)
    case Sets(name, p) => name != "let" && Room(p, depth, max)
    case Updates(name, op, p) =>
      name != "let" && op in {Add, Subtract, Multiply, Divide, Remainder} && Room(p, depth, max)
    case Bumps(name, _) => name != "let"
    case Does(p) => Room(p, depth, max)
    case _ => false
  }

  predicate ClauseFits(s: Option<Sentence>, depth: nat, max: nat) {
    s.Some? ==> SimpleFits(s.value, depth, max)
  }

  /** What begins another kind of sentence cannot be assigned to by a sentence of its own. */
  predicate TargetFits(s: Sentence) {
    s.Sets? || s.Updates? || s.Bumps? ==> s.name !in {"if", "while", "for", "break", "continue"}
  }

  /** An `if` that would take an `else` behind it. */
  predicate Open(s: Sentence) {
    s.Chooses? && (s.elsePart.None? || Open(s.elsePart.value))
  }

  predicate BeginsElse(s: Sentence) {
    (s.Sets? || s.Updates? || s.Bumps?) && s.name == "else"
  }

  /** Sentences whose bodies are braced and whose `for` clauses are simple, that the parser has room to read
      when it is already `depth` calls deep. */
  predicate Fits(s: Sentence, depth: nat, max: nat)
    decreases s, 1
  {
    && depth < max
    && match s
       case Braces(body) => FitsAll(body, depth + 1, max)
       case Chooses(cond, a, b) =>
         && Room(cond, depth + 1, max) && a.Braces? && Fits(a, depth + 1, max)
         && (b.Some? ==> b.value.Braces? || b.value.Chooses?) && FitsOption(b, depth + 1, max)
       case Repeats(test, inner) => Room(test, depth + 1, max) && inner.Braces? && Fits(inner, depth + 1, max)
       case Loops(start, bound, step, inner) =>
         && ClauseFits(start, depth + 1, max) && (bound.Some? ==> Room(bound.value, depth + 1, max))
         && ClauseFits(step, depth + 1, max) && inner.Braces? && Fits(inner, depth + 1, max)
       case Breaks => true
       case GoesOn => true
       case Nothing => true
       case _ => TargetFits(s) && SimpleFits(s, depth + 1, max)
  }

  predicate FitsOption(s: Option<Sentence>, depth: nat, max: nat)
    decreases s, 0
  {
    match s
    case None => true
    case Some(inner) => Fits(inner, depth, max)
  }

  predicate FitsAll(body: seq<Sentence>, depth: nat, max: nat)
    decreases body, 0
  {
    || body == []
    || (&& Fits(body[0], depth, max) && FitsAll(body[1..], depth, max)
        && (|body| > 1 ==> !(Open(body[0]) && BeginsElse(body[1]))))
  }

  // ---------- the parser's tables ----------

  lemma OperatorIsBinary(op: BinaryOp)
    ensures BinaryOf(OperatorToken(op)) == Some((op, Precedence(op)))
    ensures AssignmentOf(OperatorToken(op)).None? && OperatorToken(op) != Eof
  {
  }

  lemma BinaryIsOperator(token: Token)
    ensures BinaryOf(token).Some? ==>
              var (op, p) := BinaryOf(token).value; token == OperatorToken(op) && p == Precedence(op)
  {
  }

  lemma ReservedIsKept(name: string)
    ensures Reserved(name) <==> Kept(name)
  {
  }
}
