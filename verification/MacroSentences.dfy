/** The parser reads every sentence of the grammar as the statement it stands for. */
module MacroSentences {
  import opened Wrappers
  import opened MacroCore
  import opened MacroCompile
  import opened MacroParser
  import opened MacroGrammar
  import opened MacroPhrases

  // ---------- how a sentence starts ----------

  predicate IsStop(token: Token) {
    token == Semicolon || token == RParen
  }

  /** A token that neither ends a list of statements nor is read as the end of a clause. */
  predicate Opens(token: Token) {
    token != Eof && token != RBrace && token != RParen
  }

  lemma SimpleStarts(s: Sentence, depth: nat, max: nat)
    requires SimpleFits(s, depth, max)
    ensures IsSimple(s) && SpellSimple(s) != [] && Opens(SpellSimple(s)[0]) && SpellSimple(s)[0] != Semicolon
    ensures SpellSimple(s)[0] == Ident("else") <==> BeginsElse(s)
    ensures TargetFits(s) ==> SpellSimple(s)[0] !in {LBrace, Ident("if"), Ident("while"), Ident("for"), Ident("break"),
                                                     Ident("continue")}
  {
    hide Spell, Proper, Nest, Depth, Meant;
    if s.Does? { SpellStarts(s.value); }
  }

  lemma SentenceOpens(s: Sentence, depth: nat, max: nat)
    requires Fits(s, depth, max)
    ensures Opens(SpellSentence(s)[0])
    ensures s.Chooses? ==> SpellSentence(s)[0] == Ident("if")
    ensures s.Braces? <==> SpellSentence(s)[0] == LBrace
    ensures SpellSentence(s)[0] == Ident("else") <==> BeginsElse(s)
  {
    hide SpellAll, SpellCondition, FitsAll, SpellSimple, SimpleFits;
    if IsSimple(s) { SimpleStarts(s, depth + 1, max); }
  }

  // ---------- the parser reads sentences ----------

  lemma SimpleRead(ts: seq<Token>, i: nat, depth: nat, max: nat, s: Sentence)
    requires Terminated(ts) && SimpleFits(s, depth, max)
    requires At(ts, i, SpellSimple(s)) && i + |SpellSimple(s)| < |ts| && IsStop(ts[i + |SpellSimple(s)|])
    ensures i < |ts| && ts[i] == SpellSimple(s)[0]
            && ParseSimple(ts, i, depth, max) == Ok(Parsed(Said(s), i + |SpellSimple(s)|))
  {
    hide At, Spell, Room, ParseSimple, SpellSimple, Said;
    SimpleStarts(s, depth, max);
    First(ts, i, SpellSimple(s));
    match s
    case Declares(_, _) => LetRead(ts, i, depth, max, s);
    case Sets(_, _) => AssignRead(ts, i, depth, max, s);
    case Updates(_, _, _) => UpdateRead(ts, i, depth, max, s);
    case Bumps(_, _) => BumpRead(ts, i, depth, max, s);
    case Does(_) => ExpressionRead(ts, i, depth, max, s);
  }

  lemma LetRead(ts: seq<Token>, i: nat, depth: nat, max: nat, s: Sentence)
    requires Terminated(ts) && SimpleFits(s, depth, max) && s.Declares?
    requires At(ts, i, SpellSimple(s)) && i + |SpellSimple(s)| < |ts| && IsStop(ts[i + |SpellSimple(s)|])
    ensures i < |ts| && ParseSimple(ts, i, depth, max) == Ok(Parsed(Said(s), i + |SpellSimple(s)|))
  {
    hide At, Spell, Room, ParseExpression, ParseAssignment, Reserved, Kept;
    Split(ts, i, [Ident("let"), Ident(s.name), EqualSign], Spell(s.value));
    LetTokens(ts, i, s.name);
    ReservedIsKept(s.name);
    WholeRead(ts, i + 3, depth, max, s.value);
  }

  lemma AssignRead(ts: seq<Token>, i: nat, depth: nat, max: nat, s: Sentence)
    requires Terminated(ts) && SimpleFits(s, depth, max) && s.Sets?
    requires At(ts, i, SpellSimple(s)) && i + |SpellSimple(s)| < |ts| && IsStop(ts[i + |SpellSimple(s)|])
    ensures i < |ts| && ParseSimple(ts, i, depth, max) == Ok(Parsed(Said(s), i + |SpellSimple(s)|))
  {
    hide At, Spell, Room, ParseExpression;
    Split(ts, i, [Ident(s.name), EqualSign], Spell(s.value));
    AssignTokens(ts, i, s.name, EqualSign);
    WholeRead(ts, i + 2, depth, max, s.value);
  }

  /** `x op= e` takes the whole of `e` as the right operand, however loosely `e` itself binds. */
  lemma UpdateRead(ts: seq<Token>, i: nat, depth: nat, max: nat, s: Sentence)
    requires Terminated(ts) && SimpleFits(s, depth, max) && s.Updates?
    requires At(ts, i, SpellSimple(s)) && i + |SpellSimple(s)| < |ts| && IsStop(ts[i + |SpellSimple(s)|])
    ensures i < |ts| && ParseSimple(ts, i, depth, max) == Ok(Parsed(Said(s), i + |SpellSimple(s)|))
  {
    hide At, Spell, Room, ParseExpression;
    Split(ts, i, [Ident(s.name), UpdateToken(s.op)], Spell(s.value));
    AssignTokens(ts, i, s.name, UpdateToken(s.op));
    WholeRead(ts, i + 2, depth, max, s.value);
  }

  lemma BumpRead(ts: seq<Token>, i: nat, depth: nat, max: nat, s: Sentence)
    requires Terminated(ts) && SimpleFits(s, depth, max) && s.Bumps?
    requires At(ts, i, SpellSimple(s)) && i + |SpellSimple(s)| < |ts|
    ensures i < |ts| && ParseSimple(ts, i, depth, max) == Ok(Parsed(Said(s), i + |SpellSimple(s)|))
  {
    hide At, ParseExpression;
    AssignTokens(ts, i, s.name, if s.up then PlusPlus else MinusMinus);
  }

  lemma ExpressionRead(ts: seq<Token>, i: nat, depth: nat, max: nat, s: Sentence)
    requires Terminated(ts) && SimpleFits(s, depth, max) && s.Does?
    requires At(ts, i, SpellSimple(s)) && i + |SpellSimple(s)| < |ts| && IsStop(ts[i + |SpellSimple(s)|])
    ensures i < |ts| && ParseSimple(ts, i, depth, max) == Ok(Parsed(Said(s), i + |SpellSimple(s)|))
  {
    hide At, Spell, Nest, Depth, Proper, Meant, ParseExpression, ParseAssignment;
    var p := Spell(s.value);
    assert SpellSimple(s) == p;
    WholeRead(ts, i, depth, max, s.value);
    SpellStarts(s.value);
    First(ts, i, p);
    NoAssignment(ts, i, p);
  }

  lemma LetTokens(ts: seq<Token>, i: nat, name: string)
    requires At(ts, i, [Ident("let"), Ident(name), EqualSign])
    ensures ts[i] == Ident("let") && ts[i + 1] == Ident(name) && ts[i + 2] == EqualSign
  {
    var p := ts[i..i + 3];
    assert p[0] == ts[i] && p[1] == ts[i + 1] && p[2] == ts[i + 2];
  }

  lemma AssignTokens(ts: seq<Token>, i: nat, name: string, token: Token)
    requires At(ts, i, [Ident(name), token])
    ensures ts[i] == Ident(name) && ts[i + 1] == token
  {
    var p := ts[i..i + 2];
    assert p[0] == ts[i] && p[1] == ts[i + 1];
  }

  lemma NoAssignment(ts: seq<Token>, i: nat, p: seq<Token>)
    requires p != [] && At(ts, i, p) && i + |p| < |ts| && AssignmentOf(ts[i + |p|]).None?
    requires p[0].Ident? && |p| > 1 ==> AssignmentOf(p[1]).None?
    ensures ts[i].Ident? ==> AssignmentOf(ts[i + 1]).None?
  {
    First(ts, i, p);
    if |p| > 1 { First(ts, i + 1, p[1..]); }
  }

  lemma ConditionRead(ts: seq<Token>, i: nat, depth: nat, max: nat, p: Phrase)
    requires Terminated(ts) && Room(p, depth, max) && At(ts, i, SpellCondition(p)) && i + |SpellCondition(p)| < |ts|
    ensures ParseCondition(ts, i, depth, max) == Ok(Parsed(Meant(p), i + |SpellCondition(p)|))
  {
    hide At, Spell, Room, ParseExpression, Terminated;
    var inner := Spell(p);
    Split(ts, i, [LParen], inner + [RParen]);
    First(ts, i, [LParen]);
    Split(ts, i + 1, inner, [RParen]);
    First(ts, i + 1 + |inner|, [RParen]);
    WholeRead(ts, i + 1, depth, max, p);
  }

  lemma ClauseRead(ts: seq<Token>, i: nat, depth: nat, max: nat, s: Option<Sentence>, stop: Token)
    requires Terminated(ts) && ClauseFits(s, depth, max) && IsStop(stop)
    requires At(ts, i, SpellClause(s, stop)) && i + |SpellClause(s, stop)| < |ts|
    ensures ParseClause(ts, i, depth, max, stop) == Ok(Parsed(SaidOption(s), i + |SpellClause(s, stop)|))
  {
    hide At, SpellSimple, SimpleFits, ParseSimple, Said;
    var p := if s.None? then [] else SpellSimple(s.value);
    Split(ts, i, p, [stop]);
    First(ts, i + |p|, [stop]);
    if s.Some? {
      SimpleStarts(s.value, depth, max);
      SimpleRead(ts, i, depth, max, s.value);
    }
  }

  lemma BoundRead(ts: seq<Token>, i: nat, depth: nat, max: nat, p: Option<Phrase>)
    requires Terminated(ts) && (p.Some? ==> Room(p.value, depth, max))
    requires At(ts, i, SpellBound(p)) && i + |SpellBound(p)| < |ts|
    ensures ParseBound(ts, i, depth, max) ==
              Ok(Parsed(if p.None? then None else Some(Meant(p.value)), i + |SpellBound(p)|))
  {
    hide At, Spell, Proper, Nest, Depth, Meant, ParseExpression, Terminated;
    var inner := if p.None? then [] else Spell(p.value);
    Split(ts, i, inner, [Semicolon]);
    First(ts, i + |inner|, [Semicolon]);
    if p.Some? {
      SpellStarts(p.value);
      First(ts, i, inner);
      WholeRead(ts, i, depth, max, p.value);
    }
  }

  /** A sentence is read back, unless it would take an `else` that follows it. */
  lemma {:induction false} SentenceRead(ts: seq<Token>, i: nat, depth: nat, max: nat, s: Sentence)
    requires Terminated(ts) && Fits(s, depth, max)
    requires var p := SpellSentence(s);
             At(ts, i, p) && i + |p| < |ts| && (Open(s) ==> ts[i + |p|] != Ident("else"))
    ensures i < |ts| && ParseStatement(ts, i, depth, max) == Ok(Parsed(Said(s), i + |SpellSentence(s)|))
    decreases s, 1
  {
    hide At, ParseStatement, SpellSentence, Fits, Said;
    match s
    case Braces(body) => BlockRead(ts, i, depth, max, s);
    case Chooses(cond, a, b) => IfRead(ts, i, depth, max, s);
    case Repeats(test, inner) => WhileRead(ts, i, depth, max, s);
    case Loops(start, bound, step, inner) => ForRead(ts, i, depth, max, s);
    case _ => PlainRead(ts, i, depth, max, s);
  }

  predicate IsPlain(s: Sentence) {
    !(s.Braces? || s.Chooses? || s.Repeats? || s.Loops?)
  }

  lemma PlainRead(ts: seq<Token>, i: nat, depth: nat, max: nat, s: Sentence)
    requires Terminated(ts) && Fits(s, depth, max) && IsPlain(s)
    requires var p := SpellSentence(s); At(ts, i, p) && i + |p| < |ts|
    ensures i < |ts| && ParseStatement(ts, i, depth, max) == Ok(Parsed(Said(s), i + |SpellSentence(s)|))
  {
    hide At, ParseStatement, ParsePlain, SpellSentence, Terminated, Said, SimpleFits, SpellSimple;
    PlainForm(s, depth, max);
    First(ts, i, SpellSentence(s));
    if IsSimple(s) {
      SimpleStatementRead(ts, i, depth + 1, max, s);
    } else {
      KeywordRead(ts, i, depth + 1, max, s);
    }
    StatementUnfolds(ts, i, depth, max);
  }

  lemma PlainForm(s: Sentence, depth: nat, max: nat)
    requires Fits(s, depth, max) && IsPlain(s)
    ensures s.Breaks? ==> SpellSentence(s) == [Ident("break"), Semicolon]
    ensures s.GoesOn? ==> SpellSentence(s) == [Ident("continue"), Semicolon]
    ensures s.Nothing? ==> SpellSentence(s) == [Semicolon]
    ensures IsSimple(s) ==>
              SpellSentence(s) == SpellSimple(s) + [Semicolon] && SimpleFits(s, depth + 1, max) && TargetFits(s)
    ensures depth < max
  {
    hide SpellSimple, SimpleFits, TargetFits;
  }

  lemma KeywordRead(ts: seq<Token>, i: nat, depth: nat, max: nat, s: Sentence)
    requires Terminated(ts) && (s.Breaks? || s.GoesOn? || s.Nothing?)
    requires At(ts, i, if s.Breaks? then [Ident("break"), Semicolon]
                       else if s.GoesOn? then [Ident("continue"), Semicolon] else [Semicolon])
    ensures i < |ts| && ts[i] !in {LBrace, Ident("if"), Ident("while"), Ident("for")}
    ensures ParsePlain(ts, i, depth, max) == Ok(Parsed(Said(s), if s.Nothing? then i + 1 else i + 2))
  {
    hide At, ParseSimple;
    var p := if s.Breaks? then [Ident("break"), Semicolon]
             else if s.GoesOn? then [Ident("continue"), Semicolon] else [Semicolon];
    First(ts, i, p);
    if !s.Nothing? { First(ts, i + 1, p[1..]); }
  }

  lemma SimpleStatementRead(ts: seq<Token>, i: nat, depth: nat, max: nat, s: Sentence)
    requires Terminated(ts) && SimpleFits(s, depth, max) && TargetFits(s) && At(ts, i, SpellSimple(s) + [Semicolon])
    ensures i < |ts| && ts[i] !in {LBrace, Ident("if"), Ident("while"), Ident("for")}
    ensures ParsePlain(ts, i, depth, max) == Ok(Parsed(Said(s), i + |SpellSimple(s)| + 1))
  {
    hide At, ParseSimple, SpellSimple, SimpleFits, TargetFits, Said;
    Split(ts, i, SpellSimple(s), [Semicolon]);
    First(ts, i + |SpellSimple(s)|, [Semicolon]);
    SimpleStarts(s, depth, max);
    SimpleRead(ts, i, depth, max, s);
  }

  lemma {:induction false} BlockRead(ts: seq<Token>, i: nat, depth: nat, max: nat, s: Sentence)
    requires Terminated(ts) && Fits(s, depth, max) && s.Braces?
    requires var p := SpellSentence(s); At(ts, i, p) && i + |p| < |ts|
    ensures i < |ts| && ParseStatement(ts, i, depth, max) == Ok(Parsed(Said(s), i + |SpellSentence(s)|))
    decreases s, 0
  {
    hide At, ParseStatements, SpellAll, FitsAll, SaidAll, ParseIf, ParseFor, ParseWhile, ParsePlain;
    var p := SpellAll(s.body);
    Split(ts, i, [LBrace], p + [RBrace]);
    First(ts, i, [LBrace]);
    Split(ts, i + 1, p, [RBrace]);
    First(ts, i + 1 + |p|, [RBrace]);
    AllRead(ts, i + 1, depth + 1, max, true, s.body);
  }

  lemma {:induction false} AllRead(ts: seq<Token>, i: nat, depth: nat, max: nat, block: bool, body: seq<Sentence>)
    requires Terminated(ts) && FitsAll(body, depth, max)
    requires var p := SpellAll(body); At(ts, i, p) && i + |p| < |ts| && ts[i + |p|] == if block then RBrace else Eof
    ensures var next := i + |SpellAll(body)|;
            i < |ts| && ParseStatements(ts, i, depth, max, block) ==
              Ok(Parsed(SaidAll(body), if block then next + 1 else next))
    decreases body, 1
  {
    hide At, ParseStatement, ParseStatements, SpellSentence, SpellAll, Fits, FitsAll, Said, SaidAll, Opens;
    AllForm(body, depth, max);
    if body == [] {
      NoStatements(ts, i, depth, max, block);
    } else {
      var p := SpellSentence(body[0]);
      Split(ts, i, p, SpellAll(body[1..]));
      SentenceOpens(body[0], depth, max);
      First(ts, i, p);
      NextOpens(ts, i + |p|, depth, max, body);
      SentenceRead(ts, i, depth, max, body[0]);
      AllRead(ts, i + |p|, depth, max, block, body[1..]);
      OneMore(ts, i, depth, max, block);
    }
  }

  lemma AllForm(body: seq<Sentence>, depth: nat, max: nat)
    requires FitsAll(body, depth, max)
    ensures body == [] ==> SpellAll(body) == [] && SaidAll(body) == []
    ensures body != [] ==>
              && SpellAll(body) == SpellSentence(body[0]) + SpellAll(body[1..]) && Fits(body[0], depth, max)
              && SaidAll(body) == [Said(body[0])] + SaidAll(body[1..]) && FitsAll(body[1..], depth, max)
              && (|body| > 1 ==> !(Open(body[0]) && BeginsElse(body[1])))
  {
    hide SpellSentence, Fits, Said, Open, BeginsElse;
  }

  lemma NoStatements(ts: seq<Token>, i: nat, depth: nat, max: nat, block: bool)
    requires i < |ts| && Terminated(ts) && ts[i] == if block then RBrace else Eof
    ensures ParseStatements(ts, i, depth, max, block) == Ok(Parsed([], if block then i + 1 else i))
  {
    hide ParseStatement;
  }

  lemma OneMore(ts: seq<Token>, i: nat, depth: nat, max: nat, block: bool)
    requires i < |ts| && Terminated(ts) && Opens(ts[i]) && ParseStatement(ts, i, depth, max).Ok?
    requires ParseStatements(ts, ParseStatement(ts, i, depth, max).value.next, depth, max, block).Ok?
    ensures var first := ParseStatement(ts, i, depth, max).value;
            var rest := ParseStatements(ts, first.next, depth, max, block).value;
            ParseStatements(ts, i, depth, max, block) == Ok(Parsed([first.value] + rest.value, rest.next))
  {
    hide ParseStatement;
  }

  /** The sentence behind an open `if` does not begin with `else`. */
  lemma NextOpens(ts: seq<Token>, i: nat, depth: nat, max: nat, body: seq<Sentence>)
    requires body != [] && FitsAll(body, depth, max)
    requires var p := SpellAll(body[1..]);
             At(ts, i, p) && i + |p| < |ts| && (ts[i + |p|] == RBrace || ts[i + |p|] == Eof)
    ensures Open(body[0]) ==> ts[i] != Ident("else")
  {
    hide At, SpellSentence, SpellAll, Fits, FitsAll, Open, Said, SaidAll;
    var more := body[1..];
    AllForm(body, depth, max);
    AllForm(more, depth, max);
    if more != [] {
      SentenceOpens(more[0], depth, max);
      First(ts, i, SpellAll(more));
    }
  }

  lemma {:induction false} WhileRead(ts: seq<Token>, i: nat, depth: nat, max: nat, s: Sentence)
    requires Terminated(ts) && Fits(s, depth, max) && s.Repeats?
    requires var p := SpellSentence(s); At(ts, i, p) && i + |p| < |ts|
    ensures i < |ts| && ParseStatement(ts, i, depth, max) == Ok(Parsed(Said(s), i + |SpellSentence(s)|))
    decreases s, 0
  {
    hide At, Room, SpellCondition, ParseCondition, ParseBlock, ParseStatement, SpellSentence, Fits, Said, Meant;
    var c, b := SpellCondition(s.test), SpellSentence(s.inner);
    WhileForm(s, depth, max);
    Split(ts, i, [Ident("while")], c + b);
    First(ts, i, [Ident("while")]);
    Split(ts, i + 1, c, b);
    BodyRead(ts, i + 1 + |c|, depth + 1, max, s.inner);
    ConditionRead(ts, i + 1, depth + 1, max, s.test);
    StatementUnfolds(ts, i, depth, max);
  }

  lemma WhileForm(s: Sentence, depth: nat, max: nat)
    requires Fits(s, depth, max) && s.Repeats?
    ensures SpellSentence(s) == [Ident("while")] + (SpellCondition(s.test) + SpellSentence(s.inner))
    ensures depth < max && Room(s.test, depth + 1, max) && s.inner.Braces? && Fits(s.inner, depth + 1, max)
    ensures Said(s) == While(Meant(s.test), Said(s.inner))
  {
    hide Room, SpellCondition;
  }

  lemma {:induction false} BodyRead(ts: seq<Token>, i: nat, depth: nat, max: nat, body: Sentence)
    requires Terminated(ts) && Fits(body, depth, max) && body.Braces?
    requires var p := SpellSentence(body); At(ts, i, p) && i + |p| < |ts|
    ensures i < |ts| && ParseBlock(ts, i, depth, max) == Ok(Parsed(Said(body), i + |SpellSentence(body)|))
    decreases body, 2
  {
    hide At, ParseStatement, Said;
    SentenceOpens(body, depth, max);
    First(ts, i, SpellSentence(body));
    BlockRead(ts, i, depth, max, body);
  }

  lemma {:induction false} IfRead(ts: seq<Token>, i: nat, depth: nat, max: nat, s: Sentence)
    requires Terminated(ts) && s.Chooses? && Fits(s, depth, max)
    requires var p := SpellSentence(s);
             At(ts, i, p) && i + |p| < |ts| && (Open(s) ==> ts[i + |p|] != Ident("else"))
    ensures i < |ts| && ParseStatement(ts, i, depth, max) == Ok(Parsed(Said(s), i + |SpellSentence(s)|))
    decreases s, 0
  {
    hide At, Room, SpellCondition, ParseCondition, ParseBlock, ParseStatement, ParseElse, SpellElse, SpellSentence,
         Fits, FitsOption, Said, SaidOption, Meant;
    var c, a, e := SpellCondition(s.cond), SpellSentence(s.thenPart), SpellElse(s.elsePart);
    IfForm(s, depth, max);
    Split(ts, i, [Ident("if")], c + (a + e));
    First(ts, i, [Ident("if")]);
    Split(ts, i + 1, c, a + e);
    Split(ts, i + 1 + |c|, a, e);
    BodyRead(ts, i + 1 + |c|, depth + 1, max, s.thenPart);
    ConditionRead(ts, i + 1, depth + 1, max, s.cond);
    ElseRead(ts, i + 1 + |c| + |a|, depth + 1, max, s.elsePart);
    IfUnfolds(ts, i, depth, max);
  }

  lemma IfForm(s: Sentence, depth: nat, max: nat)
    requires s.Chooses? && Fits(s, depth, max)
    ensures SpellSentence(s) == [Ident("if")]
            + (SpellCondition(s.cond) + (SpellSentence(s.thenPart) + SpellElse(s.elsePart)))
    ensures depth < max && Room(s.cond, depth + 1, max) && s.thenPart.Braces? && Fits(s.thenPart, depth + 1, max)
    ensures (s.elsePart.Some? ==> s.elsePart.value.Braces? || s.elsePart.value.Chooses?)
            && FitsOption(s.elsePart, depth + 1, max)
    ensures Said(s) == If(Meant(s.cond), Said(s.thenPart), SaidOption(s.elsePart))
  {
    hide Room, SpellCondition;
  }

  /** The `else` part, read from behind the body of an `if`. */
  function ParseElse(ts: seq<Token>, i: nat, depth: nat, max: nat): Result<Parsed<Option<Statement>>>
    requires i < |ts| && Terminated(ts)
  {
    if Keyword(ts, i, "else") then
      var alternative :- if Keyword(ts, i + 1, "if") then ParseStatement(ts, i + 1, depth, max)
                         else ParseBlock(ts, i + 1, depth, max);
      Ok(Parsed(Some(alternative.value), alternative.next))
    else Ok(Parsed(None, i))
  }

  lemma IfUnfolds(ts: seq<Token>, i: nat, depth: nat, max: nat)
    requires i < |ts| && Terminated(ts) && depth < max && ts[i] == Ident("if")
    requires ParseCondition(ts, i + 1, depth + 1, max).Ok?
    requires ParseBlock(ts, ParseCondition(ts, i + 1, depth + 1, max).value.next, depth + 1, max).Ok?
    requires ParseElse(ts, ParseBlock(ts, ParseCondition(ts, i + 1, depth + 1, max).value.next, depth + 1,
                                      max).value.next, depth + 1, max).Ok?
    ensures var cond := ParseCondition(ts, i + 1, depth + 1, max).value;
            var body := ParseBlock(ts, cond.next, depth + 1, max).value;
            var alternative := ParseElse(ts, body.next, depth + 1, max).value;
            ParseStatement(ts, i, depth, max) == Ok(Parsed(If(cond.value, body.value, alternative.value),
                                                           alternative.next))
  {
    hide ParseCondition, ParseBlock, ParseStatement;
    StatementUnfolds(ts, i, depth, max);
    IfHasElse(ts, i + 1, depth + 1, max);
  }

  lemma IfHasElse(ts: seq<Token>, i: nat, depth: nat, max: nat)
    requires i < |ts| && Terminated(ts) && ParseCondition(ts, i, depth, max).Ok?
    requires ParseBlock(ts, ParseCondition(ts, i, depth, max).value.next, depth, max).Ok?
    ensures var cond := ParseCondition(ts, i, depth, max).value;
            var body := ParseBlock(ts, cond.next, depth, max).value;
            ParseIf(ts, i, depth, max) == match ParseElse(ts, body.next, depth, max) {
              case Ok(alternative) => Ok(Parsed(If(cond.value, body.value, alternative.value), alternative.next))
              case Err(code) => Err(code)
            }
  {
    hide ParseCondition, ParseBlock, ParseStatement;
  }

  lemma {:induction false} ElseRead(ts: seq<Token>, i: nat, depth: nat, max: nat, s: Option<Sentence>)
    requires Terminated(ts) && FitsOption(s, depth, max) && (s.Some? ==> s.value.Braces? || s.value.Chooses?)
    requires var p := SpellElse(s);
             At(ts, i, p) && i + |p| < |ts| && (s.None? || Open(s.value) ==> ts[i + |p|] != Ident("else"))
    ensures ParseElse(ts, i, depth, max) == Ok(Parsed(SaidOption(s), i + |SpellElse(s)|))
    decreases s, 0
  {
    hide At, ParseStatement, ParseBlock, Fits, SpellSentence, Said;
    if s.Some? {
      var p := SpellSentence(s.value);
      Split(ts, i, [Ident("else")], p);
      First(ts, i, [Ident("else")]);
      SentenceOpens(s.value, depth, max);
      First(ts, i + 1, p);
      if s.value.Chooses? {
        SentenceRead(ts, i + 1, depth, max, s.value);
      } else {
        BodyRead(ts, i + 1, depth, max, s.value);
      }
    }
  }

  lemma {:induction false} ForRead(ts: seq<Token>, i: nat, depth: nat, max: nat, s: Sentence)
    requires Terminated(ts) && s.Loops? && Fits(s, depth, max)
    requires var p := SpellSentence(s); At(ts, i, p) && i + |p| < |ts|
    ensures i < |ts| && ParseStatement(ts, i, depth, max) == Ok(Parsed(Said(s), i + |SpellSentence(s)|))
    decreases s, 0
  {
    hide At, Room, ParseBlock, ParseStatement, ParseFor, SpellClause, SpellBound, ParseClause, ParseBound, ClauseFits,
         SpellSentence, Fits, Terminated, Said, SaidOption, Meant;
    var a, b, c, d := SpellClause(s.start, Semicolon), SpellBound(s.bound), SpellClause(s.step, RParen),
        SpellSentence(s.inner);
    var open := [Ident("for"), LParen];
    ForForm(s, depth, max);
    Split(ts, i, open, a + (b + (c + d)));
    First(ts, i, open);
    First(ts, i + 1, open[1..]);
    Split(ts, i + 2, a, b + (c + d));
    Split(ts, i + 2 + |a|, b, c + d);
    Split(ts, i + 2 + |a| + |b|, c, d);
    BodyRead(ts, i + 2 + |a| + |b| + |c|, depth + 1, max, s.inner);
    ClauseRead(ts, i + 2, depth + 1, max, s.start, Semicolon);
    BoundRead(ts, i + 2 + |a|, depth + 1, max, s.bound);
    ClauseRead(ts, i + 2 + |a| + |b|, depth + 1, max, s.step, RParen);
    ForParts(ts, i + 1, depth + 1, max, Said(s), i + 2 + |a|, i + 2 + |a| + |b|, i + 2 + |a| + |b| + |c|,
             i + |SpellSentence(s)|);
    StatementUnfolds(ts, i, depth, max);
  }

  lemma ForParts(ts: seq<Token>, i: nat, depth: nat, max: nat, s: Statement, n1: nat, n2: nat, n3: nat, n4: nat)
    requires i + 1 < |ts| && n1 < |ts| && n2 < |ts| && n3 < |ts| && Terminated(ts) && ts[i] == LParen && s.For?
    requires ParseClause(ts, i + 1, depth, max, Semicolon) == Ok(Parsed(s.start, n1))
             && ParseBound(ts, n1, depth, max) == Ok(Parsed(s.bound, n2))
    requires ParseClause(ts, n2, depth, max, RParen) == Ok(Parsed(s.step, n3))
             && ParseBlock(ts, n3, depth, max) == Ok(Parsed(s.forBody, n4))
    ensures ParseFor(ts, i, depth, max) == Ok(Parsed(s, n4))
  {
    hide ParseBlock, ParseClause, ParseBound;
  }

  lemma ForForm(s: Sentence, depth: nat, max: nat)
    requires s.Loops? && Fits(s, depth, max)
    ensures SpellSentence(s) == [Ident("for"), LParen]
            + (SpellClause(s.start, Semicolon) + (SpellBound(s.bound)
                                                  + (SpellClause(s.step, RParen) + SpellSentence(s.inner))))
    ensures depth < max && ClauseFits(s.start, depth + 1, max)
            && (s.bound.Some? ==> Room(s.bound.value, depth + 1, max))
    ensures ClauseFits(s.step, depth + 1, max) && s.inner.Braces? && Fits(s.inner, depth + 1, max)
    ensures var t := Said(s);
            && t.For? && t.start == SaidOption(s.start) && t.step == SaidOption(s.step) && t.forBody == Said(s.inner)
            && t.bound == if s.bound.None? then None else Some(Meant(s.bound.value))
  {
    hide Room, ClauseFits, SpellClause, SpellBound;
  }

  /** Whatever is written by the grammar is read as what it stands for. */
  lemma GrammarRead(body: seq<Sentence>, max: nat)
    requires FitsAll(body, 0, max)
    ensures ParseProgram(SpellAll(body) + [Eof], max) == Ok(SaidAll(body))
  {
    hide ParseStatements, SpellAll, FitsAll, SaidAll;
    var ts := SpellAll(body) + [Eof];
    assert At(ts, 0, SpellAll(body)) by { assert ts[0..|SpellAll(body)|] == SpellAll(body); }
    AllRead(ts, 0, 0, max, false, body);
  }
}
