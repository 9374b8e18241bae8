/** What becomes of a source text, said by the lexical grammar, the grammar and the typing rules alone. */
module MacroFrontEnd {
  import opened Wrappers
  import opened MacroCore
  import opened MacroCompile
  import opened MacroSemantics
  import opened MacroParser
  import opened MacroLexer
  import opened MacroCompiler
  import opened MacroGrammar
  import opened MacroSpelled
  import opened MacroTyping
  import Lexical = MacroLexical

  /** The source is short enough, and spells tokens that are written by the grammar for `program`. */
  ghost predicate Expresses(source: string, program: seq<Statement>, limits: Limits) {
    && Utf8Len(source) <= limits.maxSourceBytes
    && exists tokens: seq<Token> ::
         && Lexical.Written(source, tokens) && Lexical.ShortStrings(tokens, limits.maxStringBytes)
         && Grammatical(tokens, program, limits.maxNesting)
  }

  /** The limits and parameters a script may be compiled with. */
  predicate Configured(st: Statics) {
    && 1 <= st.limits.maxNesting <= 128 && st.limits.instructionsPerYield > 0
    && (forall name | name in st.parameters :: Lexical.NameShaped(name) && !Kept(name))
    && |st.parameters| <= st.limits.maxVariables
  }

  /** The source is compiled to a program of its own. */
  ghost predicate Compiles(source: string, st: Statics) {
    && Configured(st)
    && exists program ::
         && Expresses(source, program, st.limits) && WellTyped(program, st)
         && LetsAll(program) <= st.limits.maxVariables
  }

  lemma LexedIs(source: string, tokens: seq<Token>, limits: Limits)
    requires Tokens(source, limits) == Ok(tokens)
    ensures tokens != [] && tokens[|tokens| - 1] == Eof && Eof !in tokens[..|tokens| - 1]
    ensures tokens == tokens[..|tokens| - 1] + [Eof] && Utf8Len(source) <= limits.maxSourceBytes
    ensures TokensFrom(source, 0, limits.maxStringBytes) == Ok(tokens)
  {
    hide TokensFrom, Utf8Len;
  }

  /** Lexer and parser together accept exactly the sources the grammars write, each as its one program. */
  lemma SourceIsExpressed(source: string, program: seq<Statement>, limits: Limits)
    ensures ParseSource(source, limits) == Ok(program) <==> Expresses(source, program, limits)
  {
    hide TokensFrom, ParseProgram, Grammatical, Lexical.Written, Lexical.ShortStrings, Utf8Len;
    if ParseSource(source, limits) == Ok(program) {
      var all := Tokens(source, limits).value;
      LexedIs(source, all, limits);
      var tokens := all[..|all| - 1];
      Lexical.LexerReadsWritten(source, tokens, limits.maxStringBytes);
      ParserReadsGrammar(tokens, program, limits.maxNesting);
    }
    if Expresses(source, program, limits) {
      var tokens: seq<Token> :|
        && Lexical.Written(source, tokens) && Lexical.ShortStrings(tokens, limits.maxStringBytes)
        && Grammatical(tokens, program, limits.maxNesting);
      Lexical.LexerReadsWritten(source, tokens, limits.maxStringBytes);
      assert Eof !in tokens by { NoEndInside(source, tokens, limits.maxStringBytes); }
      ParserReadsGrammar(tokens, program, limits.maxNesting);
    }
  }

  lemma NoEndInside(source: string, tokens: seq<Token>, max: nat)
    requires TokensFrom(source, 0, max) == Ok(tokens + [Eof])
    ensures Eof !in tokens
  {
    hide TokensFrom;
    var all := tokens + [Eof];
    assert forall k :: 0 <= k < |tokens| ==> all[k] == tokens[k];
  }

  lemma PreflightIsConfigured(st: Statics)
    ensures PreflightError(st).None? <==> Configured(st)
  {
    hide Reserved, Kept;
    forall name | name in st.parameters ensures ParameterName(name) <==> Lexical.NameShaped(name) && !Kept(name) {
      ReservedIsKept(name);
      NamesAlike(name);
    }
  }

  lemma NamesAlike(name: string)
    ensures IsName(name) <==> Lexical.NameShaped(name)
  {
  }

  /** A source is compiled exactly when it can be configured, expresses a program, and that is well typed. */
  lemma CompiledIs(source: string, st: Statics)
    ensures Compiles(source, st) <==>
              && PreflightError(st).None? && ParseSource(source, st.limits).Ok?
              && CodeOf(ParseSource(source, st.limits).value, st).Ok?
  {
    hide ParseSource, PreflightError, CodeOf, Expresses, WellTyped, LetsAll, Configured;
    PreflightIsConfigured(st);
    var parsed := ParseSource(source, st.limits);
    if parsed.Ok? {
      SourceIsExpressed(source, parsed.value, st.limits);
      AcceptsWellTyped(parsed.value, st);
    }
    if Compiles(source, st) {
      var program :| Expresses(source, program, st.limits) && WellTyped(program, st)
                     && LetsAll(program) <= st.limits.maxVariables;
      SourceIsExpressed(source, program, st.limits);
    }
  }
}
