/** Writing tokens as text, and the proof that the lexer reads them back; with the parser's round trip,
    a program written as source text is read as itself. */
module MacroRender {
  import opened Numerals
  import opened MacroCore
  import opened MacroParser
  import opened MacroParsed
  import opened MacroRoundTrip
  import opened MacroLexer

  // ---------- writing ----------

  function HexDigitOf(n: nat): (c: char)
    requires n < 16
    ensures IsHexDigit(c) && HexDigit(c) == n
  {
    if n < 10 then ('0' as int + n) as char else ('a' as int + n - 10) as char
  }

  /** Quotes and backslashes are escaped, control characters are written by their number. */
  function Escape(c: char): (text: string)
    ensures |text| > 0
  {
    if c == '"' then ['\\', '"']
    else if c == '\\' then ['\\', '\\']
    else if IsControl(c) then ['\\', 'u', '{', HexDigitOf(c as int / 16), HexDigitOf(c as int % 16), '}']
    else [c]
  }

  function Escaped(text: string): string {
    if text == [] then [] else Escape(text[0]) + Escaped(text[1..])
  }

  function SymbolText(token: Token): string {
    match token
    case LParen => "("
    case RParen => ")"
    case LBrace => "{"
    case RBrace => "}"
    case Semicolon => ";"
    case Comma => ","
    case Dot => "."
    case Plus => "+"
    case Minus => "-"
    case Star => "*"
    case Slash => "/"
    case Percent => "%"
    case Bang => "!"
    case EqualSign => "="
    case EqualEqual => "=="
    case BangEqual => "!="
    case LessSign => "<"
    case LessEqualSign => "<="
    case GreaterSign => ">"
    case GreaterEqualSign => ">="
    case AndAnd => "&&"
    case OrOr => "||"
    case PlusPlus => "++"
    case MinusMinus => "--"
    case PlusEqual => "+="
    case MinusEqual => "-="
    case StarEqual => "*="
    case SlashEqual => "/="
    case PercentEqual => "%="
    case _ => ""
  }

  /** Tokens that can be written: names the lexer knows, integers without a sign, short strings. */
  predicate CanWrite(token: Token, max: nat) {
    match token
    case Ident(name) => IsName(name)
    case IntegerToken(number) => number >= 0
    case StringToken(text) => Utf8Len(text) <= max
    case Eof => false
    case _ => true
  }

  function TokenText(token: Token, max: nat): string
    requires CanWrite(token, max)
  {
    match token
    case Ident(name) => name
    case IntegerToken(number) => Digits(number)
    case StringToken(text) => "\"" + (Escaped(text) + "\"")
    case _ => SymbolText(token)
  }

  predicate CanWriteAll(tokens: seq<Token>, max: nat) {
    forall i :: 0 <= i < |tokens| ==> CanWrite(tokens[i], max)
  }

  function Render(tokens: seq<Token>, max: nat): string
    requires CanWriteAll(tokens, max)
  {
    if tokens == [] then "" else (TokenText(tokens[0], max) + " ") + Render(tokens[1..], max)
  }

  // ---------- text in place ----------

  predicate Stands(source: string, i: nat, text: string) {
    i + |text| <= |source| && source[i..i + |text|] == text
  }

  lemma Parts(source: string, i: nat, a: string, b: string)
    requires Stands(source, i, a + b)
    ensures Stands(source, i, a) && Stands(source, i + |a|, b)
  {
    assert source[i..i + |a|] == source[i..i + |a + b|][..|a|] == a;
    assert source[i + |a|..i + |a| + |b|] == source[i..i + |a + b|][|a|..] == b;
  }

  lemma At(source: string, i: nat, text: string, k: nat)
    requires Stands(source, i, text) && k < |text|
    ensures source[i + k] == text[k]
  {
    assert source[i..i + |text|][k] == source[i + k];
  }

  // ---------- reading back ----------

  lemma HexPair(a: nat, b: nat)
    requires a < 16 && b < 16
    ensures HexValue([HexDigitOf(a), HexDigitOf(b)]) == 16 * a + b
  {
    var text := [HexDigitOf(a), HexDigitOf(b)];
    assert text[..1] == [HexDigitOf(a)] && text[..1][..0] == [];
    assert HexValue(text[..1]) == a;
  }

  lemma EscapeRead(source: string, i: nat, c: char)
    requires Stands(source, i, Escape(c)) && |Escape(c)| > 1
    ensures source[i] == '\\' && EscapeAt(source, i + 1) == Ok(Scanned(c, i + |Escape(c)|))
  {
    var text := Escape(c);
    At(source, i, text, 0);
    At(source, i, text, 1);
    if c != '"' && c != '\\' {
      At(source, i, text, 2);
      At(source, i, text, 3);
      At(source, i, text, 4);
      At(source, i, text, 5);
      HexPair(c as int / 16, c as int % 16);
      assert source[i + 3..i + 5] == [text[3], text[4]];
      HexTwo(source, i + 3);
      assert UnicodeAt(source, i + 2) == Ok(Scanned(c, i + 6));
    }
  }

  lemma HexTwo(source: string, i: nat)
    requires i + 2 < |source| && IsHexDigit(source[i]) && IsHexDigit(source[i + 1]) && !IsHexDigit(source[i + 2])
    ensures HexEnd(source, i, 6) == i + 2
  {
    assert HexEnd(source, i + 2, 4) == i + 2;
    assert HexEnd(source, i + 1, 5) == i + 2;
  }

  lemma {:induction false} EscapedRead(source: string, i: nat, output: string, text: string, max: nat)
    requires Stands(source, i, Escaped(text) + "\"") && Utf8Len(output + text) <= max
    ensures Utf8Len(output) <= max && i <= |source|
    ensures StringFrom(source, i, output, max) == Ok(Scanned(output + text, i + |Escaped(text)| + 1))
    decreases |text|
  {
    hide Escape, EscapeAt, Utf8Len, IsControl;
    Utf8LenConcat(output, text);
    if text == [] {
      assert Escaped(text) + "\"" == "\"";
      At(source, i, "\"", 0);
      assert output + text == output;
    } else {
      var c, rest := text[0], text[1..];
      assert Escaped(text) + "\"" == Escape(c) + (Escaped(rest) + "\"");
      Parts(source, i, Escape(c), Escaped(rest) + "\"");
      assert output + text == (output + [c]) + rest;
      Utf8LenConcat(output + [c], rest);
      EscapedRead(source, i + |Escape(c)|, output + [c], rest, max);
      CharacterRead(source, i, c);
    }
  }

  /** One character of a string literal, escaped or not. */
  lemma CharacterRead(source: string, i: nat, c: char)
    requires Stands(source, i, Escape(c))
    ensures i < |source| && source[i] != '"'
    ensures source[i] == '\\' ==> EscapeAt(source, i + 1) == Ok(Scanned(c, i + |Escape(c)|))
    ensures source[i] != '\\' ==> !IsControl(source[i]) && source[i] == c && |Escape(c)| == 1
  {
    hide EscapeAt;
    At(source, i, Escape(c), 0);
    if |Escape(c)| > 1 { EscapeRead(source, i, c); }
  }

  lemma {:induction false} NameRead(source: string, i: nat, name: string, k: nat)
    requires Stands(source, i, name + " ") && k <= |name| && forall j :: 0 <= j < |name| ==> IsNamePart(name[j])
    ensures NameEnd(source, i + k) == i + |name|
    decreases |name| - k
  {
    Parts(source, i, name, " ");
    if k < |name| {
      At(source, i, name, k);
      NameRead(source, i, name, k + 1);
    } else {
      At(source, i + |name|, " ", 0);
    }
  }

  lemma {:induction false} DigitsScanned(source: string, i: nat, text: string, k: nat)
    requires Stands(source, i, text + " ") && k <= |text| && forall j :: 0 <= j < |text| ==> IsDigit(text[j])
    ensures DigitsEnd(source, i + k) == i + |text|
    decreases |text| - k
  {
    Parts(source, i, text, " ");
    if k < |text| {
      At(source, i, text, k);
      DigitsScanned(source, i, text, k + 1);
    } else {
      At(source, i + |text|, " ", 0);
    }
  }

  lemma NameTokenRead(source: string, i: nat, name: string, max: nat)
    requires IsName(name) && Stands(source, i, name + " ")
    ensures i < |source| && !IsSpace(source[i]) && !StartsComment(source, i)
    ensures TokenAt(source, i, max) == Ok(Scanned(Ident(name), i + |name|))
  {
    Parts(source, i, name, " ");
    At(source, i, name, 0);
    NameRead(source, i, name, 1);
  }

  lemma IntegerTokenRead(source: string, i: nat, number: i64, max: nat)
    requires number >= 0 && Stands(source, i, Digits(number) + " ")
    ensures i < |source| && !IsSpace(source[i]) && !StartsComment(source, i)
    ensures TokenAt(source, i, max) == Ok(Scanned(IntegerToken(number), i + |Digits(number)|))
  {
    hide Digits;
    var text := Digits(number);
    Parts(source, i, text, " ");
    DigitsRead(number);
    At(source, i, text, 0);
    DigitsScanned(source, i, text, 1);
  }

  lemma StringTokenRead(source: string, i: nat, value: string, max: nat)
    requires Utf8Len(value) <= max && Stands(source, i, "\"" + (Escaped(value) + "\""))
    ensures i < |source| && !IsSpace(source[i]) && !StartsComment(source, i)
    ensures TokenAt(source, i, max) == Ok(Scanned(StringToken(value), i + 1 + |Escaped(value)| + 1))
  {
    hide Escaped, StringFrom;
    Parts(source, i, "\"", Escaped(value) + "\"");
    At(source, i, "\"", 0);
    assert "" + value == value;
    EscapedRead(source, i + 1, "", value, max);
  }

  lemma TokenRead(source: string, i: nat, token: Token, max: nat)
    requires CanWrite(token, max) && Stands(source, i, TokenText(token, max) + " ")
    ensures i < |source| && !IsSpace(source[i]) && !StartsComment(source, i)
    ensures TokenAt(source, i, max) == Ok(Scanned(token, i + |TokenText(token, max)|))
  {
    hide TokenAt, IsSpace, StartsComment, Symbol, SymbolText, Digits, Escaped, Stands;
    var text := TokenText(token, max);
    Parts(source, i, text, " ");
    if token.Ident? {
      NameTokenRead(source, i, token.name, max);
    } else if token.IntegerToken? {
      IntegerTokenRead(source, i, token.number, max);
    } else if token.StringToken? {
      StringTokenRead(source, i, token.text, max);
    } else {
      At(source, i + |text|, " ", 0);
      SymbolRead(source, i, token);
      SymbolIsToken(source, i, max);
    }
  }

  lemma SymbolIsToken(source: string, i: nat, max: nat)
    requires i < |source| && source[i] != '"' && !IsDigit(source[i]) && !IsNameStart(source[i])
    ensures TokenAt(source, i, max) == Symbol(source, i)
  {
    hide Symbol;
  }

  lemma SymbolRead(source: string, i: nat, token: Token)
    requires !(token.Ident? || token.IntegerToken? || token.StringToken? || token.Eof?)
    requires Stands(source, i, SymbolText(token)) && Sees(source, i + |SymbolText(token)|, ' ')
    ensures i < |source| && !IsSpace(source[i]) && !StartsComment(source, i) && source[i] != '"' && !IsDigit(source[i])
            && !IsNameStart(source[i])
    ensures Symbol(source, i) == Ok(Scanned(token, i + |SymbolText(token)|))
  {
    var text := SymbolText(token);
    At(source, i, text, 0);
    if |text| == 2 { At(source, i, text, 1); }
  }

  lemma TokensStep(source: string, i: nat, max: nat)
    requires i < |source| && !IsSpace(source[i]) && !StartsComment(source, i) && TokenAt(source, i, max).Ok?
    ensures TokensFrom(source, i, max) ==
            match TokensFrom(source, TokenAt(source, i, max).value.next, max) {
              case Err(code) => Err(code)
              case Ok(rest) => Ok([TokenAt(source, i, max).value.value] + rest)
            }
  {
    hide TokenAt, IsSpace, StartsComment;
  }

  lemma SpaceStep(source: string, i: nat, max: nat)
    requires i < |source| && source[i] == ' '
    ensures TokensFrom(source, i, max) == TokensFrom(source, i + 1, max)
  {
    hide TokenAt;
  }

  lemma TokensEnd(source: string, i: nat, max: nat)
    requires i == |source|
    ensures TokensFrom(source, i, max) == Ok([Eof])
  {
  }

  lemma {:induction false} RenderedRead(source: string, i: nat, tokens: seq<Token>, max: nat)
    requires CanWriteAll(tokens, max) && Stands(source, i, Render(tokens, max)) && i + |Render(tokens, max)| == |source|
    ensures TokensFrom(source, i, max) == Ok(tokens + [Eof])
    decreases |tokens|
  {
    hide TokenText, TokenAt, CanWrite, Stands, IsSpace, StartsComment, TokensFrom;
    if tokens == [] {
      assert tokens + [Eof] == [Eof];
      TokensEnd(source, i, max);
    } else {
      var text, rest := TokenText(tokens[0], max), Render(tokens[1..], max);
      Parts(source, i, text + " ", rest);
      Parts(source, i, text, " ");
      TokenRead(source, i, tokens[0], max);
      At(source, i + |text|, " ", 0);
      TokensStep(source, i, max);
      SpaceStep(source, i + |text|, max);
      RenderedRead(source, i + |text| + 1, tokens[1..], max);
      assert tokens + [Eof] == [tokens[0]] + (tokens[1..] + [Eof]);
    }
  }

  /** The lexer reads written tokens back. */
  lemma LexerReadsRendered(tokens: seq<Token>, max: nat)
    requires CanWriteAll(tokens, max)
    ensures TokensFrom(Render(tokens, max), 0, max) == Ok(tokens + [Eof])
  {
    var source := Render(tokens, max);
    assert source[0..|source|] == source;
    RenderedRead(source, 0, tokens, max);
  }

  /** A program written as source text is read as itself. */
  lemma SourceRoundTrip(program: seq<Statement>, limits: Limits)
    requires WritableAll(program, 0, limits.maxNesting) && CanWriteAll(PrintAll(program), limits.maxStringBytes)
    requires Utf8Len(Render(PrintAll(program), limits.maxStringBytes)) <= limits.maxSourceBytes
    ensures ParseSource(Render(PrintAll(program), limits.maxStringBytes), limits) == Ok(program)
  {
    hide Render, PrintAll, TokensFrom, ParseProgram, WritableAll, Utf8Len;
    LexerReadsRendered(PrintAll(program), limits.maxStringBytes);
    RoundTrip(program, limits.maxNesting);
  }

  /** Whatever the source, its string tokens are within the limit. */
  lemma {:induction false} LexedTokensAreShort(source: string, i: nat, max: nat)
    requires i <= |source| && TokensFrom(source, i, max).Ok?
    ensures ShortTokens(TokensFrom(source, i, max).value, max)
    decreases |source| - i
  {
    hide TokenAt, Utf8Len;
    if i < |source| {
      if IsSpace(source[i]) {
        LexedTokensAreShort(source, i + 1, max);
      } else if StartsComment(source, i) {
        LexedTokensAreShort(source, CommentEnd(source, i + 2), max);
      } else {
        LexedTokensAreShort(source, TokenAt(source, i, max).value.next, max);
      }
    }
  }
}
