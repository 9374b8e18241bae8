/** The lexer object of crates/serial-macro/src/syntax.rs: a source and an offset. Each method returns
    what the function of MacroLexer returns and leaves the offset behind what it read. */
module MacroLexerObject {
  import opened Wrappers
  import opened Numerals
  import opened MacroCore
  import opened MacroParser
  import opened MacroLexer
  import opened MacroParserObject

  class Lexer {
    const source: string
    const maxString: nat
    var offset: nat

    ghost predicate Valid()
      reads this
    {
      offset <= |source|
    }

    constructor (source: string, maxString: nat)
      ensures this.source == source && this.maxString == maxString && offset == 0 && Valid()
    {
      this.source, this.maxString, offset := source, maxString, 0;
    }

    /** A scan begun at `at` did what `expected` says. */
    ghost predicate Did<T>(at: nat, expected: Result<Scanned<T>>, r: Result<T>)
      reads this
    {
      && Valid() && offset >= at
      && (expected.Ok? ==> r == Ok(expected.value.value) && offset == expected.value.next)
      && (expected.Err? ==> r == Err(expected.code))
    }

    function Peek(): Option<char>
      requires Valid()
      reads this
    {
      if offset < |source| then Some(source[offset]) else None
    }

    method Next() returns (c: Option<char>)
      requires Valid()
      modifies `offset
      ensures Valid() && c == old(Peek()) && offset == if c.Some? then old(offset) + 1 else old(offset)
    {
      c := Peek();
      if c.Some? { offset := offset + 1; }
    }

    method Take(c: char) returns (taken: bool)
      requires Valid()
      modifies `offset
      ensures Valid() && taken == Sees(source, old(offset), c)
              && offset == if taken then old(offset) + 1 else old(offset)
    {
      taken := Peek() == Some(c);
      if taken { var _ := Next(); }
    }

    lemma SliceGrows(start: nat, end: nat)
      requires start <= end < |source|
      ensures source[start..end] + [source[end]] == source[start..end + 1]
    {
    }

    /** Up to six hexadecimal digits. */
    method ReadHexRun() returns (hex: string)
      requires Valid()
      modifies `offset
      ensures old(offset) <= offset == HexEnd(source, old(offset), 6) <= |source| && hex == source[old(offset)..offset]
    {
      hide IsHexDigit;
      hex := "";
      ghost var start := offset;
      while Peek().Some? && IsHexDigit(Peek().value) && |hex| < 6
        invariant start <= offset <= |source| && hex == source[start..offset] && |hex| <= 6
        invariant HexEnd(source, offset, 6 - |hex|) == HexEnd(source, start, 6)
        decreases |source| - offset
      {
        SliceGrows(start, offset);
        var c := Next();
        hex := hex + [c.value];
      }
    }

    /** Exactly four hexadecimal digits. */
    method ReadFourHex() returns (r: Result<string>)
      requires Valid()
      modifies `offset
      ensures Valid() && offset >= old(offset)
      ensures r.Ok? <==> HexEnd(source, old(offset), 4) == old(offset) + 4
      ensures r.Ok? ==> offset == old(offset) + 4 && r.value == source[old(offset)..offset]
      ensures r.Err? ==> r.code == InvalidEscape
    {
      hide IsHexDigit;
      var hex := "";
      ghost var start := offset;
      for n := 0 to 4
        invariant offset == start + n <= |source| && hex == source[start..offset]
        invariant HexEnd(source, offset, 4 - n) == HexEnd(source, start, 4)
      {
        if offset < |source| { SliceGrows(start, offset); }
        var c := Next();
        if c.None? || !IsHexDigit(c.value) { return Err(InvalidEscape); }
        hex := hex + [c.value];
      }
      r := Ok(hex);
    }

    method ReadUnicode() returns (r: Result<char>)
      requires Valid()
      modifies `offset
      ensures Did(old(offset), UnicodeAt(source, old(offset)), r)
    {
      hide HexEnd, HexValue, IsHexDigit;
      var brace := Take('{');
      var hex: string;
      if brace {
        hex := ReadHexRun();
        if hex == "" { return Err(InvalidEscape); }
        var closed := Take('}');
        if !closed { return Err(InvalidEscape); }
      } else {
        hex :- ReadFourHex();
      }
      r := ScalarOf(HexValue(hex));
    }

    method ReadEscape() returns (r: Result<char>)
      requires Valid()
      modifies `offset
      ensures Did(old(offset), EscapeAt(source, old(offset)), r)
    {
      hide UnicodeAt;
      var escaped := Next();
      if escaped.None? { return Err(InvalidEscape); }
      match escaped.value
      case '"' => r := Ok('"');
      case '\\' => r := Ok('\\');
      case 'n' => r := Ok('\n');
      case 'r' => r := Ok('\r');
      case 't' => r := Ok('\t');
      case '0' => r := Ok('\0');
      case 'u' => r := ReadUnicode();
      case _ => r := Err(InvalidEscape);
    }

    method ReadString() returns (r: Result<string>)
      requires Valid()
      modifies `offset
      ensures Did(old(offset), StringFrom(source, old(offset), "", maxString), r)
    {
      hide EscapeAt, Utf8Len, IsControl;
      ghost var at := offset;
      var output := "";
      assert Utf8Len("") == 0 by { EmptyLength(); }
      while true
        invariant Valid() && offset >= at && Utf8Len(output) <= maxString
        invariant StringFrom(source, offset, output, maxString) == StringFrom(source, at, "", maxString)
        decreases |source| - offset
      {
        var next := Next();
        if next.None? { return Err(UnterminatedString); }
        var c := next.value;
        if c == '"' { return Ok(output); }
        if c == '\\' {
          c :- ReadEscape();
        } else if IsControl(c) {
          return Err(InvalidString);
        }
        output := output + [c];
        if Utf8Len(output) > maxString { return Err(StringLimit); }
      }
    }

    lemma EmptyLength()
      ensures Utf8Len("") == 0
    {
    }

    /** One token that may or may not be followed by `second` to make another. */
    method Either(second: char, two: Token, one: Token) returns (token: Token)
      requires Valid()
      modifies `offset
      ensures Valid() && token == (if Sees(source, old(offset), second) then two else one)
      ensures offset == if Sees(source, old(offset), second) then old(offset) + 1 else old(offset)
    {
      var taken := Take(second);
      token := if taken then two else one;
    }

    method ReadInteger(start: nat) returns (r: Result<Token>)
      requires Valid() && start + 1 == offset && IsDigit(source[start])
      modifies `offset
      ensures Did(start, IntegerAt(source, start), r)
    {
      while Peek().Some? && IsDigit(Peek().value)
        invariant start < offset <= |source| && DigitsEnd(source, offset) == DigitsEnd(source, start + 1)
        invariant forall k :: start <= k < offset ==> IsDigit(source[k])
        decreases |source| - offset
      {
        var _ := Next();
      }
      var n := NumberOf(source[start..offset]);
      r := if n > I64_MAX then Err(IntegerOverflow) else Ok(IntegerToken(n));
    }

    method ReadName(start: nat) returns (token: Token)
      requires Valid() && start + 1 == offset
      modifies `offset
      ensures Valid() && offset == NameEnd(source, start + 1) && token == Ident(source[start..offset])
    {
      while Peek().Some? && IsNamePart(Peek().value)
        invariant start < offset <= |source| && NameEnd(source, offset) == NameEnd(source, start + 1)
        decreases |source| - offset
      {
        var _ := Next();
      }
      token := Ident(source[start..offset]);
    }

    method ReadSymbol(start: nat) returns (r: Result<Token>)
      requires Valid() && start + 1 == offset
      modifies `offset
      ensures Did(start, Symbol(source, start), r)
    {
      var token: Token;
      match source[start]
      case '(' => return Ok(LParen);
      case ')' => return Ok(RParen);
      case '{' => return Ok(LBrace);
      case '}' => return Ok(RBrace);
      case ';' => return Ok(Semicolon);
      case ',' => return Ok(Comma);
      case '.' => return Ok(Dot);
      case '+' =>
        var twice := Take('+');
        if twice { return Ok(PlusPlus); }
        token := Either('=', PlusEqual, Plus);
        return Ok(token);
      case '-' =>
        var twice := Take('-');
        if twice { return Ok(MinusMinus); }
        token := Either('=', MinusEqual, Minus);
        return Ok(token);
      case '*' => token := Either('=', StarEqual, Star); return Ok(token);
      case '/' => token := Either('=', SlashEqual, Slash); return Ok(token);
      case '%' => token := Either('=', PercentEqual, Percent); return Ok(token);
      case '!' => token := Either('=', BangEqual, Bang); return Ok(token);
      case '=' => token := Either('=', EqualEqual, EqualSign); return Ok(token);
      case '<' => token := Either('=', LessEqualSign, LessSign); return Ok(token);
      case '>' => token := Either('=', GreaterEqualSign, GreaterSign); return Ok(token);
      case '&' =>
        var twice := Take('&');
        return if twice then Ok(AndAnd) else Err(UnexpectedCharacter);
      case '|' =>
        var twice := Take('|');
        return if twice then Ok(OrOr) else Err(UnexpectedCharacter);
      case _ => return Err(UnexpectedCharacter);
    }

    method ReadToken() returns (r: Result<Token>)
      requires offset < |source|
      modifies `offset
      ensures Did(old(offset), TokenAt(source, old(offset), maxString), r)
    {
      hide StringFrom, IntegerAt, Symbol;
      var start := offset;
      var next := Next();
      var c := next.value;
      if c == '"' {
        var text :- ReadString();
        r := Ok(StringToken(text));
      } else if IsDigit(c) {
        r := ReadInteger(start);
      } else if IsNameStart(c) {
        var token := ReadName(start);
        r := Ok(token);
      } else {
        r := ReadSymbol(start);
      }
    }

    method SkipComment()
      requires Valid()
      modifies `offset
      ensures Valid() && offset == CommentEnd(source, old(offset))
    {
      while Peek().Some? && Peek().value != '\n'
        invariant Valid() && CommentEnd(source, offset) == CommentEnd(source, old(offset))
        decreases |source| - offset
      {
        var _ := Next();
      }
    }

    method ReadTokens() returns (r: Result<seq<Token>>)
      requires Valid()
      modifies `offset
      ensures r == TokensFrom(source, old(offset), maxString)
    {
      hide TokenAt;
      var tokens := [];
      ghost var all := TokensFrom(source, offset, maxString);
      ghost var rest := all;
      assert Joined(tokens, rest) == all by { JoinedNothing(all); }
      while Peek().Some?
        invariant Valid() && rest == TokensFrom(source, offset, maxString) && Joined(tokens, rest) == all
        decreases |source| - offset
      {
        if IsSpace(source[offset]) {
          var _ := Next();
        } else if StartsComment(source, offset) {
          CommentFromStart(offset);
          SkipComment();
        } else {
          var token :- ReadToken();
          JoinedPush(tokens, token, TokensFrom(source, offset, maxString));
          tokens := tokens + [token];
        }
        rest := TokensFrom(source, offset, maxString);
      }
      r := Ok(tokens + [Eof]);
    }

    lemma CommentFromStart(i: nat)
      requires StartsComment(source, i)
      ensures CommentEnd(source, i) == CommentEnd(source, i + 2)
    {
      assert CommentEnd(source, i + 1) == CommentEnd(source, i + 2);
    }
  }

  function Joined(front: seq<Token>, rest: Result<seq<Token>>): Result<seq<Token>> {
    match rest
    case Ok(tokens) => Ok(front + tokens)
    case Err(code) => Err(code)
  }

  lemma JoinedNothing(rest: Result<seq<Token>>)
    ensures Joined([], rest) == rest
  {
    if rest.Ok? { assert [] + rest.value == rest.value; }
  }

  lemma JoinedPush(front: seq<Token>, token: Token, rest: Result<seq<Token>>)
    ensures Joined(front, Joined([token], rest)) == Joined(front + [token], rest)
  {
    if rest.Ok? { assert front + ([token] + rest.value) == (front + [token]) + rest.value; }
  }

  /** `parse`: the source's tokens, then its statements. */
  method ParseText(source: string, limits: Limits) returns (r: Result<seq<Statement>>)
    ensures r == ParseSource(source, limits)
  {
    hide TokensFrom, ParseProgram;
    if Utf8Len(source) > limits.maxSourceBytes { return Err(SourceLimit); }
    var lexer := new Lexer(source, limits.maxStringBytes);
    var tokens :- lexer.ReadTokens();
    r := Parse(tokens, limits.maxNesting);
  }
}
