/** The lexer of crates/serial-macro/src/syntax.rs: what each scan returns and where it leaves the
    offset, as functions on a source of characters. Class `Lexer` in MacroLexerObject.dfy is the
    object with the offset. Lines and columns are spans and are dropped with them. */
module MacroLexer {
  import opened Numerals
  import opened MacroCore
  import opened MacroParser

  datatype Scanned<+T> = Scanned(value: T, next: nat)

  // ---------- characters ----------

  predicate IsHexDigit(c: char) {
    IsDigit(c) || 'a' <= c <= 'f' || 'A' <= c <= 'F'
  }

  /** `is_ascii_whitespace`: no vertical tab. */
  predicate IsSpace(c: char) {
    c == ' ' || c == '\t' || c == '\n' || c as int == 12 || c == '\r'
  }

  predicate Sees(source: string, i: nat, c: char) {
    i < |source| && source[i] == c
  }

  function HexDigit(c: char): nat
    requires IsHexDigit(c)
  {
    if IsDigit(c) then c as int - '0' as int
    else if 'a' <= c <= 'f' then c as int - 'a' as int + 10
    else c as int - 'A' as int + 10
  }

  function HexValue(text: string): nat
    requires forall k :: 0 <= k < |text| ==> IsHexDigit(text[k])
  {
    if text == [] then 0 else 16 * HexValue(text[..|text| - 1]) + HexDigit(text[|text| - 1])
  }

  // ---------- runs of characters ----------

  function NameEnd(source: string, i: nat): (end: nat)
    requires i <= |source|
    ensures i <= end <= |source| && (end < |source| ==> !IsNamePart(source[end]))
            && forall k :: i <= k < end ==> IsNamePart(source[k])
    decreases |source| - i
  {
    if i < |source| && IsNamePart(source[i]) then NameEnd(source, i + 1) else i
  }

  function DigitsEnd(source: string, i: nat): (end: nat)
    requires i <= |source|
    ensures i <= end <= |source| && (end < |source| ==> !IsDigit(source[end]))
            && forall k :: i <= k < end ==> IsDigit(source[k])
    decreases |source| - i
  {
    if i < |source| && IsDigit(source[i]) then DigitsEnd(source, i + 1) else i
  }

  /** At most `room` hexadecimal digits. */
  function HexEnd(source: string, i: nat, room: nat): (end: nat)
    requires i <= |source|
    ensures i <= end <= |source| && end <= i + room && forall k :: i <= k < end ==> IsHexDigit(source[k])
    ensures end < i + room && end < |source| ==> !IsHexDigit(source[end])
    decreases room
  {
    if room > 0 && i < |source| && IsHexDigit(source[i]) then HexEnd(source, i + 1, room - 1) else i
  }

  function CommentEnd(source: string, i: nat): (end: nat)
    requires i <= |source|
    ensures i <= end <= |source|
    decreases |source| - i
  {
    if i < |source| && source[i] != '\n' then CommentEnd(source, i + 1) else i
  }

  // ---------- strings ----------

  predicate IsScalar(n: nat) {
    n < 0xD800 || 0xE000 <= n < 0x11_0000
  }

  function ScalarOf(n: nat): Result<char> {
    if IsScalar(n) then Ok(n as char) else Err(InvalidEscape)
  }

  /** The character an escape stands for, read from behind the backslash. */
  function EscapeAt(source: string, i: nat): (r: Result<Scanned<char>>)
    requires i <= |source|
    ensures r.Ok? ==> i < r.value.next <= |source|
  {
    if i == |source| then Err(InvalidEscape) else
    match source[i]
    case '"' => Ok(Scanned('"', i + 1))
    case '\\' => Ok(Scanned('\\', i + 1))
    case 'n' => Ok(Scanned('\n', i + 1))
    case 'r' => Ok(Scanned('\r', i + 1))
    case 't' => Ok(Scanned('\t', i + 1))
    case '0' => Ok(Scanned('\0', i + 1))
    case 'u' => UnicodeAt(source, i + 1)
    case _ => Err(InvalidEscape)
  }

  /** `{1 to 6 hexadecimal digits}` or exactly four. */
  function UnicodeAt(source: string, i: nat): (r: Result<Scanned<char>>)
    requires i <= |source|
    ensures r.Ok? ==> i < r.value.next <= |source|
  {
    if Sees(source, i, '{') then
      var end := HexEnd(source, i + 1, 6);
      if end == i + 1 || !Sees(source, end, '}') then Err(InvalidEscape) else
      var c :- ScalarOf(HexValue(source[i + 1..end]));
      Ok(Scanned(c, end + 1))
    else
      var end := HexEnd(source, i, 4);
      if end < i + 4 then Err(InvalidEscape) else
      var c :- ScalarOf(HexValue(source[i..end]));
      Ok(Scanned(c, end))
  }

  /** `string`, with `output` already read. */
  function StringFrom(source: string, i: nat, output: string, max: nat): (r: Result<Scanned<string>>)
    requires i <= |source| && Utf8Len(output) <= max
    ensures r.Ok? ==> i < r.value.next <= |source| && source[r.value.next - 1] == '"' && Utf8Len(r.value.value) <= max
    ensures r.Ok? ==> output <= r.value.value && |r.value.value| - |output| < r.value.next - i
    decreases |source| - i
  {
    if i == |source| then Err(UnterminatedString)
    else if source[i] == '"' then Ok(Scanned(output, i + 1))
    else
      var c :-
        if source[i] == '\\' then EscapeAt(source, i + 1)
        else if IsControl(source[i]) then Err(InvalidString)
        else Ok(Scanned(source[i], i + 1));
      if Utf8Len(output + [c.value]) > max then Err(StringLimit)
      else StringFrom(source, c.next, output + [c.value], max)
  }

  // ---------- tokens ----------

  /** A one-character token that may be followed by `second` to make another. */
  function OneOrTwo(source: string, i: nat, second: char, two: Token, one: Token): Result<Scanned<Token>> {
    if Sees(source, i + 1, second) then Ok(Scanned(two, i + 2)) else Ok(Scanned(one, i + 1))
  }

  function IntegerAt(source: string, i: nat): (r: Result<Scanned<Token>>)
    requires i < |source| && IsDigit(source[i])
    ensures r.Ok? ==> i < r.value.next <= |source| && r.value.value.IntegerToken?
  {
    var end := DigitsEnd(source, i + 1);
    var n := NumberOf(source[i..end]);
    if n > I64_MAX then Err(IntegerOverflow) else Ok(Scanned(IntegerToken(n), end))
  }

  function Symbol(source: string, i: nat): (r: Result<Scanned<Token>>)
    requires i < |source|
    ensures r.Ok? ==> i < r.value.next <= |source| && !r.value.value.StringToken? && !r.value.value.Eof?
  {
    match source[i]
    case '(' => Ok(Scanned(LParen, i + 1))
    case ')' => Ok(Scanned(RParen, i + 1))
    case '{' => Ok(Scanned(LBrace, i + 1))
    case '}' => Ok(Scanned(RBrace, i + 1))
    case ';' => Ok(Scanned(Semicolon, i + 1))
    case ',' => Ok(Scanned(Comma, i + 1))
    case '.' => Ok(Scanned(Dot, i + 1))
    case '+' =>
      if Sees(source, i + 1, '+') then Ok(Scanned(PlusPlus, i + 2)) else OneOrTwo(source, i, '=', PlusEqual, Plus)
    case '-' =>
      if Sees(source, i + 1, '-') then Ok(Scanned(MinusMinus, i + 2)) else OneOrTwo(source, i, '=', MinusEqual, Minus)
    case '*' => OneOrTwo(source, i, '=', StarEqual, Star)
    case '/' => OneOrTwo(source, i, '=', SlashEqual, Slash)
    case '%' => OneOrTwo(source, i, '=', PercentEqual, Percent)
    case '!' => OneOrTwo(source, i, '=', BangEqual, Bang)
    case '=' => OneOrTwo(source, i, '=', EqualEqual, EqualSign)
    case '<' => OneOrTwo(source, i, '=', LessEqualSign, LessSign)
    case '>' => OneOrTwo(source, i, '=', GreaterEqualSign, GreaterSign)
    case '&' => if Sees(source, i + 1, '&') then Ok(Scanned(AndAnd, i + 2)) else Err(UnexpectedCharacter)
    case '|' => if Sees(source, i + 1, '|') then Ok(Scanned(OrOr, i + 2)) else Err(UnexpectedCharacter)
    case _ => Err(UnexpectedCharacter)
  }

  function TokenAt(source: string, i: nat, max: nat): (r: Result<Scanned<Token>>)
    requires i < |source|
    ensures r.Ok? ==> i < r.value.next <= |source| && !r.value.value.Eof?
    ensures r.Ok? && r.value.value.StringToken? ==> Utf8Len(r.value.value.text) <= max
  {
    var c := source[i];
    if c == '"' then
      var text :- StringFrom(source, i + 1, "", max);
      Ok(Scanned(StringToken(text.value), text.next))
    else if IsDigit(c) then IntegerAt(source, i)
    else if IsNameStart(c) then Ok(Scanned(Ident(source[i..NameEnd(source, i + 1)]), NameEnd(source, i + 1)))
    else Symbol(source, i)
  }

  predicate StartsComment(source: string, i: nat) {
    Sees(source, i, '/') && Sees(source, i + 1, '/')
  }

  /** `tokens` from offset `i`. */
  function TokensFrom(source: string, i: nat, max: nat): (r: Result<seq<Token>>)
    requires i <= |source|
    ensures r.Ok? ==> Terminated(r.value) && forall k :: 0 <= k < |r.value| - 1 ==> r.value[k] != Eof
    ensures r.Ok? ==> |r.value| <= |source| - i + 1
    decreases |source| - i
  {
    if i == |source| then Ok([Eof])
    else if IsSpace(source[i]) then TokensFrom(source, i + 1, max)
    else if StartsComment(source, i) then TokensFrom(source, CommentEnd(source, i + 2), max)
    else
      var token :- TokenAt(source, i, max);
      var rest :- TokensFrom(source, token.next, max);
      Ok([token.value] + rest)
  }

  function Tokens(source: string, limits: Limits): (r: Result<seq<Token>>)
    ensures r.Ok? ==> Terminated(r.value)
  {
    if Utf8Len(source) > limits.maxSourceBytes then Err(SourceLimit) else TokensFrom(source, 0, limits.maxStringBytes)
  }

  function ParseSource(source: string, limits: Limits): Result<seq<Statement>> {
    var tokens :- Tokens(source, limits);
    ParseProgram(tokens, limits.maxNesting)
  }
}
