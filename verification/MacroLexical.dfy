/** The lexical grammar as relations on texts, and that the lexer accepts exactly the texts they admit,
    with the tokens they spell (crates/serial-macro/src/syntax.rs). */
module MacroLexical {
  import opened Wrappers
  import opened Numerals
  import opened MacroCore
  import opened MacroParser
  import opened MacroLexer
  import opened MacroRender

  // ---------- the grammar ----------

  /** What may stand between tokens: blanks, tabs, line ends, form feeds, and comments with their line feed. */
  predicate Gap(text: string)
    decreases |text|
  {
    || text == ""
    || (text[0] in {' ', '\t', '\n', '\r', '\U{0C}'} && Gap(text[1..]))
    || (exists n | 2 < n <= |text| :: IsComment(text[..n - 1]) && text[n - 1] == '\n' && Gap(text[n..]))
  }

  predicate IsComment(text: string) {
    |text| >= 2 && text[..2] == "//" && '\n' !in text
  }

  /** The end of a source: a gap, and possibly a comment without a line feed. */
  ghost predicate Blank(text: string) {
    Gap(text) || exists n | 0 <= n <= |text| :: Gap(text[..n]) && IsComment(text[n..])
  }

  predicate InName(c: char) {
    'a' <= c <= 'z' || 'A' <= c <= 'Z' || '0' <= c <= '9' || c == '_'
  }

  predicate NameShaped(text: string) {
    text != "" && !('0' <= text[0] <= '9') && forall i | 0 <= i < |text| :: InName(text[i])
  }

  predicate AllDigits(text: string) {
    text != "" && forall i | 0 <= i < |text| :: '0' <= text[i] <= '9'
  }

  predicate HexIs(c: char, d: int) {
    0 <= d < 16 && (c == "0123456789abcdef"[d] || c == "0123456789ABCDEF"[d])
  }

  /** `text` writes `n` in hexadecimal. */
  predicate Hex(text: string, n: int) {
    if text == "" then n == 0
    else
      var front, c := text[..|text| - 1], text[|text| - 1];
      exists d | 0 <= d < 16 :: HexIs(c, d) && (n - d) % 16 == 0 && Hex(front, (n - d) / 16)
  }

  /** `text` is an escape that stands for `c`. */
  predicate EscapeFor(text: string, c: char) {
    || (text == "\\\"" && c == '"') || (text == "\\\\" && c == '\\')
    || (text == "\\n" && c == '\n') || (text == "\\r" && c == '\r') || (text == "\\t" && c == '\t')
    || (text == "\\0" && c == '\0')
    || (|text| == 6 && text[..2] == "\\u" && Hex(text[2..], c as int))
    || (5 <= |text| <= 10 && text[..3] == "\\u{" && text[|text| - 1] == '}' && Hex(text[3..|text| - 1], c as int))
  }

  /** `body`, between quotes, writes `text`. */
  predicate Quotes(body: string, text: string)
    decreases |body|
  {
    if body == "" then text == ""
    else if body[0] == '\\' then
      text != "" && exists n | 2 <= n <= |body| :: EscapeFor(body[..n], text[0]) && Quotes(body[n..], text[1..])
    else
      && body[0] != '"' && body[0] as int >= 0x20 && !(0x7F <= body[0] as int < 0xA0)
      && text != "" && text[0] == body[0] && Quotes(body[1..], text[1..])
  }

  /** `text` spells `token`. */
  predicate Spells(token: Token, text: string) {
    match token
    case Ident(name) => text == name && NameShaped(name)
    case IntegerToken(n) => AllDigits(text) && NumberOf(text) == n
    case StringToken(value) =>
      |text| >= 2 && text[0] == '"' && text[|text| - 1] == '"' && Quotes(text[1..|text| - 1], value)
    case Eof => false
    case _ => text == SymbolText(token)
  }

  /** What follows a token must not make it a longer one, or a comment. */
  predicate EndsBefore(token: Token, rest: string) {
    rest != "" ==>
      match token
      case Ident(_) => !InName(rest[0])
      case IntegerToken(_) => !('0' <= rest[0] <= '9')
      case Plus => rest[0] !in {'+', '='}
      case Minus => rest[0] !in {'-', '='}
      case Slash => rest[0] !in {'/', '='}
      case Star | Percent | Bang | EqualSign | LessSign | GreaterSign => rest[0] != '='
      case _ => true
  }

  /** A source of these tokens. */
  ghost predicate Written(source: string, tokens: seq<Token>)
    decreases |tokens|
  {
    if tokens == [] then Blank(source)
    else
      exists n, k | 0 <= n <= k <= |source| ::
        Gap(source[..n]) && Spells(tokens[0], source[n..k]) && EndsBefore(tokens[0], source[k..])
        && Written(source[k..], tokens[1..])
  }

  predicate ShortStrings(tokens: seq<Token>, max: nat) {
    forall i | 0 <= i < |tokens| && tokens[i].StringToken? :: Utf8Len(tokens[i].text) <= max
  }

  // ---------- hexadecimal numbers ----------

  lemma HexDigits(c: char, d: int)
    ensures HexIs(c, d) <==> IsHexDigit(c) && HexDigit(c) == d
  {
  }

  predicate AllHex(text: string) {
    forall i | 0 <= i < |text| :: IsHexDigit(text[i])
  }

  lemma {:induction false} HexHasValue(text: string, n: int)
    requires Hex(text, n)
    ensures AllHex(text) && HexValue(text) == n
  {
    hide HexIs, IsHexDigit, HexDigit;
    if text != "" {
      var front, c := text[..|text| - 1], text[|text| - 1];
      var d :| 0 <= d < 16 && HexIs(c, d) && (n - d) % 16 == 0 && Hex(front, (n - d) / 16);
      HexDigits(c, d);
      HexHasValue(front, (n - d) / 16);
      assert forall i | 0 <= i < |front| :: front[i] == text[i];
      assert n == 16 * ((n - d) / 16) + d;
    }
  }

  lemma {:induction false} ValueIsHex(text: string)
    requires AllHex(text)
    ensures Hex(text, HexValue(text))
  {
    hide HexIs, IsHexDigit, HexDigit;
    if text != "" {
      var front, c, n := text[..|text| - 1], text[|text| - 1], HexValue(text);
      assert forall i | 0 <= i < |front| :: front[i] == text[i];
      assert AllHex(front);
      ValueIsHex(front);
      HexDigits(c, HexDigit(c));
      assert n - HexDigit(c) == 16 * HexValue(front);
      SixteenTimes(HexValue(front));
      assert 0 <= HexDigit(c) < 16 by { HexBelow(c); }
    }
  }

  lemma HexBelow(c: char)
    requires IsHexDigit(c)
    ensures HexDigit(c) < 16
  {
  }

  lemma SixteenTimes(n: int)
    ensures 16 * n % 16 == 0 && 16 * n / 16 == n
  {
  }

  // ---------- escapes and strings ----------

  lemma Slice(source: string, i: nat, j: nat, a: nat, b: nat)
    requires i <= j <= |source| && a <= b <= j - i
    ensures source[i..j][a..b] == source[i + a..i + b] && source[i..j][..b] == source[i..i + b]
            && source[i..j][a..] == source[i + a..j]
  {
    var text := source[i..j];
    assert forall k :: 0 <= k < j - i ==> text[k] == source[i + k];
    assert forall k :: 0 <= k < b - a ==> text[a..b][k] == source[i + a..i + b][k];
    assert text[..b] == source[i..i + b];
    assert text[a..] == source[i + a..j];
  }

  /** One character of a string literal, written as `source[i..next]`. */
  lemma StringStep(source: string, i: nat, output: string, max: nat, c: char, next: nat)
    requires i < |source| && Utf8Len(output) <= max && source[i] != '"'
    requires if source[i] == '\\' then EscapeAt(source, i + 1) == Ok(Scanned(c, next))
             else !IsControl(source[i]) && c == source[i] && next == i + 1
    ensures StringFrom(source, i, output, max)
         == if Utf8Len(output + [c]) > max then Err(StringLimit) else StringFrom(source, next, output + [c], max)
  {
    hide EscapeAt, Utf8Len, IsControl;
  }

  lemma StringFails(source: string, i: nat, output: string, max: nat)
    requires i <= |source| && Utf8Len(output) <= max && StringFrom(source, i, output, max).Ok?
    ensures i < |source|
    ensures source[i] == '"' ==> StringFrom(source, i, output, max) == Ok(Scanned(output, i + 1))
    ensures source[i] == '\\' ==> EscapeAt(source, i + 1).Ok?
    ensures source[i] != '"' && source[i] != '\\' ==> !IsControl(source[i])
  {
    hide EscapeAt, Utf8Len, IsControl;
  }

  lemma {:induction false} HexRun(source: string, i: nat, k: nat, room: nat)
    requires i + k <= |source| && k <= room && forall j | i <= j < i + k :: IsHexDigit(source[j])
    requires k == room || i + k == |source| || !IsHexDigit(source[i + k])
    ensures HexEnd(source, i, room) == i + k
    decreases k
  {
    hide IsHexDigit;
    if k > 0 { HexRun(source, i + 1, k - 1, room - 1); }
  }

  lemma EscapeSpelled(source: string, i: nat)
    requires i < |source| && source[i] == '\\' && EscapeAt(source, i + 1).Ok?
    ensures var r := EscapeAt(source, i + 1).value; i + 1 < r.next <= |source| && EscapeFor(source[i..r.next], r.value)
  {
    var r := EscapeAt(source, i + 1).value;
    var text := source[i..r.next];
    assert text[0] == '\\' && text[1] == source[i + 1];
    if source[i + 1] == 'u' { UnicodeSpelled(source, i); }
  }

  lemma UnicodeSpelled(source: string, i: nat)
    requires i + 1 < |source| && source[i] == '\\' && source[i + 1] == 'u' && UnicodeAt(source, i + 2).Ok?
    ensures var r := UnicodeAt(source, i + 2).value; i + 2 < r.next <= |source| && EscapeFor(source[i..r.next], r.value)
  {
    hide Hex, HexValue, IsHexDigit, HexEnd;
    var r := UnicodeAt(source, i + 2).value;
    var text := source[i..r.next];
    if Sees(source, i + 2, '{') {
      var end := HexEnd(source, i + 3, 6);
      ValueIsHex(source[i + 3..end]);
      assert r.next == end + 1;
      Slice(source, i, r.next, 3, |text| - 1);
      Slice(source, i, r.next, 0, 3);
      assert source[i..i + 3] == "\\u{" && text[|text| - 1] == source[end];
    } else {
      ValueIsHex(source[i + 2..i + 6]);
      Slice(source, i, r.next, 0, 2);
      Slice(source, i, r.next, 2, 6);
      assert source[i..i + 2] == "\\u";
    }
  }

  lemma EscapeRecognised(source: string, i: nat, end: nat, c: char)
    requires i <= end <= |source| && EscapeFor(source[i..end], c)
    ensures i + 1 < end && source[i] == '\\' && EscapeAt(source, i + 1) == Ok(Scanned(c, end))
  {
    hide Hex, HexValue, IsHexDigit, HexEnd;
    var text := source[i..end];
    assert |text| >= 2 && text[0] == source[i] && text[1] == source[i + 1];
    if |text| > 2 && text[1] == 'u' {
      assert text[2] == source[i + 2];
      if |text| == 6 && text[..2] == "\\u" && Hex(text[2..], c as int) {
        FourRecognised(source, i, c);
      } else {
        BracesRecognised(source, i, end, c);
      }
    }
  }

  lemma FourRecognised(source: string, i: nat, c: char)
    requires i + 6 <= |source| && source[i..i + 6][..2] == "\\u" && Hex(source[i..i + 6][2..], c as int)
    ensures UnicodeAt(source, i + 2) == Ok(Scanned(c, i + 6))
  {
    hide Hex, HexValue, HexEnd;
    var hex := source[i..i + 6][2..];
    HexHasValue(hex, c as int);
    assert hex == source[i + 2..i + 6];
    assert forall k | 0 <= k < 4 :: hex[k] == source[i + 2 + k];
    forall j | i + 2 <= j < i + 6 ensures IsHexDigit(source[j]) {
      assert source[j] == hex[j - i - 2];
    }
    HexRun(source, i + 2, 4, 4);
    assert !IsHexDigit('{');
  }

  lemma BracesRecognised(source: string, i: nat, end: nat, c: char)
    requires i + 5 <= end <= |source| && end <= i + 10
    requires var text := source[i..end];
             text[..3] == "\\u{" && text[|text| - 1] == '}' && Hex(text[3..|text| - 1], c as int)
    ensures UnicodeAt(source, i + 2) == Ok(Scanned(c, end))
  {
    hide Hex, HexValue, HexEnd;
    var text := source[i..end];
    var hex := text[3..|text| - 1];
    HexHasValue(hex, c as int);
    assert text[..3][2] == text[2] == source[i + 2] && source[end - 1] == '}';
    Slice(source, i, end, 3, |text| - 1);
    assert forall k | 0 <= k < |hex| :: hex[k] == source[i + 3 + k];
    forall j | i + 3 <= j < end - 1 ensures IsHexDigit(source[j]) {
      assert source[j] == hex[j - i - 3];
    }
    assert !IsHexDigit('}');
    HexRun(source, i + 3, |hex|, 6);
  }

  lemma {:induction false} StringSpelled(source: string, i: nat, output: string, max: nat) returns (text: string)
    requires i <= |source| && Utf8Len(output) <= max && StringFrom(source, i, output, max).Ok?
    ensures var r := StringFrom(source, i, output, max).value;
            r.value == output + text && i < r.next <= |source| && source[r.next - 1] == '"'
            && Quotes(source[i..r.next - 1], text)
    decreases |source| - i
  {
    hide EscapeAt, EscapeFor, Utf8Len, StringFrom, Quotes;
    var r := StringFrom(source, i, output, max).value;
    StringFails(source, i, output, max);
    if source[i] == '"' {
      text := "";
      QuotesNothing();
      assert source[i..i] == "" && output + "" == output;
    } else if source[i] == '\\' {
      EscapeSpelled(source, i);
      var e := EscapeAt(source, i + 1).value;
      StringStep(source, i, output, max, e.value, e.next);
      var more := StringSpelled(source, e.next, output + [e.value], max);
      text := [e.value] + more;
      assert output + [e.value] + more == output + text;
      QuotesEscape(source, i, e.next, r.next - 1, e.value, more);
    } else {
      StringStep(source, i, output, max, source[i], i + 1);
      var more := StringSpelled(source, i + 1, output + [source[i]], max);
      text := [source[i]] + more;
      assert output + [source[i]] + more == output + text;
      QuotesPlain(source, i, r.next - 1, more);
    }
  }

  lemma QuotesNothing()
    ensures Quotes("", "")
  {
  }

  lemma QuotesPlain(source: string, i: nat, end: nat, more: string)
    requires i < end <= |source| && source[i] != '"' && source[i] != '\\' && !IsControl(source[i])
    requires Quotes(source[i + 1..end], more)
    ensures Quotes(source[i..end], [source[i]] + more)
  {
    Slice(source, i, end, 1, end - i);
    assert ([source[i]] + more)[1..] == more;
  }

  lemma QuotesEscape(source: string, i: nat, mid: nat, end: nat, c: char, more: string)
    requires i + 1 < mid <= end <= |source| && source[i] == '\\' && EscapeFor(source[i..mid], c)
             && Quotes(source[mid..end], more)
    ensures Quotes(source[i..end], [c] + more)
  {
    hide EscapeFor;
    var body, n := source[i..end], mid - i;
    assert body[..n] == source[i..mid] && body[n..] == source[mid..end] && ([c] + more)[1..] == more;
  }

  lemma QuotesTaken(body: string, text: string) returns (n: nat)
    requires Quotes(body, text) && body != "" && body[0] == '\\'
    ensures 2 <= n <= |body| && text != "" && EscapeFor(body[..n], text[0]) && Quotes(body[n..], text[1..])
  {
    n :| 2 <= n <= |body| && EscapeFor(body[..n], text[0]) && Quotes(body[n..], text[1..]);
  }

  lemma {:induction false} StringRecognised(source: string, i: nat, end: nat, output: string, text: string, max: nat)
    requires i <= end < |source| && source[end] == '"' && Quotes(source[i..end], text) && Utf8Len(output + text) <= max
    ensures Utf8Len(output) <= max && StringFrom(source, i, output, max) == Ok(Scanned(output + text, end + 1))
    decreases end - i
  {
    hide EscapeAt, EscapeFor, Utf8Len, StringFrom, Quotes, IsControl;
    Utf8LenConcat(output, text);
    if i == end {
      QuotesEnd(source[i..end], text);
      assert output + text == output;
      StringCloses(source, i, output, max);
    } else {
      var n := QuotesStep(source[i..end], text);
      Slice(source, i, end, 0, n);
      Slice(source, i, end, n, end - i);
      if source[i] == '\\' { EscapeRecognised(source, i, i + n, text[0]); }
      assert output + text == (output + [text[0]]) + text[1..];
      Utf8LenConcat(output + [text[0]], text[1..]);
      StringRecognised(source, i + n, end, output + [text[0]], text[1..], max);
      StringStep(source, i, output, max, text[0], i + n);
    }
  }

  lemma StringCloses(source: string, i: nat, output: string, max: nat)
    requires i < |source| && source[i] == '"' && Utf8Len(output) <= max
    ensures StringFrom(source, i, output, max) == Ok(Scanned(output, i + 1))
  {
    hide Utf8Len;
  }

  lemma QuotesEnd(body: string, text: string)
    requires Quotes(body, text) && body == ""
    ensures text == ""
  {
  }

  /** The first character of a body and how many characters write it. */
  lemma QuotesStep(body: string, text: string) returns (n: nat)
    requires Quotes(body, text) && body != ""
    ensures 1 <= n <= |body| && text != "" && body[0] != '"' && Quotes(body[n..], text[1..])
    ensures if body[0] == '\\' then EscapeFor(body[..n], text[0])
            else n == 1 && body[0] == text[0] && !IsControl(body[0])
  {
    hide EscapeFor;
    if body[0] == '\\' {
      n := QuotesTaken(body, text);
    } else {
      n := 1;
    }
  }

  // ---------- tokens ----------

  lemma NameCharacters(c: char)
    ensures InName(c) <==> IsNamePart(c)
    ensures IsNameStart(c) <==> InName(c) && !('0' <= c <= '9')
  {
  }

  lemma {:induction false} NameRun(source: string, i: nat, end: nat)
    requires i <= end <= |source| && (forall k | i <= k < end :: InName(source[k]))
             && (end == |source| || !InName(source[end]))
    ensures NameEnd(source, i) == end
    decreases end - i
  {
    hide InName, IsNamePart;
    if i < |source| { NameCharacters(source[i]); }
    if i < end { NameRun(source, i + 1, end); }
  }

  lemma {:induction false} DigitRun(source: string, i: nat, end: nat)
    requires i <= end <= |source| && (forall k | i <= k < end :: IsDigit(source[k]))
             && (end == |source| || !IsDigit(source[end]))
    ensures DigitsEnd(source, i) == end
    decreases end - i
  {
    if i < end { DigitRun(source, i + 1, end); }
  }

  /** A token the lexer reads is spelled by what it read, and could not have been longer. */
  lemma TokenSpelled(source: string, i: nat, max: nat)
    requires i < |source| && !StartsComment(source, i) && TokenAt(source, i, max).Ok?
    ensures var r := TokenAt(source, i, max).value;
            i < r.next <= |source| && Spells(r.value, source[i..r.next]) && EndsBefore(r.value, source[r.next..])
  {
    hide InName, IsNamePart, IsNameStart, Quotes, StringFrom, NameShaped;
    var c := source[i];
    if c == '"' {
      var text := StringSpelled(source, i + 1, "", max);
      var r := TokenAt(source, i, max).value;
      assert "" + text == text;
      Slice(source, i, r.next, 1, r.next - 1 - i);
    } else if IsDigit(c) {
      IntegerSpelled(source, i);
    } else if IsNameStart(c) {
      NameSpelled(source, i);
    } else {
      SymbolSpelled(source, i);
    }
  }

  lemma NameSpelled(source: string, i: nat)
    requires i < |source| && IsNameStart(source[i])
    ensures var end := NameEnd(source, i + 1);
            NameShaped(source[i..end]) && EndsBefore(Ident(source[i..end]), source[end..])
  {
    hide InName, IsNamePart, IsNameStart;
    var end := NameEnd(source, i + 1);
    var text := source[i..end];
    NameCharacters(source[i]);
    forall k | 0 <= k < |text| ensures InName(text[k]) {
      NameCharacters(source[i + k]);
    }
    if end < |source| { NameCharacters(source[end]); }
  }

  lemma IntegerSpelled(source: string, i: nat)
    requires i < |source| && IsDigit(source[i]) && IntegerAt(source, i).Ok?
    ensures var r := IntegerAt(source, i).value;
            Spells(r.value, source[i..r.next]) && EndsBefore(r.value, source[r.next..])
  {
    hide NumberOf;
    var end := DigitsEnd(source, i + 1);
    var text := source[i..end];
    forall k | 0 <= k < |text| ensures IsDigit(text[k]) {
      assert text[k] == source[i + k];
    }
  }

  lemma SymbolSpelled(source: string, i: nat)
    requires i < |source| && !StartsComment(source, i) && Symbol(source, i).Ok?
    ensures var r := Symbol(source, i).value;
            !r.value.Ident? && !r.value.IntegerToken? && Spells(r.value, source[i..r.next])
            && EndsBefore(r.value, source[r.next..])
  {
    var r := Symbol(source, i).value;
    assert source[i..r.next] == SymbolText(r.value);
  }

  /** A spelled token that ends before what follows is the token the lexer reads. */
  lemma TokenRecognised(source: string, i: nat, end: nat, token: Token, max: nat)
    requires i <= end <= |source| && Spells(token, source[i..end]) && EndsBefore(token, source[end..])
    requires token.StringToken? ==> Utf8Len(token.text) <= max
    ensures i < end && !IsSpace(source[i]) && !StartsComment(source, i)
            && TokenAt(source, i, max) == Ok(Scanned(token, end))
  {
    hide InName, IsNamePart, IsNameStart, Quotes, StringFrom, Symbol, SymbolText, NumberOf, Utf8Len;
    var text := source[i..end];
    if token.StringToken? {
      Slice(source, i, end, 1, |text| - 1);
      assert text[0] == source[i] && text[|text| - 1] == source[end - 1];
      assert "" + token.text == token.text;
      StringRecognised(source, i + 1, end - 1, "", token.text, max);
    } else if token.Ident? {
      NameRecognised(source, i, end);
    } else if token.IntegerToken? {
      DigitsRecognised(source, i, end, token.number);
    } else {
      SymbolRecognised(source, i, end, token);
      SymbolIsToken(source, i, max);
    }
  }

  lemma NameRecognised(source: string, i: nat, end: nat)
    requires i <= end <= |source| && NameShaped(source[i..end]) && (end < |source| ==> !InName(source[end]))
    ensures i < end && !IsSpace(source[i]) && !StartsComment(source, i) && source[i] != '"' && !IsDigit(source[i])
    ensures IsNameStart(source[i]) && NameEnd(source, i + 1) == end
  {
    var text := source[i..end];
    assert text[0] == source[i];
    forall k | i <= k < end ensures InName(source[k]) {
      assert source[k] == text[k - i];
    }
    NameRun(source, i + 1, end);
  }

  lemma DigitsRecognised(source: string, i: nat, end: nat, n: i64)
    requires i <= end <= |source| && AllDigits(source[i..end]) && NumberOf(source[i..end]) == n
    requires end < |source| ==> !('0' <= source[end] <= '9')
    ensures i < end && !IsSpace(source[i]) && !StartsComment(source, i) && source[i] != '"' && IsDigit(source[i])
    ensures IntegerAt(source, i) == Ok(Scanned(IntegerToken(n), end))
  {
    hide NumberOf;
    var text := source[i..end];
    assert text[0] == source[i];
    forall k | i <= k < end ensures IsDigit(source[k]) {
      assert source[k] == text[k - i];
    }
    DigitRun(source, i + 1, end);
  }

  lemma SymbolRecognised(source: string, i: nat, end: nat, token: Token)
    requires i <= end <= |source| && !token.Ident? && !token.IntegerToken? && !token.StringToken? && !token.Eof?
    requires source[i..end] == SymbolText(token) && EndsBefore(token, source[end..])
    ensures i < end && !IsSpace(source[i]) && !StartsComment(source, i) && source[i] != '"' && !IsDigit(source[i])
            && !IsNameStart(source[i])
    ensures Symbol(source, i) == Ok(Scanned(token, end))
  {
    var text := SymbolText(token);
    assert text[0] == source[i] && (|text| > 1 ==> text[1] == source[i + 1]);
    if end < |source| { assert source[end..][0] == source[end]; }
  }

  // ---------- gaps ----------

  lemma {:induction false} CommentRun(source: string, i: nat, end: nat)
    requires i <= end <= |source| && (forall k | i <= k < end :: source[k] != '\n')
             && (end == |source| || source[end] == '\n')
    ensures CommentEnd(source, i) == end
    decreases end - i
  {
    if i < end { CommentRun(source, i + 1, end); }
  }

  lemma CommentRecognised(source: string, i: nat, end: nat)
    requires i <= end <= |source| && IsComment(source[i..end]) && (end == |source| || source[end] == '\n')
    ensures StartsComment(source, i) && !IsSpace(source[i]) && CommentEnd(source, i + 2) == end
  {
    var text := source[i..end];
    assert text[..2][0] == source[i] && text[..2][1] == source[i + 1];
    forall k | i + 2 <= k < end ensures source[k] != '\n' {
      assert source[k] == text[k - i];
    }
    CommentRun(source, i + 2, end);
  }

  /** A gap changes nothing, whatever it consists of. */
  lemma {:induction false} GapSkipped(source: string, i: nat, end: nat, max: nat)
    requires i <= end <= |source| && Gap(source[i..end])
    ensures TokensFrom(source, i, max) == TokensFrom(source, end, max)
    decreases end - i
  {
    hide TokensFrom, Gap, IsComment, StartsComment, CommentEnd;
    if i < end {
      var n := GapTaken(source[i..end]);
      Slice(source, i, end, n, end - i);
      if n == 1 {
        WhiteStep(source, i, max);
      } else {
        Slice(source, i, end, 0, n - 1);
        CommentRecognised(source, i, i + n - 1);
        CommentStep(source, i, max);
        WhiteStep(source, i + n - 1, max);
      }
      GapSkipped(source, i + n, end, max);
    }
  }

  /** The first blank or comment of a gap. */
  lemma GapTaken(text: string) returns (n: nat)
    requires Gap(text) && text != ""
    ensures 1 <= n <= |text| && Gap(text[n..])
    ensures n == 1 ==> text[0] in {' ', '\t', '\n', '\r', '\U{0C}'}
    ensures n != 1 ==> n > 2 && IsComment(text[..n - 1]) && text[n - 1] == '\n'
  {
    if text[0] in {' ', '\t', '\n', '\r', '\U{0C}'} && Gap(text[1..]) {
      n := 1;
    } else {
      n :| 2 < n <= |text| && IsComment(text[..n - 1]) && text[n - 1] == '\n' && Gap(text[n..]);
    }
  }

  lemma WhiteStep(source: string, i: nat, max: nat)
    requires i < |source| && source[i] in {' ', '\t', '\n', '\r', '\U{0C}'}
    ensures TokensFrom(source, i, max) == TokensFrom(source, i + 1, max)
  {
    hide TokenAt;
  }

  lemma CommentStep(source: string, i: nat, max: nat)
    requires i < |source| && StartsComment(source, i) && !IsSpace(source[i])
    ensures TokensFrom(source, i, max) == TokensFrom(source, CommentEnd(source, i + 2), max)
  {
    hide TokenAt;
  }

  // ---------- whole sources ----------

  lemma WrittenTaken(source: string, tokens: seq<Token>) returns (n: nat, k: nat)
    requires Written(source, tokens) && tokens != []
    ensures n <= k <= |source| && Gap(source[..n]) && Spells(tokens[0], source[n..k])
            && EndsBefore(tokens[0], source[k..])
    ensures Written(source[k..], tokens[1..])
  {
    n, k :| 0 <= n <= k <= |source| && Gap(source[..n]) && Spells(tokens[0], source[n..k])
            && EndsBefore(tokens[0], source[k..]) && Written(source[k..], tokens[1..]);
  }

  lemma WrittenGiven(source: string, tokens: seq<Token>, n: nat, k: nat)
    requires tokens != [] && n <= k <= |source| && Gap(source[..n]) && Spells(tokens[0], source[n..k])
    requires EndsBefore(tokens[0], source[k..]) && Written(source[k..], tokens[1..])
    ensures Written(source, tokens)
  {
  }

  /** A blank or a comment in front of a gap makes a gap. */
  lemma GapGrows(front: string, gap: string)
    requires Gap(gap)
    requires (|front| == 1 && front[0] in {' ', '\t', '\n', '\r', '\U{0C}'})
             || (|front| > 2 && IsComment(front[..|front| - 1]) && front[|front| - 1] == '\n')
    ensures Gap(front + gap)
  {
    var text, n := front + gap, |front|;
    assert text[..n - 1] == front[..n - 1] && text[n..] == gap && text[n - 1] == front[n - 1];
  }

  lemma WrittenBlank(source: string)
    ensures Written(source, []) <==> Blank(source)
  {
    hide Gap, IsComment;
  }

  lemma {:induction false} WrittenBehind(front: string, source: string, tokens: seq<Token>)
    requires Written(source, tokens)
    requires (|front| == 1 && front[0] in {' ', '\t', '\n', '\r', '\U{0C}'})
             || (|front| > 2 && IsComment(front[..|front| - 1]) && front[|front| - 1] == '\n')
    ensures Written(front + source, tokens)
  {
    hide Gap, IsComment, Spells, EndsBefore, Written;
    var whole, f := front + source, |front|;
    if tokens == [] {
      WrittenBlank(source);
      WrittenBlank(whole);
      BlankBehind(front, source);
    } else {
      var n, k := WrittenTaken(source, tokens);
      GapGrows(front, source[..n]);
      FrontSlices(front, source, n, k);
      WrittenGiven(whole, tokens, f + n, f + k);
    }
  }

  lemma FrontSlices(front: string, source: string, n: nat, k: nat)
    requires n <= k <= |source|
    ensures var (whole, f) := (front + source, |front|);
            && whole[..f + n] == front + source[..n] && whole[f + n..f + k] == source[n..k]
            && whole[f + k..] == source[k..]
  {
    var whole, f := front + source, |front|;
    assert whole[..f + n] == front + source[..n];
    BehindSlice(front, source, n, k);
    BehindSlice(front, source, k, |source|);
    assert whole[f + k..] == whole[f + k..f + |source|] && source[k..] == source[k..|source|];
  }

  lemma BlankBehind(front: string, source: string)
    requires Blank(source)
    requires (|front| == 1 && front[0] in {' ', '\t', '\n', '\r', '\U{0C}'})
             || (|front| > 2 && IsComment(front[..|front| - 1]) && front[|front| - 1] == '\n')
    ensures Blank(front + source)
  {
    hide Gap, IsComment;
    var whole, f := front + source, |front|;
    if Gap(source) {
      GapGrows(front, source);
    } else {
      var n :| 0 <= n <= |source| && Gap(source[..n]) && IsComment(source[n..]);
      GapGrows(front, source[..n]);
      FrontSlices(front, source, n, n);
    }
  }

  /** What the lexer reads is written in the source. */
  lemma {:induction false} LexedIsWritten(source: string, i: nat, max: nat)
    requires i <= |source| && TokensFrom(source, i, max).Ok?
    ensures var ts := TokensFrom(source, i, max).value; Written(source[i..], ts[..|ts| - 1])
    ensures var ts := TokensFrom(source, i, max).value; ShortStrings(ts[..|ts| - 1], max)
    decreases |source| - i
  {
    hide TokenAt, Spells, EndsBefore, Utf8Len, Written, IsComment, StartsComment;
    var ts := TokensFrom(source, i, max).value;
    if i == |source| {
      assert ts[..0] == [] && source[i..] == "";
      NothingWritten();
    } else if IsSpace(source[i]) {
      LexedIsWritten(source, i + 1, max);
      assert source[i..] == [source[i]] + source[i + 1..];
      WrittenBehind([source[i]], source[i + 1..], ts[..|ts| - 1]);
    } else if StartsComment(source, i) {
      CommentIsWritten(source, i, max);
    } else {
      var t := TokenAt(source, i, max).value;
      var rest := TokensFrom(source, t.next, max).value;
      assert ts == [t.value] + rest && ts[..|ts| - 1] == [t.value] + rest[..|rest| - 1];
      TokenSpelled(source, i, max);
      LexedIsWritten(source, t.next, max);
      TokenInFront(source, i, t.next, t.value, rest[..|rest| - 1]);
    }
  }

  lemma NothingWritten()
    ensures Written("", [])
  {
  }

  lemma TokenInFront(source: string, i: nat, next: nat, token: Token, tokens: seq<Token>)
    requires i <= next <= |source| && Spells(token, source[i..next]) && EndsBefore(token, source[next..])
    requires Written(source[next..], tokens)
    ensures Written(source[i..], [token] + tokens)
  {
    hide Spells, EndsBefore, Written;
    Slice(source, i, |source|, 0, next - i);
    Slice(source, i, |source|, next - i, |source| - i);
    assert source[i..] == source[i..|source|] && source[next..] == source[next..|source|];
    assert source[i..][..0] == "" && source[i..][0..next - i] == source[i..next]
           && source[i..][next - i..] == source[next..];
    assert ([token] + tokens)[1..] == tokens;
    WrittenGiven(source[i..], [token] + tokens, 0, next - i);
  }

  lemma {:induction false} CommentIsWritten(source: string, i: nat, max: nat)
    requires i < |source| && !IsSpace(source[i]) && StartsComment(source, i) && TokensFrom(source, i, max).Ok?
    ensures var ts := TokensFrom(source, i, max).value; Written(source[i..], ts[..|ts| - 1])
    ensures var ts := TokensFrom(source, i, max).value; ShortStrings(ts[..|ts| - 1], max)
    decreases |source| - i, 0
  {
    hide TokenAt, Written, TokensFrom, Utf8Len;
    var end := CommentEnd(source, i + 2);
    CommentEnds(source, i + 2);
    CommentStep(source, i, max);
    CommentSpans(source, i, end);
    if end == |source| {
      TokensEnd(source, end, max);
      CommentAlone(source[i..]);
    } else {
      WhiteStep(source, end, max);
      LexedIsWritten(source, end + 1, max);
      var front := source[i..end + 1];
      assert front[..|front| - 1] == source[i..end] && source[i..] == front + source[end + 1..];
      WrittenBehind(front, source[end + 1..],
                    TokensFrom(source, i, max).value[..|TokensFrom(source, i, max).value| - 1]);
    }
  }

  lemma CommentSpans(source: string, i: nat, end: nat)
    requires StartsComment(source, i) && i + 2 <= end <= |source| && forall k | i + 2 <= k < end :: source[k] != '\n'
    ensures IsComment(source[i..end]) && (end == |source| ==> source[i..] == source[i..end])
  {
    Slice(source, i, end, 0, 2);
    assert source[i..i + 2] == "//";
    forall k | 0 <= k < end - i ensures source[i..end][k] != '\n' {
      assert source[i..end][k] == source[i + k];
    }
  }

  lemma CommentAlone(text: string)
    requires IsComment(text)
    ensures Written(text, [])
  {
    assert text[..0] == "" && text[0..] == text;
  }

  lemma {:induction false} CommentEnds(source: string, i: nat)
    requires i <= |source|
    ensures var end := CommentEnd(source, i);
            (forall k | i <= k < end :: source[k] != '\n') && (end == |source| || source[end] == '\n')
    decreases |source| - i
  {
    if i < |source| && source[i] != '\n' { CommentEnds(source, i + 1); }
  }

  /** What is written in a source the lexer reads. */
  lemma {:induction false} WrittenIsLexed(source: string, i: nat, tokens: seq<Token>, max: nat)
    requires i <= |source| && Written(source[i..], tokens) && ShortStrings(tokens, max)
    ensures TokensFrom(source, i, max) == Ok(tokens + [Eof])
    decreases |tokens|
  {
    hide TokenAt, Spells, EndsBefore, Utf8Len, Written, TokensFrom, Gap;
    if tokens == [] {
      BlankIsLexed(source, i, max);
      assert tokens + [Eof] == [Eof];
    } else {
      var n, k := WrittenTaken(source[i..], tokens);
      Slices(source, i, n, k);
      GapSkipped(source, i, i + n, max);
      TokenRecognised(source, i + n, i + k, tokens[0], max);
      TokensStep(source, i + n, max);
      WrittenIsLexed(source, i + k, tokens[1..], max);
      assert tokens + [Eof] == [tokens[0]] + (tokens[1..] + [Eof]);
    }
  }

  lemma Slices(source: string, i: nat, n: nat, k: nat)
    requires i <= |source| && n <= k <= |source| - i
    ensures source[i..][..n] == source[i..i + n] && source[i..][n..k] == source[i + n..i + k]
            && source[i..][k..] == source[i + k..]
  {
    Slice(source, i, |source|, n, k);
    Slice(source, i, |source|, 0, n);
    Slice(source, i, |source|, k, |source| - i);
    assert source[i..] == source[i..|source|];
  }

  lemma BlankIsLexed(source: string, i: nat, max: nat)
    requires i <= |source| && Written(source[i..], [])
    ensures TokensFrom(source, i, max) == Ok([Eof])
  {
    hide TokensFrom, Gap, IsComment;
    var text := source[i..];
    TokensEnd(source, |source|, max);
    if Gap(text) {
      assert source[i..] == source[i..|source|];
      GapSkipped(source, i, |source|, max);
    } else {
      var n :| 0 <= n <= |text| && Gap(text[..n]) && IsComment(text[n..]);
      Slice(source, i, |source|, 0, n);
      Slice(source, i, |source|, n, |text|);
      assert text == source[i..|source|];
      GapSkipped(source, i, i + n, max);
      CommentRecognised(source, i + n, |source|);
      CommentStep(source, i + n, max);
    }
  }

  /** A source is read exactly when it is written by the grammar, and as the tokens it spells. */
  lemma LexerReadsWritten(source: string, tokens: seq<Token>, max: nat)
    ensures TokensFrom(source, 0, max) == Ok(tokens + [Eof]) <==> Written(source, tokens) && ShortStrings(tokens, max)
  {
    hide TokensFrom, Written, Utf8Len;
    assert source[0..] == source;
    if Written(source, tokens) && ShortStrings(tokens, max) { WrittenIsLexed(source, 0, tokens, max); }
    if TokensFrom(source, 0, max) == Ok(tokens + [Eof]) {
      LexedIsWritten(source, 0, max);
      assert (tokens + [Eof])[..|tokens|] == tokens;
    }
  }

  // ---------- what a text in front changes ----------

  function Moved<T>(r: Result<Scanned<T>>, n: nat): Result<Scanned<T>> {
    match r
    case Ok(scanned) => Ok(Scanned(scanned.value, scanned.next + n))
    case Err(code) => Err(code)
  }

  lemma Behind(a: string, b: string, i: nat)
    requires i <= |b|
    ensures |a| + i <= |a + b| && (i < |b| ==> (a + b)[|a| + i] == b[i]) && |a + b| == |a| + |b|
    ensures forall c :: Sees(a + b, |a| + i, c) == Sees(b, i, c)
  {
  }

  lemma BehindSlice(a: string, b: string, i: nat, j: nat)
    requires i <= j <= |b|
    ensures (a + b)[|a| + i..|a| + j] == b[i..j]
  {
    assert forall k :: 0 <= k < j - i ==> (a + b)[|a| + i..|a| + j][k] == b[i..j][k];
  }

  lemma RunsMove(a: string, b: string, i: nat, room: nat)
    requires i <= |b|
    ensures NameEnd(a + b, |a| + i) == |a| + NameEnd(b, i) && DigitsEnd(a + b, |a| + i) == |a| + DigitsEnd(b, i)
    ensures CommentEnd(a + b, |a| + i) == |a| + CommentEnd(b, i)
    ensures HexEnd(a + b, |a| + i, room) == |a| + HexEnd(b, i, room)
  {
    NameMoves(a, b, i);
    DigitsMove(a, b, i);
    CommentMoves(a, b, i);
    HexMoves(a, b, i, room);
  }

  lemma {:induction false} NameMoves(a: string, b: string, i: nat)
    requires i <= |b|
    ensures NameEnd(a + b, |a| + i) == |a| + NameEnd(b, i)
    decreases |b| - i
  {
    hide IsNamePart;
    Behind(a, b, i);
    if i < |b| { NameMoves(a, b, i + 1); }
  }

  lemma {:induction false} DigitsMove(a: string, b: string, i: nat)
    requires i <= |b|
    ensures DigitsEnd(a + b, |a| + i) == |a| + DigitsEnd(b, i)
    decreases |b| - i
  {
    hide IsDigit;
    Behind(a, b, i);
    if i < |b| { DigitsMove(a, b, i + 1); }
  }

  lemma {:induction false} CommentMoves(a: string, b: string, i: nat)
    requires i <= |b|
    ensures CommentEnd(a + b, |a| + i) == |a| + CommentEnd(b, i)
    decreases |b| - i
  {
    Behind(a, b, i);
    if i < |b| { CommentMoves(a, b, i + 1); }
  }

  lemma {:induction false} HexMoves(a: string, b: string, i: nat, room: nat)
    requires i <= |b|
    ensures HexEnd(a + b, |a| + i, room) == |a| + HexEnd(b, i, room)
    decreases room
  {
    hide IsHexDigit;
    Behind(a, b, i);
    if i < |b| && room > 0 { HexMoves(a, b, i + 1, room - 1); }
  }

  lemma UnicodeMoves(a: string, b: string, i: nat)
    requires i <= |b|
    ensures UnicodeAt(a + b, |a| + i) == Moved(UnicodeAt(b, i), |a|)
  {
    hide UnicodeAt;
    if Sees(b, i, '{') { BracedMoves(a, b, i); } else { FourMoves(a, b, i); }
  }

  lemma BracedMoves(a: string, b: string, i: nat)
    requires i <= |b| && Sees(b, i, '{')
    ensures UnicodeAt(a + b, |a| + i) == Moved(UnicodeAt(b, i), |a|)
  {
    hide HexValue, HexEnd, IsHexDigit, Sees, ScalarOf;
    SeesInside(b, i, '{');
    var whole, end := a + b, HexEnd(b, i + 1, 6);
    Behind(a, b, i);
    Behind(a, b, end);
    RunsMove(a, b, i + 1, 6);
    BehindSlice(a, b, i + 1, end);
    assert whole[|a| + (i + 1)..|a| + end] == whole[|a| + i + 1..HexEnd(whole, |a| + i + 1, 6)];
  }

  lemma FourMoves(a: string, b: string, i: nat)
    requires i <= |b| && !Sees(b, i, '{')
    ensures UnicodeAt(a + b, |a| + i) == Moved(UnicodeAt(b, i), |a|)
  {
    hide HexValue, HexEnd, IsHexDigit, Sees, ScalarOf;
    Behind(a, b, i);
    RunsMove(a, b, i, 4);
    BehindSlice(a, b, i, HexEnd(b, i, 4));
  }

  lemma SeesInside(source: string, i: nat, c: char)
    requires Sees(source, i, c)
    ensures i < |source|
  {
  }

  lemma EscapeMoves(a: string, b: string, i: nat)
    requires i <= |b|
    ensures EscapeAt(a + b, |a| + i) == Moved(EscapeAt(b, i), |a|)
  {
    hide UnicodeAt;
    Behind(a, b, i);
    if i < |b| { UnicodeMoves(a, b, i + 1); }
  }

  lemma {:induction false} StringMoves(a: string, b: string, i: nat, output: string, max: nat)
    requires i <= |b| && Utf8Len(output) <= max
    ensures StringFrom(a + b, |a| + i, output, max) == Moved(StringFrom(b, i, output, max), |a|)
    decreases |b| - i
  {
    hide EscapeAt, Utf8Len, IsControl;
    Behind(a, b, i);
    if i < |b| && b[i] != '"' {
      EscapeMoves(a, b, i + 1);
      var c := if b[i] == '\\' then EscapeAt(b, i + 1) else Ok(Scanned(b[i], i + 1));
      if c.Ok? && Utf8Len(output + [c.value.value]) <= max {
        StringMoves(a, b, c.value.next, output + [c.value.value], max);
      }
    }
  }

  lemma TokenMoves(a: string, b: string, i: nat, max: nat)
    requires i < |b|
    ensures TokenAt(a + b, |a| + i, max) == Moved(TokenAt(b, i, max), |a|)
    ensures IsSpace((a + b)[|a| + i]) == IsSpace(b[i]) && StartsComment(a + b, |a| + i) == StartsComment(b, i)
  {
    hide StringFrom, IntegerAt, IsNameStart, IsNamePart, NameEnd, Symbol, Sees, IsSpace;
    Behind(a, b, i);
    Behind(a, b, i + 1);
    if b[i] == '"' {
      StringMoves(a, b, i + 1, "", max);
    } else if IsDigit(b[i]) {
      IntegerMoves(a, b, i);
    } else {
      NameMoves(a, b, i + 1);
      BehindSlice(a, b, i, NameEnd(b, i + 1));
      SymbolMoves(a, b, i);
    }
  }

  lemma IntegerMoves(a: string, b: string, i: nat)
    requires i < |b| && IsDigit(b[i])
    ensures IntegerAt(a + b, |a| + i) == Moved(IntegerAt(b, i), |a|)
  {
    hide IsNameStart, IsNamePart, DigitsEnd, NumberOf;
    Behind(a, b, i);
    DigitsMove(a, b, i + 1);
    Behind(a, b, DigitsEnd(b, i + 1));
    BehindSlice(a, b, i, DigitsEnd(b, i + 1));
  }

  lemma SymbolMoves(a: string, b: string, i: nat)
    requires i < |b|
    ensures Symbol(a + b, |a| + i) == Moved(Symbol(b, i), |a|)
  {
    hide Sees, Symbol;
    Behind(a, b, i);
    Behind(a, b, i + 1);
    SameSymbol(a + b, |a| + i, b, i);
  }

  /** A symbol is told from two characters. */
  lemma SameSymbol(s: string, i: nat, t: string, j: nat)
    requires j <= i < |s| && j < |t| && s[i] == t[j]
    requires Sees(s, i + 1, '=') == Sees(t, j + 1, '=')
    requires Sees(s, i + 1, '+') == Sees(t, j + 1, '+') && Sees(s, i + 1, '-') == Sees(t, j + 1, '-')
    requires Sees(s, i + 1, '&') == Sees(t, j + 1, '&') && Sees(s, i + 1, '|') == Sees(t, j + 1, '|')
    ensures Symbol(s, i) == Moved(Symbol(t, j), i - j)
  {
    hide Sees, OneOrTwo;
    forall second, two, one | Sees(s, i + 1, second) == Sees(t, j + 1, second)
      ensures OneOrTwo(s, i, second, two, one) == Moved(OneOrTwo(t, j, second, two, one), i - j)
    {
      SameLength(s, i, t, j, second, two, one);
    }
  }

  lemma SameLength(s: string, i: nat, t: string, j: nat, second: char, two: Token, one: Token)
    requires j <= i && Sees(s, i + 1, second) == Sees(t, j + 1, second)
    ensures OneOrTwo(s, i, second, two, one) == Moved(OneOrTwo(t, j, second, two, one), i - j)
  {
    hide Sees;
  }

  lemma {:induction false} TokensMove(a: string, b: string, i: nat, max: nat)
    requires i <= |b|
    ensures TokensFrom(a + b, |a| + i, max) == TokensFrom(b, i, max)
    decreases |b| - i
  {
    hide TokenAt, StartsComment, TokensFrom;
    var whole, at := a + b, |a| + i;
    if i == |b| {
      TokensEnd(b, i, max);
      TokensEnd(whole, at, max);
    } else {
      TokenMoves(a, b, i, max);
      if IsSpace(b[i]) {
        WhiteStep(b, i, max);
        WhiteStep(whole, at, max);
        TokensMove(a, b, i + 1, max);
      } else if StartsComment(b, i) {
        CommentTwo(b, i);
        CommentMoves(a, b, i + 2);
        CommentStep(b, i, max);
        CommentStep(whole, at, max);
        TokensMove(a, b, CommentEnd(b, i + 2), max);
      } else {
        if TokenAt(b, i, max).Ok? {
          TokensStep(b, i, max);
          TokensStep(whole, at, max);
          TokensMove(a, b, TokenAt(b, i, max).value.next, max);
        } else {
          TokenFails(b, i, max);
          TokenFails(whole, at, max);
        }
      }
    }
  }

  lemma TokenFails(source: string, i: nat, max: nat)
    requires i < |source| && !IsSpace(source[i]) && !StartsComment(source, i) && TokenAt(source, i, max).Err?
    ensures TokensFrom(source, i, max) == Err(TokenAt(source, i, max).code)
  {
    hide TokenAt, IsSpace, StartsComment;
  }

  lemma CommentTwo(source: string, i: nat)
    requires StartsComment(source, i)
    ensures i + 2 <= |source|
  {
  }

  /** Blanks and comments in front of a source change nothing: not its tokens, nor the error it has. */
  lemma GapInFront(gap: string, rest: string, max: nat)
    requires Gap(gap)
    ensures TokensFrom(gap + rest, 0, max) == TokensFrom(rest, 0, max)
  {
    hide TokensFrom, Gap;
    assert (gap + rest)[0..|gap|] == gap;
    GapSkipped(gap + rest, 0, |gap|, max);
    TokensMove(gap, rest, 0, max);
  }

  lemma CommentInFront(text: string, rest: string, max: nat)
    requires '\n' !in text
    ensures TokensFrom("//" + text + "\n" + rest, 0, max) == TokensFrom(rest, 0, max)
  {
    hide TokensFrom;
    var gap := "//" + text + "\n";
    assert gap[..|gap| - 1] == "//" + text && gap[|gap|..] == "";
    assert ("//" + text)[..2] == "//";
    assert Gap("");
    GapGrows(gap, "");
    assert gap + "" == gap;
    GapInFront(gap, rest, max);
  }
}
