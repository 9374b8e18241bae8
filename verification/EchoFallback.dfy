/** What the completion matcher may see while a configured echo is incomplete
    (crates/serial-mcp/src/capture.rs). */
module EchoFallback {
  import opened EditDistance
  import opened EchoMatch

  // ---------- logical lines ----------

  /** Where the logical line from `start` ends, behind its line ending; CR CR LF is a wrap inside it. */
  function LineEnd(actual: seq<byte>, start: nat): (end: nat)
    requires start <= |actual|
    ensures start <= end <= |actual| && (start < |actual| ==> start < end)
    decreases |actual| - start
  {
    if start == |actual| then start
    else if StartsAt(actual, start, [CR, CR, LF]) then LineEnd(actual, start + 3)
    else if StartsAt(actual, start, [CR, LF]) then start + 2
    else if actual[start] == CR || actual[start] == LF then start + 1
    else LineEnd(actual, start + 1)
  }

  /** The line's text with its wraps and its line ending erased. */
  function LineText(actual: seq<byte>, start: nat): (text: seq<byte>)
    requires start <= |actual|
    ensures CR !in text && LF !in text
    decreases |actual| - start
  {
    if start == |actual| then []
    else if StartsAt(actual, start, [CR, CR, LF]) then LineText(actual, start + 3)
    else if StartsAt(actual, start, [CR, LF]) || actual[start] == CR || actual[start] == LF then []
    else [actual[start]] + LineText(actual, start + 1)
  }

  /** `logical_echo_line`. */
  method LogicalEchoLine(actual: seq<byte>, start: nat) returns (line: seq<byte>, end: nat)
    requires start <= |actual|
    ensures line == LineText(actual, start) && end == LineEnd(actual, start)
  {
    line := [];
    var index := start;
    while index < |actual|
      invariant start <= index <= |actual|
      invariant line + LineText(actual, index) == LineText(actual, start)
      invariant LineEnd(actual, index) == LineEnd(actual, start)
      decreases |actual| - index
    {
      if StartsAt(actual, index, [CR, CR, LF]) {
        index := index + 3;
      } else if StartsAt(actual, index, [CR, LF]) {
        return line, index + 2;
      } else if actual[index] == CR || actual[index] == LF {
        return line, index + 1;
      } else {
        assert line + ([actual[index]] + LineText(actual, index + 1)) ==
                 (line + [actual[index]]) + LineText(actual, index + 1);
        line := line + [actual[index]];
        index := index + 1;
      }
    }
    return line, |actual|;
  }

  /** A line on which no CR or LF stands ends with the output. */
  lemma {:induction false} PlainLine(actual: seq<byte>, start: nat)
    requires start <= |actual| && CR !in actual[start..] && LF !in actual[start..]
    ensures LineText(actual, start) == actual[start..] && LineEnd(actual, start) == |actual|
    decreases |actual| - start
  {
    if start < |actual| {
      assert actual[start..][0] == actual[start] && actual[start..] == [actual[start]] + actual[start + 1..];
      if StartsAt(actual, start, [CR, CR, LF]) {
        StartsWith(actual, start, [CR, CR, LF], 0);
      } else if StartsAt(actual, start, [CR, LF]) {
        StartsWith(actual, start, [CR, LF], 0);
      }
      PlainLine(actual, start + 1);
    }
  }

  /** The start of the logical line that holds `s`, going from line to line. */
  function LineOf(actual: seq<byte>, from: nat, s: nat): (line: nat)
    requires from <= s < |actual|
    ensures from <= line <= s < LineEnd(actual, line)
    decreases |actual| - from
  {
    if s < LineEnd(actual, from) then from else LineOf(actual, LineEnd(actual, from), s)
  }

  // ---------- a damaged echo ----------

  predicate IsBoundary(b: byte) {
    b == ' ' as int || b == '\t' as int || b == '#' as int || b == '$' as int || b == '>' as int || b == ':' as int
    || b == ']' as int
  }

  function MaxEdits(expected: seq<byte>): nat {
    if |expected| / 4 < 1 then 1 else Min(|expected| / 4, 16)
  }

  /** Identical, a part, or within a bounded number of edits for commands of more than four bytes. */
  ghost predicate Damaged(candidate: seq<byte>, expected: seq<byte>) {
    || candidate <= expected || expected <= candidate
    || (|expected| > 4 && WithinEdits(candidate[..Min(|candidate|, |expected|)], expected, MaxEdits(expected)))
  }

  /** `looks_like_damaged_echo`. */
  method LooksLikeDamagedEcho(candidate: seq<byte>, expected: seq<byte>) returns (r: bool)
    ensures r <==> Damaged(candidate, expected)
  {
    hide WithinEdits;
    if candidate <= expected || expected <= candidate { return true; }
    if |expected| <= 4 { return false; }
    var short := if |candidate| > |expected| then candidate[..|expected|] else candidate;
    assert short == candidate[..Min(|candidate|, |expected|)];
    r := EditDistanceWithin(short, expected, MaxEdits(expected));
  }

  // ---------- which positions are looked at ----------

  predicate Candidate(actual: seq<byte>, expected: seq<byte>, line: nat, s: nat)
    requires line <= s < |actual| && expected != []
  {
    (s == line || IsBoundary(actual[s - 1]) || actual[s] == expected[0]) && LineText(actual, s) != []
  }

  function CandidatesBefore(actual: seq<byte>, expected: seq<byte>, line: nat, s: nat): nat
    requires line <= s <= |actual| && expected != []
  {
    if s == line then 0
    else CandidatesBefore(actual, expected, line, s - 1) + if Candidate(actual, expected, line, s - 1) then 1 else 0
  }

  /** At most 128 candidates of each logical line are looked at. */
  predicate Examined(actual: seq<byte>, expected: seq<byte>, s: nat)
    requires s < |actual| && expected != []
  {
    var line := LineOf(actual, 0, s);
    Candidate(actual, expected, line, s) && CandidatesBefore(actual, expected, line, s) < 128
  }

  ghost predicate DamagedAt(actual: seq<byte>, expected: seq<byte>, s: nat)
    requires s < |actual| && expected != []
  {
    Examined(actual, expected, s) && Damaged(LineText(actual, s), expected)
  }

  /** The command without its line ending. */
  function Bare(expected: seq<byte>): (bare: seq<byte>)
    ensures bare <= expected
  {
    var n := |expected|;
    if n >= 2 && expected[n - 2..] == [CR, LF] then expected[..n - 2]
    else if n >= 1 && (expected[n - 1] == CR || expected[n - 1] == LF) then expected[..n - 1]
    else expected
  }

  /** The matcher's view: everything, unless some examined line part is a damaged echo; then what
      follows the logical line of the first such part. */
  ghost predicate FallbackView(actual: seq<byte>, expected: seq<byte>, view: seq<byte>) {
    var bare := Bare(expected);
    if actual == [] || bare == [] then view == actual
    else
      || (view == actual && forall s: nat | s < |actual| :: !DamagedAt(actual, bare, s))
      || (exists s: nat :: s < |actual| && DamagedAt(actual, bare, s) && view == actual[LineEnd(actual, s)..]
                           && forall earlier: nat | earlier < s :: !DamagedAt(actual, bare, earlier))
  }

  lemma {:induction false} NextLine(actual: seq<byte>, from: nat, line: nat, s: nat)
    requires from <= line <= s < |actual| && LineOf(actual, from, line) == line
    ensures LineOf(actual, from, s) == LineOf(actual, line, s)
    decreases |actual| - from
  {
    if from < line {
      assert line >= LineEnd(actual, from);
      NextLine(actual, LineEnd(actual, from), line, s);
    }
  }

  lemma {:induction false} LineFollows(actual: seq<byte>, from: nat, line: nat)
    requires from <= line < |actual| && LineOf(actual, from, line) == line && LineEnd(actual, line) < |actual|
    ensures LineOf(actual, from, LineEnd(actual, line)) == LineEnd(actual, line)
    decreases |actual| - from
  {
    if from < line { LineFollows(actual, LineEnd(actual, from), line); }
  }

  /** `fallback_after_incomplete_echo`. */
  method FallbackAfterIncompleteEcho(actual: seq<byte>, expected: seq<byte>) returns (view: seq<byte>)
    ensures FallbackView(actual, expected, view)
  {
    hide Damaged, LineOf, LineEnd, LineText, Candidate, CandidatesBefore;
    var bare := Bare(expected);
    if actual == [] || expected == [] || bare == [] { return actual; }
    var lineStart := 0;
    assert LineOf(actual, 0, 0) == 0;
    while lineStart < |actual|
      invariant lineStart <= |actual| && (lineStart < |actual| ==> LineOf(actual, 0, lineStart) == lineStart)
      invariant forall s: nat | s < lineStart :: !DamagedAt(actual, bare, s)
      decreases |actual| - lineStart
    {
      var _, lineEnd := LogicalEchoLine(actual, lineStart);
      var damaged, end := ExamineLine(actual, bare, lineStart, lineEnd);
      if damaged { return actual[end..]; }
      if lineEnd >= |actual| { break; }
      LineFollows(actual, 0, lineStart);
      lineStart := lineEnd;
    }
    return actual;
  }

  /** One pass of the outer loop. */
  method ExamineLine(actual: seq<byte>, expected: seq<byte>, lineStart: nat, lineEnd: nat)
      returns (damaged: bool, end: nat)
    requires expected != [] && lineStart < |actual| && lineEnd == LineEnd(actual, lineStart)
             && LineOf(actual, 0, lineStart) == lineStart
    ensures !damaged ==> forall s: nat | lineStart <= s < lineEnd :: !DamagedAt(actual, expected, s)
    ensures damaged ==>
              exists s: nat ::
                lineStart <= s < lineEnd && DamagedAt(actual, expected, s) && end == LineEnd(actual, s) <= |actual|
                                         && forall earlier: nat | lineStart <= earlier < s ::
                                           !DamagedAt(actual, expected, earlier)
  {
    hide Damaged, LineEnd, LineText, IsBoundary, LineOf, DamagedAt, CandidatesBefore;
    damaged, end := false, 0;
    var candidates := 0;
    var start := lineStart;
    CountUnfolds(actual, expected, lineStart, start);
    while start < lineEnd
      invariant lineStart <= start <= lineEnd && candidates < 128
      invariant candidates == CandidatesBefore(actual, expected, lineStart, start)
      invariant forall s: nat | lineStart <= s < start :: !DamagedAt(actual, expected, s)
    {
      CountUnfolds(actual, expected, lineStart, start);
      DamagedOnLine(actual, expected, lineStart, start);
      var atBoundary := start == lineStart || IsBoundary(actual[start - 1]);
      if atBoundary || actual[start] == expected[0] {
        var candidate, candidateEnd := LogicalEchoLine(actual, start);
        if candidate != [] {
          candidates := candidates + 1;
          var looks := LooksLikeDamagedEcho(candidate, expected);
          if looks { return true, candidateEnd; }
          if candidates >= 128 {
            NoneLater(actual, expected, lineStart, start + 1, lineEnd);
            return;
          }
        }
      }
      start := start + 1;
    }
  }

  lemma CountUnfolds(actual: seq<byte>, expected: seq<byte>, line: nat, s: nat)
    requires line <= s < |actual| && expected != []
    ensures CandidatesBefore(actual, expected, line, line) == 0
    ensures CandidatesBefore(actual, expected, line, s + 1) ==
            CandidatesBefore(actual, expected, line, s) + if Candidate(actual, expected, line, s) then 1 else 0
  {
    hide Candidate;
  }

  lemma DamagedOnLine(actual: seq<byte>, expected: seq<byte>, line: nat, s: nat)
    requires expected != [] && line < |actual| && line <= s < LineEnd(actual, line) && LineOf(actual, 0, line) == line
    ensures DamagedAt(actual, expected, s) <==>
            Candidate(actual, expected, line, s) && CandidatesBefore(actual, expected, line, s) < 128
            && Damaged(LineText(actual, s), expected)
  {
    hide Damaged, LineOf, LineEnd, LineText, Candidate, CandidatesBefore;
    NextLine(actual, 0, line, s);
    LineHere(actual, line, s);
  }

  lemma LineHere(actual: seq<byte>, line: nat, s: nat)
    requires line <= s < |actual| && s < LineEnd(actual, line)
    ensures LineOf(actual, line, s) == line
  {
  }

  lemma {:induction false} NoneLater(actual: seq<byte>, expected: seq<byte>, line: nat, s: nat, end: nat)
    requires expected != [] && line < |actual| && line <= s <= end == LineEnd(actual, line)
             && LineOf(actual, 0, line) == line
    requires CandidatesBefore(actual, expected, line, s) >= 128
    ensures forall later: nat | s <= later < end :: !DamagedAt(actual, expected, later)
    decreases end - s
  {
    hide CandidatesBefore, DamagedAt, LineEnd, LineOf, Candidate, Damaged;
    if s < end {
      CountUnfolds(actual, expected, line, s);
      DamagedOnLine(actual, expected, line, s);
      NoneLater(actual, expected, line, s + 1, end);
    }
  }

  /** The view never contains anything but the end of the pending bytes. */
  lemma ViewIsSuffix(actual: seq<byte>, expected: seq<byte>, view: seq<byte>)
    requires FallbackView(actual, expected, view)
    ensures |view| <= |actual| && view == actual[|actual| - |view|..]
  {
    hide DamagedAt, LineEnd;
    assert actual[0..] == actual;
  }

  lemma NoTextAtLineFeed(actual: seq<byte>, s: nat)
    requires s < |actual| && actual[s] == LF
    ensures LineText(actual, s) == []
  {
    hide StartsAt;
    if StartsAt(actual, s, [CR, CR, LF]) { StartsWith(actual, s, [CR, CR, LF], 0); }
  }

  lemma NoTextInWrap(actual: seq<byte>, s: nat)
    requires StartsAt(actual, s, [CR, CR, LF])
    ensures s + 2 < |actual| && LineText(actual, s + 1) == [] && LineText(actual, s + 2) == []
  {
    StartsWith(actual, s, [CR, CR, LF], 1);
    StartsWith(actual, s, [CR, CR, LF], 2);
    NoTextAtLineFeed(actual, s + 2);
    if StartsAt(actual, s + 1, [CR, CR, LF]) { StartsWith(actual, s + 1, [CR, CR, LF], 1); }
  }

  /** Where text begins on a line, its line ending is that of the line. */
  lemma {:induction false} OneLineEnd(actual: seq<byte>, line: nat, s: nat)
    requires line <= s < |actual| && s < LineEnd(actual, line) && LineText(actual, s) != []
    ensures LineEnd(actual, s) == LineEnd(actual, line)
    decreases |actual| - line
  {
    hide StartsAt, LineText;
    if line < s {
      if StartsAt(actual, line, [CR, CR, LF]) {
        NoTextInWrap(actual, line);
        OneLineEnd(actual, line + 3, s);
      } else if StartsAt(actual, line, [CR, LF]) {
        StartsWith(actual, line, [CR, LF], 1);
        NoTextAtLineFeed(actual, line + 1);
      } else {
        OneLineEnd(actual, line + 1, s);
      }
    }
  }

  /** A whole or partial echo is withheld with all of its logical line: where the text from an examined
      position begins the command, or begins with it, and nothing before that position looks damaged. */
  lemma EchoedPrefixWithheld(actual: seq<byte>, expected: seq<byte>, view: seq<byte>, s: nat)
    requires FallbackView(actual, expected, view) && s < |actual| && Bare(expected) != []
             && Examined(actual, Bare(expected), s)
    requires LineText(actual, s) <= Bare(expected) || Bare(expected) <= LineText(actual, s)
    requires forall earlier: nat | earlier < s :: !DamagedAt(actual, Bare(expected), earlier)
    ensures view == actual[LineEnd(actual, LineOf(actual, 0, s))..]
  {
    hide LineText, LineEnd, CandidatesBefore, LineOf;
    var bare := Bare(expected);
    assert DamagedAt(actual, bare, s);
    OneLineEnd(actual, LineOf(actual, 0, s), s);
  }

  /** So while the echo is still being received, nothing behind its beginning is shown. */
  lemma UnfinishedEchoWithheld(actual: seq<byte>, expected: seq<byte>, view: seq<byte>, s: nat)
    requires FallbackView(actual, expected, view) && s < |actual| && Bare(expected) != []
             && Examined(actual, Bare(expected), s)
    requires CR !in actual[s..] && LF !in actual[s..] && actual[s..] <= Bare(expected)
    requires forall earlier: nat | earlier < s :: !DamagedAt(actual, Bare(expected), earlier)
    ensures view == []
  {
    hide LineText, LineEnd, CandidatesBefore, LineOf, Examined, DamagedAt, Bare, FallbackView;
    PlainLine(actual, s);
    OneLineEnd(actual, LineOf(actual, 0, s), s);
    EchoedPrefixWithheld(actual, expected, view, s);
  }

  lemma {:induction false} FewCandidates(actual: seq<byte>, expected: seq<byte>, line: nat, s: nat)
    requires line <= s <= |actual| && expected != []
    ensures CandidatesBefore(actual, expected, line, s) <= s - line
  {
    if s > line { FewCandidates(actual, expected, line, s - 1); }
  }

  /** A damaged echo among the first 128 bytes of its line is withheld, with all of the line, wherever what is
      in front of it ends as a prompt does: the view is what follows the line of this or an earlier damaged part. */
  lemma PromptEchoWithheld(actual: seq<byte>, expected: seq<byte>, view: seq<byte>, s: nat)
    requires FallbackView(actual, expected, view) && 0 < s < |actual| && Bare(expected) != []
    requires actual[s - 1] in {32, 9, 35, 36, 62, 58, 93} && s - LineOf(actual, 0, s) < 128
    requires LineText(actual, s) != [] && Damaged(LineText(actual, s), Bare(expected))
    ensures exists first: nat :: first <= s && DamagedAt(actual, Bare(expected), first)
                                 && view == actual[LineEnd(actual, first)..]
  {
    hide LineText, LineEnd, CandidatesBefore, LineOf, Damaged;
    var bare, line := Bare(expected), LineOf(actual, 0, s);
    FewCandidates(actual, bare, line, s);
    assert Candidate(actual, bare, line, s);
    assert DamagedAt(actual, bare, s);
  }

  /** Damage is a bounded number of edits: one is always allowed, and otherwise one in four bytes, at most 16. */
  lemma DamagedExactly(candidate: seq<byte>, expected: seq<byte>)
    requires |expected| > 4 && !(candidate <= expected) && !(expected <= candidate)
    ensures Damaged(candidate, expected) <==>
              exists k: nat :: k <= 16 && (k <= 1 || 4 * k <= |expected|)
                && WithinEdits(if |candidate| > |expected| then candidate[..|expected|] else candidate, expected, k)
  {
    hide WithinEdits;
    var short := if |candidate| > |expected| then candidate[..|expected|] else candidate;
    assert short == candidate[..Min(|candidate|, |expected|)];
    if k: nat :| k <= 16 && (k <= 1 || 4 * k <= |expected|) && WithinEdits(short, expected, k) {
      MoreEdits(short, expected, k, MaxEdits(expected));
    }
  }

  // ---------- what the definitions mean for real output ----------

  /** Parts of a line with the wraps between them. */
  function WithWraps(parts: seq<seq<byte>>): seq<byte> {
    if parts == [] then [] else if |parts| == 1 then parts[0] else parts[0] + [CR, CR, LF] + WithWraps(parts[1..])
  }

  function WithoutWraps(parts: seq<seq<byte>>): seq<byte> {
    if parts == [] then [] else parts[0] + WithoutWraps(parts[1..])
  }

  predicate IsPart(part: seq<byte>) {
    CR !in part && LF !in part
  }

  lemma CharacterStep(actual: seq<byte>, i: nat)
    requires i < |actual| && actual[i] != CR && actual[i] != LF
    ensures LineText(actual, i) == [actual[i]] + LineText(actual, i + 1) && LineEnd(actual, i) == LineEnd(actual, i + 1)
  {
    hide StartsAt;
    if StartsAt(actual, i, [CR, CR, LF]) { StartsWith(actual, i, [CR, CR, LF], 0); }
    if StartsAt(actual, i, [CR, LF]) { StartsWith(actual, i, [CR, LF], 0); }
  }

  lemma {:induction false} PartStep(actual: seq<byte>, i: nat, part: seq<byte>)
    requires StartsAt(actual, i, part) && IsPart(part)
    ensures i + |part| <= |actual| && LineText(actual, i) == part + LineText(actual, i + |part|)
    ensures LineEnd(actual, i) == LineEnd(actual, i + |part|)
    decreases |part|
  {
    hide LineText, LineEnd, StartsAt;
    Inside(actual, i, part);
    if part != [] {
      Rest(actual, i, part, 1);
      assert actual[i] == part[0] && part[0] in part && part == [part[0]] + part[1..];
      CharacterStep(actual, i);
      PartStep(actual, i + 1, part[1..]);
      assert [part[0]] + (part[1..] + LineText(actual, i + |part|)) == part + LineText(actual, i + |part|);
    } else {
      assert [] + LineText(actual, i) == LineText(actual, i);
    }
  }

  lemma WrapStep(actual: seq<byte>, i: nat)
    requires StartsAt(actual, i, [CR, CR, LF])
    ensures i + 3 <= |actual| && LineText(actual, i) == LineText(actual, i + 3)
            && LineEnd(actual, i) == LineEnd(actual, i + 3)
  {
  }

  lemma EndingStep(actual: seq<byte>, i: nat, ending: seq<byte>)
    requires StartsAt(actual, i, ending) && ending in {[LF], [CR, LF]}
    ensures LineText(actual, i) == [] && LineEnd(actual, i) == i + |ending|
  {
    hide StartsAt;
    StartsWith(actual, i, ending, 0);
    Inside(actual, i, ending);
    if StartsAt(actual, i, [CR, CR, LF]) {
      StartsWith(actual, i, [CR, CR, LF], 0);
      StartsWith(actual, i, [CR, CR, LF], 1);
      if |ending| == 2 { StartsWith(actual, i, ending, 1); }
    }
    if |ending| == 1 && StartsAt(actual, i, [CR, LF]) { StartsWith(actual, i, [CR, LF], 0); }
    Rest(actual, i, ending, 0);
    if i == |actual| { assert false; }
  }

  /** A line that the terminal has wrapped any number of times is read as the line it is, up to its line
      ending and with nothing behind it. */
  lemma {:induction false} WrappedLine(actual: seq<byte>, i: nat, parts: seq<seq<byte>>, ending: seq<byte>)
    requires parts != [] && (forall k | 0 <= k < |parts| :: IsPart(parts[k])) && ending in {[LF], [CR, LF]}
    requires StartsAt(actual, i, WithWraps(parts) + ending)
    ensures i <= |actual| && LineText(actual, i) == WithoutWraps(parts)
    ensures LineEnd(actual, i) == i + |WithWraps(parts)| + |ending|
    decreases |parts|
  {
    hide LineText, LineEnd, StartsAt, IsPart, WithWraps, WithoutWraps;
    var part, raw := parts[0], WithWraps(parts) + ending;
    WrapsUnfold(parts, ending);
    Rest(actual, i, raw, |part|);
    PartStep(actual, i, part);
    if |parts| == 1 {
      EndingStep(actual, i + |part|, ending);
    } else {
      var rest := [CR, CR, LF] + (WithWraps(parts[1..]) + ending);
      Rest(actual, i + |part|, rest, 3);
      WrapStep(actual, i + |part|);
      WrappedLine(actual, i + |part| + 3, parts[1..], ending);
    }
  }

  lemma WrapsUnfold(parts: seq<seq<byte>>, ending: seq<byte>)
    requires parts != []
    ensures var (part, raw) := (parts[0], WithWraps(parts) + ending);
            && raw[..|part|] == part
            && (|parts| == 1 ==>
                  raw[|part|..] == ending && |WithWraps(parts)| == |part| && WithoutWraps(parts) == part)
            && (|parts| > 1 ==>
                  var rest := WithWraps(parts[1..]) + ending;
                  && raw[|part|..] == [CR, CR, LF] + rest && ([CR, CR, LF] + rest)[..3] == [CR, CR, LF]
                  && ([CR, CR, LF] + rest)[3..] == rest && WithoutWraps(parts) == part + WithoutWraps(parts[1..])
                  && |WithWraps(parts)| == |part| + 3 + |WithWraps(parts[1..])|)
  {
    hide WithWraps, WithoutWraps;
    var part, wrap, more := parts[0], [CR, CR, LF], WithWraps(parts[1..]);
    WrapsAre(parts);
    if |parts| == 1 {
      Cut(part, ending);
    } else {
      assert part + (wrap + more) + ending == part + (wrap + (more + ending));
      Cut(part, wrap + (more + ending));
      Cut(wrap, more + ending);
    }
  }

  lemma WrapsAre(parts: seq<seq<byte>>)
    requires parts != []
    ensures |parts| == 1 ==> WithWraps(parts) == parts[0] == WithoutWraps(parts)
    ensures |parts| > 1 ==>
              && WithWraps(parts) == parts[0] + ([CR, CR, LF] + WithWraps(parts[1..]))
              && WithoutWraps(parts) == parts[0] + WithoutWraps(parts[1..])
  {
    if |parts| == 1 {
      assert WithoutWraps(parts[1..]) == [];
    } else {
      assert parts[0] + [CR, CR, LF] + WithWraps(parts[1..]) == parts[0] + ([CR, CR, LF] + WithWraps(parts[1..]));
    }
  }

  lemma Cut<T>(a: seq<T>, b: seq<T>)
    ensures (a + b)[..|a|] == a && (a + b)[|a|..] == b && |a + b| == |a| + |b|
  {
  }

  lemma BareByEnd(expected: seq<byte>)
    ensures var n := |expected|;
            Bare(expected) == if n >= 2 && expected[n - 2] == CR && expected[n - 1] == LF then expected[..n - 2]
                              else if n >= 1 && expected[n - 1] in {CR, LF} then expected[..n - 1]
                              else expected
  {
    var n := |expected|;
    if n >= 2 { assert expected[n - 2..] == [expected[n - 2], expected[n - 1]]; }
  }

  /** The command without its line ending, whichever it is sent with. */
  lemma BareIsText(text: seq<byte>, ending: seq<byte>)
    requires IsPart(text) && ending in {[], [LF], [CR], [CR, LF]}
    ensures Bare(text + ending) == text
  {
    hide Bare;
    var n, all := |text|, text + ending;
    BareByEnd(all);
    if n >= 1 { assert text[n - 1] in text; }
    assert all[..n] == text;
    if ending == [] { assert all == text; }
    if ending == [CR, LF] { assert all[n] == CR && all[n + 1] == LF; }
  }

  /** One wrong byte in a command of five bytes or more is still an echo of it. */
  lemma OneWrongByteIsDamaged(expected: seq<byte>, k: nat, b: byte)
    requires |expected| > 4 && k < |expected|
    ensures Damaged(expected[k := b], expected)
  {
    hide WithinEdits;
    var candidate := expected[k := b];
    OneReplaced(candidate, expected, k);
    MoreEdits(candidate, expected, 1, MaxEdits(expected));
    assert candidate[..|expected|] == candidate;
  }

  lemma MoreEdits(left: seq<byte>, right: seq<byte>, few: nat, more: nat)
    requires WithinEdits(left, right, few) && few <= more
    ensures WithinEdits(left, right, more)
  {
  }

  lemma {:induction false} OneReplaced(left: seq<byte>, right: seq<byte>, k: nat)
    requires |left| == |right| && k < |left| && forall j | 0 <= j < |left| && j != k :: left[j] == right[j]
    ensures WithinEdits(left, right, 1)
    decreases |left|
  {
    var script := ReplacingScript(left, right, k);
    assert Turns(script, left, right) && Cost(script) <= 1;
  }

  lemma {:induction false} ReplacingScript(left: seq<byte>, right: seq<byte>, k: nat) returns (script: seq<Edit>)
    requires |left| == |right| && forall j | 0 <= j < |left| && j != k :: left[j] == right[j]
    ensures Turns(script, left, right) && Cost(script) <= if k < |left| then 1 else 0
    decreases |left|
  {
    if left == [] {
      script := [];
    } else {
      var more := ReplacingScript(left[1..], right[1..], if k == 0 then |left| else k - 1);
      script := [if k == 0 then Replace(right[0]) else Keep] + more;
      assert script[1..] == more;
    }
  }
}
