/** Recognising a command's echo in raw terminal output (crates/serial-mcp/src/capture.rs): where a
    complete echo ends, and what may be shown to the completion matcher while it is incomplete. */
module EchoMatch {
  import opened EditDistance

  const CR: byte := 13
  const LF: byte := 10
  const MIN_PLAIN_CRLF_HARD_WRAP_COLUMN: nat := 32

  import opened Wrappers

  /** Raw offset just behind the echo; whether a plain CRLF was taken for a wrap. */
  datatype EchoMatch = EchoMatch(end: nat, ambiguousPlainCrlfWrap: bool)

  predicate StartsAt(actual: seq<byte>, i: nat, prefix: seq<byte>) {
    i + |prefix| <= |actual| && actual[i..i + |prefix|] == prefix
  }

  lemma StartsWith(actual: seq<byte>, i: nat, prefix: seq<byte>, k: nat)
    requires StartsAt(actual, i, prefix) && k < |prefix|
    ensures actual[i + k] == prefix[k]
  {
    assert actual[i..i + |prefix|][k] == actual[i + k];
  }

  // ---------- what an echo is ----------

  /** A piece of raw output that an echo may consist of. */
  datatype Piece =
    | Same(b: byte)      // a byte of the command
    | AddedCr            // the CR a terminal puts before a transmitted LF
    | PlainWrap          // CR LF put in at the terminal's width
    | DistinctWrap       // CR CR LF put in at the terminal's width
  {
    function Raw(): (r: seq<byte>)
      ensures |r| > 0
    {
      match this
      case Same(b) => [b]
      case AddedCr => [CR]
      case PlainWrap => [CR, LF]
      case DistinctWrap => [CR, CR, LF]
    }

    /** What is left when the terminal's additions are erased. */
    function Logical(): seq<byte> {
      if Same? then [b] else []
    }
  }

  function RawAll(pieces: seq<Piece>): seq<byte> {
    if pieces == [] then [] else pieces[0].Raw() + RawAll(pieces[1..])
  }

  function LogicalAll(pieces: seq<Piece>): seq<byte> {
    if pieces == [] then [] else pieces[0].Logical() + LogicalAll(pieces[1..])
  }

  /** The start of the physical line that `i` is on. */
  function LineStart(actual: seq<byte>, i: nat): (start: nat)
    requires i <= |actual|
    ensures start <= i
  {
    if i == 0 then 0 else if actual[i - 1] == LF then i else LineStart(actual, i - 1)
  }

  /** Where a piece may stand: raw position `i`, with `matched` bytes of the command already read.
      The terminal adds nothing before the first byte, a wrap never stands where the command has a
      line ending of its own, and a plain CRLF is a wrap only at a terminal's width. */
  predicate Allowed(p: Piece, actual: seq<byte>, i: nat, expected: seq<byte>, matched: nat)
    requires i <= |actual|
  {
    && matched < |expected|
    && StartsAt(actual, i, p.Raw())
    && match p
       case Same(b) => expected[matched] == b
       case AddedCr => matched > 0 && expected[matched] == LF && StartsAt(actual, i, [CR, LF])
       case PlainWrap =>
         matched > 0 && expected[matched] != CR && expected[matched] != LF
         && i - LineStart(actual, i) >= MIN_PLAIN_CRLF_HARD_WRAP_COLUMN
       case DistinctWrap => matched > 0 && expected[matched] != CR && expected[matched] != LF
  }

  /** `pieces` read the rest of the command from raw position `i`. */
  predicate Reads(pieces: seq<Piece>, actual: seq<byte>, i: nat, expected: seq<byte>, matched: nat)
    requires i <= |actual|
    decreases |pieces|
  {
    if pieces == [] then matched == |expected|
    else Allowed(pieces[0], actual, i, expected, matched)
         && Reads(pieces[1..], actual, i + |pieces[0].Raw()|, expected, matched + |pieces[0].Logical()|)
  }

  /** A reading accounts for every raw byte, and erasing the additions leaves the command. */
  lemma {:induction false} ReadingErases(pieces: seq<Piece>, actual: seq<byte>, i: nat, expected: seq<byte>,
                                         matched: nat)
    requires i <= |actual| && matched <= |expected| && Reads(pieces, actual, i, expected, matched)
    ensures StartsAt(actual, i, RawAll(pieces))
    ensures LogicalAll(pieces) == expected[matched..]
    decreases |pieces|
  {
    hide Allowed;
    if pieces == [] {
      assert expected[matched..] == [];
    } else {
      var p := pieces[0];
      var next, read := i + |p.Raw()|, matched + |p.Logical()|;
      AllowedFits(p, actual, i, expected, matched);
      ReadingErases(pieces[1..], actual, next, expected, read);
      Joined(actual, i, p.Raw(), RawAll(pieces[1..]));
    }
  }

  lemma Joined(actual: seq<byte>, i: nat, a: seq<byte>, b: seq<byte>)
    requires StartsAt(actual, i, a) && StartsAt(actual, i + |a|, b)
    ensures StartsAt(actual, i, a + b)
  {
    var end := i + |a| + |b|;
    assert actual[i..end] == actual[i..i + |a|] + actual[i + |a|..end];
  }

  lemma AllowedFits(p: Piece, actual: seq<byte>, i: nat, expected: seq<byte>, matched: nat)
    requires i <= |actual| && Allowed(p, actual, i, expected, matched)
    ensures i < i + |p.Raw()| <= |actual| && matched + |p.Logical()| <= |expected| && StartsAt(actual, i, p.Raw())
    ensures expected[matched..] == p.Logical() + expected[matched + |p.Logical()|..]
  {
  }

  // ---------- a reading is found by going forward ----------

  function Before(p: Piece, rest: Option<seq<Piece>>): Option<seq<Piece>> {
    match rest
    case None => None
    case Some(pieces) => Some([p] + pieces)
  }

  /** The only piece that may stand at `i`, if there is one. */
  function PieceAt(actual: seq<byte>, i: nat, expected: seq<byte>, matched: nat): (p: Option<Piece>)
    requires i <= |actual| && matched < |expected|
    ensures p.Some? ==> Allowed(p.value, actual, i, expected, matched)
  {
    if i == |actual| then None
    else if actual[i] == expected[matched] then Some(Same(actual[i]))
    else if matched == 0 then None
    else if expected[matched] == LF && StartsAt(actual, i, [CR, LF]) then Some(AddedCr)
    else if expected[matched] == CR || expected[matched] == LF then None
    else if StartsAt(actual, i, [CR, CR, LF]) then Some(DistinctWrap)
    else if StartsAt(actual, i, [CR, LF]) && i - LineStart(actual, i) >= MIN_PLAIN_CRLF_HARD_WRAP_COLUMN then
      Some(PlainWrap)
    else None
  }

  lemma OnlyPiece(p: Piece, actual: seq<byte>, i: nat, expected: seq<byte>, matched: nat)
    requires i <= |actual| && Allowed(p, actual, i, expected, matched)
    ensures PieceAt(actual, i, expected, matched) == Some(p)
  {
    StartsWith(actual, i, p.Raw(), 0);
    if p.PlainWrap? {
      if StartsAt(actual, i, [CR, CR, LF]) { StartsWith(actual, i, [CR, CR, LF], 1); }
      StartsWith(actual, i, [CR, LF], 1);
    }
  }

  /** The reading from `i`, piece by piece. */
  function Scan(actual: seq<byte>, i: nat, expected: seq<byte>, matched: nat): Option<seq<Piece>>
    requires i <= |actual| && matched <= |expected|
    decreases |actual| - i
  {
    if matched == |expected| then Some([])
    else match PieceAt(actual, i, expected, matched)
      case None => None
      case Some(p) => Before(p, Scan(actual, i + |p.Raw()|, expected, matched + |p.Logical()|))
  }

  /** There is at most one reading from a position, and scanning finds it. */
  lemma {:induction false} ScanFindsReading(pieces: seq<Piece>, actual: seq<byte>, i: nat, expected: seq<byte>,
                                            matched: nat)
    requires i <= |actual| && matched <= |expected|
    ensures Reads(pieces, actual, i, expected, matched) <==> Scan(actual, i, expected, matched) == Some(pieces)
    decreases |actual| - i
  {
    hide PieceAt, Allowed;
    if matched < |expected| {
      if pieces != [] && Allowed(pieces[0], actual, i, expected, matched) {
        OnlyPiece(pieces[0], actual, i, expected, matched);
      }
      match PieceAt(actual, i, expected, matched)
      case None =>
      case Some(p) =>
        AllowedFits(p, actual, i, expected, matched);
        var next, read := i + |p.Raw()|, matched + |p.Logical()|;
        if pieces != [] { ScanFindsReading(pieces[1..], actual, next, expected, read); }
        if pieces != [] && pieces[0] == p { assert pieces == [p] + pieces[1..]; }
        var rest := Scan(actual, next, expected, read);
        if rest.Some? { assert ([p] + rest.value)[1..] == rest.value; }
    } else if pieces != [] {
      assert !Reads(pieces, actual, i, expected, matched) by { AllowedInside(pieces[0], actual, i, expected, matched); }
    }
  }

  lemma AllowedInside(p: Piece, actual: seq<byte>, i: nat, expected: seq<byte>, matched: nat)
    requires i <= |actual| && matched >= |expected|
    ensures !Allowed(p, actual, i, expected, matched)
  {
  }

  // ---------- where the echo ends ----------

  /** Line-ending bytes that follow a transmitted CR. */
  function Trailing(actual: seq<byte>, i: nat, expected: seq<byte>): (n: nat)
    requires i <= |actual| && expected != []
    ensures i + n <= |actual|
  {
    if expected[|expected| - 1] != CR then 0
    else if StartsAt(actual, i, [CR, LF]) then 2
    else if StartsAt(actual, i, [LF]) then 1
    else 0
  }

  /** A complete echo read by `pieces` from `start`, with the match it makes. */
  predicate EchoAt(pieces: seq<Piece>, actual: seq<byte>, start: nat, expected: seq<byte>, m: EchoMatch) {
    && start <= |actual| && expected != [] && Reads(pieces, actual, start, expected, 0)
    && start + |RawAll(pieces)| <= |actual|
    && m.end == start + |RawAll(pieces)| + Trailing(actual, start + |RawAll(pieces)|, expected)
    && (m.ambiguousPlainCrlfWrap <==> PlainWrap in pieces)
  }

  /** The answer for a command to match: the reading with the earliest start, or none at all. */
  ghost predicate FirstEcho(actual: seq<byte>, expected: seq<byte>, r: Option<EchoMatch>) {
    if expected == [] then r == Some(EchoMatch(0, false))
    else match r
      case None => forall start: nat | start <= |actual| :: Scan(actual, start, expected, 0).None?
      case Some(m) =>
        exists start: nat ::
          && start <= |actual| && Scan(actual, start, expected, 0).Some?
          && EchoAt(Scan(actual, start, expected, 0).value, actual, start, expected, m)
          && forall earlier: nat | earlier < start :: Scan(actual, earlier, expected, 0).None?
  }

  lemma {:induction false} RawAppend(pieces: seq<Piece>, p: Piece)
    ensures RawAll(pieces + [p]) == RawAll(pieces) + p.Raw()
  {
    if pieces == [] {
      assert [] + [p] == [p] && [p][1..] == [];
      assert RawAll([p]) == p.Raw() + RawAll([]);
    } else {
      assert (pieces + [p])[1..] == pieces[1..] + [p];
      RawAppend(pieces[1..], p);
      assert pieces[0].Raw() + (RawAll(pieces[1..]) + p.Raw()) == (pieces[0].Raw() + RawAll(pieces[1..])) + p.Raw();
    }
  }

  function After(done: seq<Piece>, rest: Option<seq<Piece>>): Option<seq<Piece>> {
    match rest
    case None => None
    case Some(pieces) => Some(done + pieces)
  }

  lemma LineStartMoves(actual: seq<byte>, i: nat, p: Piece)
    requires i <= |actual| && StartsAt(actual, i, p.Raw())
    ensures LineStart(actual, i + |p.Raw()|) ==
            if p.PlainWrap? || p.DistinctWrap? || p == Same(LF) then i + |p.Raw()| else LineStart(actual, i)
  {
    var raw := p.Raw();
    assert actual[i..i + |raw|][|raw| - 1] == actual[i + |raw| - 1];
  }

  lemma {:induction false} AfterBefore(done: seq<Piece>, p: Piece, rest: Option<seq<Piece>>)
    ensures After(done, Before(p, rest)) == After(done + [p], rest)
  {
    if rest.Some? { assert done + ([p] + rest.value) == (done + [p]) + rest.value; }
  }

  /** `echoed_hard_wrap`. */
  function EchoedHardWrap(actual: seq<byte>, i: nat): Option<Piece>
    requires i <= |actual|
  {
    if StartsAt(actual, i, [CR, CR, LF]) then Some(DistinctWrap)
    else if StartsAt(actual, i, [CR, LF]) then Some(PlainWrap)
    else None
  }

  /** The loop body of `find_echo_end` for one starting point. */
  method MatchFrom(actual: seq<byte>, start: nat, expected: seq<byte>) returns (r: Option<EchoMatch>)
    requires start < |actual| && expected != []
    ensures r.None? <==> Scan(actual, start, expected, 0).None?
    ensures r.Some? ==> EchoAt(Scan(actual, start, expected, 0).value, actual, start, expected, r.value)
  {
    hide Scan, Reads, LineStart, RawAll, StartsAt, Allowed, After, Trailing;
    var actualIndex, expectedIndex := start, 0;
    var physicalLineStart := LineStart(actual, start);
    var ambiguous := false;
    ghost var done: seq<Piece> := [];
    assert After([], Scan(actual, start, expected, 0)) == Scan(actual, start, expected, 0) by {
      AfterNothing(Scan(actual, start, expected, 0));
    }
    assert RawAll([]) == [] by { NothingRaw(); }
    while expectedIndex < |expected|
      invariant start <= actualIndex <= |actual| && expectedIndex <= |expected|
      invariant physicalLineStart == LineStart(actual, actualIndex)
      invariant After(done, Scan(actual, actualIndex, expected, expectedIndex)) == Scan(actual, start, expected, 0)
      invariant actualIndex == start + |RawAll(done)| && (ambiguous <==> PlainWrap in done)
      decreases |actual| - actualIndex
    {
      ghost var here, p := actualIndex, PieceAt(actual, actualIndex, expected, expectedIndex);
      if p.None? {
        Stuck(done, actual, here, expected, expectedIndex);
      } else {
        PieceTaken(done, p.value, actual, here, expected, expectedIndex);
      }
      if actualIndex >= |actual| { return None; }
      if actual[actualIndex] == expected[expectedIndex] {
        var matched := actual[actualIndex];
        actualIndex, expectedIndex := actualIndex + 1, expectedIndex + 1;
        if matched == LF { physicalLineStart := actualIndex; }
      } else if expectedIndex > 0 && expected[expectedIndex] == LF && StartsAt(actual, actualIndex, [CR, LF]) {
        actualIndex := actualIndex + 1;
      } else if expectedIndex > 0 && expected[expectedIndex] != CR && expected[expectedIndex] != LF
      && EchoedHardWrap(actual, actualIndex).Some? {
        var wrap := EchoedHardWrap(actual, actualIndex).value;
        if wrap == PlainWrap && actualIndex - physicalLineStart < MIN_PLAIN_CRLF_HARD_WRAP_COLUMN { return None; }
        ambiguous := ambiguous || wrap == PlainWrap;
        actualIndex := actualIndex + |wrap.Raw()|;
        physicalLineStart := actualIndex;
      } else {
        return None;
      }
      done := done + [p.value];
    }
    Finished(done, actual, actualIndex, expected);
    ScanFindsReading(done, actual, start, expected, 0);
    actualIndex := SkipLineEnding(actual, actualIndex, expected);
    return Some(EchoMatch(actualIndex, ambiguous));
  }

  method SkipLineEnding(actual: seq<byte>, index: nat, expected: seq<byte>) returns (end: nat)
    requires index <= |actual| && expected != []
    ensures end == index + Trailing(actual, index, expected)
  {
    end := index;
    if expected[|expected| - 1] == CR {
      if StartsAt(actual, index, [CR, LF]) {
        end := index + 2;
      } else if StartsAt(actual, index, [LF]) {
        end := index + 1;
      }
    }
  }

  lemma Stuck(done: seq<Piece>, actual: seq<byte>, i: nat, expected: seq<byte>, matched: nat)
    requires i <= |actual| && matched < |expected| && PieceAt(actual, i, expected, matched).None?
    ensures After(done, Scan(actual, i, expected, matched)).None?
  {
    hide PieceAt;
  }

  lemma Finished(done: seq<Piece>, actual: seq<byte>, i: nat, expected: seq<byte>)
    requires i <= |actual|
    ensures After(done, Scan(actual, i, expected, |expected|)) == Some(done)
  {
    assert done + [] == done;
  }

  /** One turn of the loop of `find_echo_end`. */
  lemma PieceTaken(done: seq<Piece>, p: Piece, actual: seq<byte>, i: nat, expected: seq<byte>, matched: nat)
    requires i <= |actual| && matched < |expected| && PieceAt(actual, i, expected, matched) == Some(p)
    ensures var next, read := i + |p.Raw()|, matched + |p.Logical()|;
            && next <= |actual| && read <= |expected|
            && LineStart(actual, next) == (if p.PlainWrap? || p.DistinctWrap? || p == Same(LF) then next
                                           else LineStart(actual, i))
            && After(done, Scan(actual, i, expected, matched)) == After(done + [p], Scan(actual, next, expected, read))
            && |RawAll(done + [p])| == |RawAll(done)| + |p.Raw()|
  {
    hide PieceAt, Scan, LineStart, RawAll, StartsAt, Allowed, After;
    ScanUnfolds(actual, i, expected, matched);
    AllowedFits(p, actual, i, expected, matched);
    LineStartMoves(actual, i, p);
    AfterBefore(done, p, Scan(actual, i + |p.Raw()|, expected, matched + |p.Logical()|));
    RawAppend(done, p);
  }

  lemma NothingRaw()
    ensures RawAll([]) == []
  {
  }

  lemma AfterNothing(rest: Option<seq<Piece>>)
    ensures After([], rest) == rest
  {
    if rest.Some? { assert [] + rest.value == rest.value; }
  }

  lemma ScanUnfolds(actual: seq<byte>, i: nat, expected: seq<byte>, matched: nat)
    requires i <= |actual| && matched <= |expected|
    ensures matched == |expected| ==> Scan(actual, i, expected, matched) == Some([])
    ensures matched < |expected| ==>
              Scan(actual, i, expected, matched) ==
              match PieceAt(actual, i, expected, matched) {
                case None => None
                case Some(p) => Before(p, Scan(actual, i + |p.Raw()|, expected, matched + |p.Logical()|))
              }
  {
    hide PieceAt;
  }

  lemma WrongFirstByte(actual: seq<byte>, start: nat, expected: seq<byte>)
    requires start <= |actual| && expected != [] && (start == |actual| || actual[start] != expected[0])
    ensures Scan(actual, start, expected, 0).None?
  {
  }

  /** `find_echo_end`: the reading with the earliest start, or none when no start has one. */
  method FindEchoEnd(actual: seq<byte>, expected: seq<byte>) returns (r: Option<EchoMatch>)
    ensures FirstEcho(actual, expected, r)
  {
    hide Scan, EchoAt;
    if expected == [] { return Some(EchoMatch(0, false)); }
    for start := 0 to |actual|
      invariant forall earlier: nat | earlier < start :: Scan(actual, earlier, expected, 0).None?
    {
      if actual[start] != expected[0] {
        WrongFirstByte(actual, start, expected);
      } else {
        r := MatchFrom(actual, start, expected);
        if r.Some? { return r; }
      }
    }
    WrongFirstByte(actual, |actual|, expected);
    return None;
  }

  /** Soundness: a match marks a slice which, with the terminal's additions and the trailing line
      ending erased, is the command. Unless the match is flagged ambiguous, no plain CRLF was erased. */
  lemma EchoIsSound(actual: seq<byte>, expected: seq<byte>, m: EchoMatch)
    requires expected != [] && FirstEcho(actual, expected, Some(m))
    ensures exists start: nat, pieces: seq<Piece> ::
              && start <= |actual| && Reads(pieces, actual, start, expected, 0) && LogicalAll(pieces) == expected
              && start + |RawAll(pieces)| <= m.end <= |actual|
              && actual[start..start + |RawAll(pieces)|] == RawAll(pieces)
              && IsLineEnding(actual, start + |RawAll(pieces)|, m.end, expected)
              && (m.ambiguousPlainCrlfWrap <==> PlainWrap in pieces)
  {
    hide Scan, Reads, RawAll, LogicalAll;
    var start: nat :| start <= |actual| && Scan(actual, start, expected, 0).Some?
    && EchoAt(Scan(actual, start, expected, 0).value, actual, start, expected, m);
    var pieces := Scan(actual, start, expected, 0).value;
    ReadingErases(pieces, actual, start, expected, 0);
    assert expected[0..] == expected;
    var i := start + |RawAll(pieces)|;
    TrailingIsLineEnding(actual, i, expected);
  }

  /** What stands between `i` and `end` is what is there of the line ending of a transmitted CR, and
      nothing of it is left behind `end`. */
  predicate IsLineEnding(actual: seq<byte>, i: nat, end: nat, expected: seq<byte>)
    requires expected != []
  {
    && i <= end <= |actual|
    && if expected[|expected| - 1] != CR then end == i
       else if i < |actual| && actual[i] == LF then end == i + 1
       else if i + 1 < |actual| && actual[i] == CR && actual[i + 1] == LF then end == i + 2
       else end == i
  }

  lemma TrailingIsLineEnding(actual: seq<byte>, i: nat, expected: seq<byte>)
    requires i <= |actual| && expected != []
    ensures IsLineEnding(actual, i, i + Trailing(actual, i, expected), expected)
  {
    if i < |actual| { assert actual[i..i + 1] == [actual[i]]; }
    if i + 1 < |actual| { assert actual[i..i + 2] == [actual[i], actual[i + 1]]; }
  }

  /** Every wrap a reading erases stands at an admissible place, whichever piece it is. */
  lemma {:induction false} WrapsAreAdmissible(pieces: seq<Piece>, k: nat, actual: seq<byte>, i: nat,
                                              expected: seq<byte>, matched: nat)
    requires k < |pieces| && i <= |actual| && matched <= |expected| && Reads(pieces, actual, i, expected, matched)
    ensures var at, read := i + |RawAll(pieces[..k])|, matched + |LogicalAll(pieces[..k])|;
            && at <= |actual| && Allowed(pieces[k], actual, at, expected, read)
            && (pieces[k].PlainWrap? ==> at - LineStart(actual, at) >= 32)
    decreases |pieces|
  {
    hide Allowed;
    var p := pieces[0];
    AllowedFits(p, actual, i, expected, matched);
    if k > 0 {
      assert pieces[..k][0] == p && pieces[..k][1..] == pieces[1..][..k - 1];
      WrapsAreAdmissible(pieces[1..], k - 1, actual, i + |p.Raw()|, expected, matched + |p.Logical()|);
    } else {
      assert pieces[..0] == [];
      if p.PlainWrap? { PlainWrapColumn(actual, i, expected, matched); }
    }
  }

  lemma PlainWrapColumn(actual: seq<byte>, i: nat, expected: seq<byte>, matched: nat)
    requires i <= |actual| && Allowed(PlainWrap, actual, i, expected, matched)
    ensures i - LineStart(actual, i) >= 32
  {
  }

  /** Completeness, in full: a start with any admissible reading at all is found or preceded. */
  lemma ReadableIsFound(pieces: seq<Piece>, actual: seq<byte>, s: nat, expected: seq<byte>, r: Option<EchoMatch>)
    requires s <= |actual| && expected != [] && Reads(pieces, actual, s, expected, 0) && FirstEcho(actual, expected, r)
    ensures r.Some? && exists start: nat ::
              start <= s && Scan(actual, start, expected, 0).Some?
              && EchoAt(Scan(actual, start, expected, 0).value, actual, start, expected, r.value)
  {
    hide Scan, EchoAt, Reads;
    ScanFindsReading(pieces, actual, s, expected, 0);
  }

  function Plain(text: seq<byte>): (pieces: seq<Piece>)
    ensures |pieces| == |text|
  {
    if text == [] then [] else [Same(text[0])] + Plain(text[1..])
  }

  lemma {:induction false} PlainReads(actual: seq<byte>, i: nat, expected: seq<byte>, matched: nat)
    requires matched <= |expected| && StartsAt(actual, i, expected[matched..])
    ensures i <= |actual| && Reads(Plain(expected[matched..]), actual, i, expected, matched)
    decreases |expected| - matched
  {
    if matched < |expected| {
      var rest := expected[matched + 1..];
      assert expected[matched..] == [expected[matched]] + rest;
      assert actual[i..i + 1 + |rest|][1..] == actual[i + 1..i + 1 + |rest|];
      assert actual[i..i + 1 + |rest|][0] == actual[i];
      PlainReads(actual, i + 1, expected, matched + 1);
      var pieces := Plain(expected[matched..]);
      assert pieces == [Same(expected[matched])] + Plain(rest);
      assert actual[i..i + 1] == [actual[i]];
    }
  }

  /** Completeness for a verbatim echo: it is found, or an earlier reading is. */
  lemma VerbatimIsFound(actual: seq<byte>, s: nat, expected: seq<byte>, r: Option<EchoMatch>)
    requires expected != [] && StartsAt(actual, s, expected) && FirstEcho(actual, expected, r)
    ensures r.Some? && exists start: nat ::
              start <= s && Scan(actual, start, expected, 0).Some?
              && EchoAt(Scan(actual, start, expected, 0).value, actual, start, expected, r.value)
  {
    hide Scan, EchoAt;
    assert expected[0..] == expected;
    PlainReads(actual, s, expected, 0);
    ReadableIsFound(Plain(expected), actual, s, expected, r);
  }

  /** Found at a start no later than `s`, and nothing is found earlier. */
  ghost predicate FoundBy(actual: seq<byte>, s: nat, expected: seq<byte>, r: Option<EchoMatch>) {
    r.Some? && exists start: nat ::
      start <= s && start <= |actual| && Scan(actual, start, expected, 0).Some?
      && EchoAt(Scan(actual, start, expected, 0).value, actual, start, expected, r.value)
  }

  /** What a terminal may make of the rest of a command: an LF may get a CR in front, and CR CR LF may be put
      in front of any other byte. */
  predicate Presents(raw: seq<byte>, expected: seq<byte>, matched: nat)
    requires matched <= |expected|
    decreases |raw|
  {
    if matched == |expected| then raw == []
    else
      || (raw != [] && raw[0] == expected[matched] && Presents(raw[1..], expected, matched + 1))
      || (matched > 0 && expected[matched] == LF && |raw| >= 2 && raw[0] == CR && raw[1] == LF
          && Presents(raw[2..], expected, matched + 1))
      || (matched > 0 && expected[matched] != CR && expected[matched] != LF && |raw| >= 3
          && raw[0] == CR && raw[1] == CR && raw[2] == LF && Presents(raw[3..], expected, matched))
  }

  lemma Rest(actual: seq<byte>, i: nat, raw: seq<byte>, n: nat)
    requires StartsAt(actual, i, raw) && n <= |raw|
    ensures StartsAt(actual, i, raw[..n]) && StartsAt(actual, i + n, raw[n..])
    ensures forall k :: 0 <= k < |raw| ==> actual[i + k] == raw[k]
  {
    var whole := actual[i..i + |raw|];
    assert whole[..n] == actual[i..i + n] && whole[n..] == actual[i + n..i + |raw|];
    assert forall k :: 0 <= k < |raw| ==> actual[i + k] == whole[k];
  }

  lemma AddedStarts(actual: seq<byte>, i: nat, raw: seq<byte>)
    requires StartsAt(actual, i, raw) && |raw| >= 2 && raw[0] == CR && raw[1] == LF
    ensures StartsAt(actual, i, [CR]) && StartsAt(actual, i, [CR, LF]) && StartsAt(actual, i + 1, [LF])
    ensures StartsAt(actual, i + 2, raw[2..])
  {
    hide StartsAt;
    Rest(actual, i, raw, 1);
    Rest(actual, i, raw, 2);
    Rest(actual, i + 1, raw[1..], 1);
    assert raw[..1] == [CR] && raw[..2] == [CR, LF] && raw[1..][..1] == [LF];
  }

  lemma {:induction false} PresentedReads(actual: seq<byte>, i: nat, raw: seq<byte>, expected: seq<byte>, matched: nat)
    returns (pieces: seq<Piece>)
    requires matched <= |expected| && StartsAt(actual, i, raw) && Presents(raw, expected, matched)
    ensures i <= |actual| && Reads(pieces, actual, i, expected, matched)
    decreases |raw|
  {
    hide StartsAt, Reads;
    if matched == |expected| {
      pieces := [];
      ReadsNothing(actual, i, expected);
    } else if raw != [] && raw[0] == expected[matched] && Presents(raw[1..], expected, matched + 1) {
      Rest(actual, i, raw, 1);
      assert raw[..1] == [raw[0]];
      var more := PresentedReads(actual, i + 1, raw[1..], expected, matched + 1);
      pieces := ReadsMore(Same(raw[0]), more, actual, i, expected, matched);
    } else if expected[matched] == LF {
      AddedStarts(actual, i, raw);
      var more := PresentedReads(actual, i + 2, raw[2..], expected, matched + 1);
      more := ReadsMore(Same(LF), more, actual, i + 1, expected, matched);
      pieces := ReadsMore(AddedCr, more, actual, i, expected, matched);
    } else {
      Rest(actual, i, raw, 3);
      assert raw[..3] == [CR, CR, LF];
      var more := PresentedReads(actual, i + 3, raw[3..], expected, matched);
      pieces := ReadsMore(DistinctWrap, more, actual, i, expected, matched);
    }
  }

  lemma ReadsNothing(actual: seq<byte>, i: nat, expected: seq<byte>)
    requires StartsAt(actual, i, [])
    ensures i <= |actual| && Reads([], actual, i, expected, |expected|)
  {
  }

  lemma ReadsMore(p: Piece, more: seq<Piece>, actual: seq<byte>, i: nat, expected: seq<byte>, matched: nat)
    returns (pieces: seq<Piece>)
    requires i <= |actual| && Allowed(p, actual, i, expected, matched) && i + |p.Raw()| <= |actual|
    requires Reads(more, actual, i + |p.Raw()|, expected, matched + |p.Logical()|)
    ensures Reads(pieces, actual, i, expected, matched)
  {
    pieces := [p] + more;
  }

  /** Any such presentation of the command is found, or something earlier is. */
  lemma PresentedIsFound(actual: seq<byte>, s: nat, raw: seq<byte>, expected: seq<byte>, r: Option<EchoMatch>)
    requires expected != [] && StartsAt(actual, s, raw) && Presents(raw, expected, 0) && FirstEcho(actual, expected, r)
    ensures FoundBy(actual, s, expected, r)
  {
    hide Scan, EchoAt, Reads, Presents, StartsAt;
    var pieces := PresentedReads(actual, s, raw, expected, 0);
    ReadableIsFound(pieces, actual, s, expected, r);
  }

  /** So is a command whose echo was broken once by a plain CR LF, at column 32 or later. */
  lemma PlainWrappedIsFound(actual: seq<byte>, s: nat, head: seq<byte>, tail: seq<byte>, r: Option<EchoMatch>)
    requires tail != [] && CR !in head + tail && LF !in head + tail && |head| >= 32
    requires StartsAt(actual, s, head + [CR, LF] + tail) && FirstEcho(actual, head + tail, r)
    ensures FoundBy(actual, s, head + tail, r)
  {
    hide Scan, EchoAt, Reads, StartsAt;
    var expected, n := head + tail, |head|;
    var rest := WrappedTail(actual, s, head, tail);
    Rest(actual, s, head + [CR, LF] + tail, n);
    HeadStands(actual, s, head, tail);
    var pieces := HeadReads(actual, s, expected, 0, n, rest);
    ReadableIsFound(pieces, actual, s, expected, r);
  }

  lemma HeadStands(actual: seq<byte>, s: nat, head: seq<byte>, tail: seq<byte>)
    requires StartsAt(actual, s, head + [CR, LF] + tail)
    ensures s + |head| <= |actual| && forall j | 0 <= j < |head| :: actual[s + j] == (head + tail)[j]
  {
    var raw := head + [CR, LF] + tail;
    Rest(actual, s, raw, 0);
    assert forall j | 0 <= j < |head| :: raw[j] == head[j];
  }

  lemma WrappedTail(actual: seq<byte>, s: nat, head: seq<byte>, tail: seq<byte>) returns (pieces: seq<Piece>)
    requires tail != [] && CR !in head + tail && LF !in head + tail && |head| >= 32
    requires StartsAt(actual, s, head + [CR, LF] + tail)
    ensures s + |head| <= |actual| && Reads(pieces, actual, s + |head|, head + tail, |head|)
  {
    hide Reads, StartsAt, Allowed, Plain;
    var expected, n := head + tail, |head|;
    TailStands(actual, s, head, tail);
    assert expected[n..] == tail;
    PlainReads(actual, s + n + 2, expected, n);
    WrapAllowed(actual, s, head, tail);
    pieces := ReadsMore(PlainWrap, Plain(tail), actual, s + n, expected, n);
  }

  lemma TailStands(actual: seq<byte>, s: nat, head: seq<byte>, tail: seq<byte>)
    requires StartsAt(actual, s, head + [CR, LF] + tail)
    ensures StartsAt(actual, s + |head|, [CR, LF]) && StartsAt(actual, s + |head| + 2, tail)
    ensures s + |head| + 2 <= |actual|
  {
    hide StartsAt;
    var raw := head + [CR, LF] + tail;
    Rest(actual, s, raw, |head|);
    assert raw[|head|..] == [CR, LF] + tail;
    Rest(actual, s + |head|, [CR, LF] + tail, 2);
    assert ([CR, LF] + tail)[..2] == [CR, LF] && ([CR, LF] + tail)[2..] == tail;
    Inside(actual, s + |head| + 2, tail);
  }

  lemma Inside(actual: seq<byte>, i: nat, prefix: seq<byte>)
    requires StartsAt(actual, i, prefix)
    ensures i <= |actual|
  {
  }

  lemma WrapAllowed(actual: seq<byte>, s: nat, head: seq<byte>, tail: seq<byte>)
    requires tail != [] && CR !in head + tail && LF !in head + tail && |head| >= 32
    requires StartsAt(actual, s, head + [CR, LF] + tail)
    ensures s + |head| <= |actual| && Allowed(PlainWrap, actual, s + |head|, head + tail, |head|)
  {
    hide StartsAt, LineStart;
    var expected, n := head + tail, |head|;
    HeadStands(actual, s, head, tail);
    TailStands(actual, s, head, tail);
    forall k | s <= k < s + n ensures actual[k] != LF {
      assert actual[k] == expected[k - s] && expected[k - s] in expected;
    }
    ColumnBehind(actual, s, s + n);
    assert expected[n] in expected;
  }

  lemma {:induction false} ColumnBehind(actual: seq<byte>, s: nat, i: nat)
    requires s <= i <= |actual| && forall k | s <= k < i :: actual[k] != LF
    ensures LineStart(actual, i) <= s
    decreases i - s
  {
    if s < i { ColumnBehind(actual, s, i - 1); }
  }

  lemma {:induction false} HeadReads(actual: seq<byte>, s: nat, expected: seq<byte>, k: nat, n: nat, rest: seq<Piece>)
    returns (pieces: seq<Piece>)
    requires k <= n <= |expected| && s + n <= |actual| && forall j | k <= j < n :: actual[s + j] == expected[j]
    requires Reads(rest, actual, s + n, expected, n)
    ensures Reads(pieces, actual, s + k, expected, k)
    decreases n - k
  {
    hide Reads;
    if k == n {
      pieces := rest;
    } else {
      var more := HeadReads(actual, s, expected, k + 1, n, rest);
      assert actual[s + k..s + k + 1] == [actual[s + k]];
      pieces := ReadsMore(Same(actual[s + k]), more, actual, s + k, expected, k);
    }
  }
}
