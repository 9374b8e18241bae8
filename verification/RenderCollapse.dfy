/** Collapsing repeated lines of terminal output (`collapse_exact_repeats`, crates/serial-mcp/src/render.rs). */
module RenderCollapse {
  import opened Wrappers
  import opened Numerals

  // ---------- texts and lines ----------

  /** `split_inclusive('\n')`: the terminated lines without their terminators, and the unterminated rest. */
  function Parts(text: string): (parts: (seq<string>, string)) {
    if text == "" then ([], "")
    else
      var (lines, rest) := Parts(text[1..]);
      if text[0] == '\n' then ([""] + lines, rest)
      else if lines == [] then ([], [text[0]] + rest)
      else ([[text[0]] + lines[0]] + lines[1..], rest)
  }

  function Joined(lines: seq<string>): string {
    if lines == [] then "" else Joined(lines[..|lines| - 1]) + lines[|lines| - 1] + "\n"
  }

  predicate OneLine(line: string) {
    '\n' !in line
  }

  lemma JoinedOne(line: string)
    ensures Joined([]) == "" && Joined([line]) == line + "\n"
  {
    assert [line][..0] == [];
  }

  lemma {:induction false} JoinedAppend(a: seq<string>, b: seq<string>)
    ensures Joined(a + b) == Joined(a) + Joined(b)
  {
    if b == [] {
      assert a + b == a;
    } else {
      var front, last := b[..|b| - 1], b[|b| - 1];
      JoinedAppend(a, front);
      assert (a + b)[..|a + b| - 1] == a + front;
      assert Joined(a) + Joined(front) + last + "\n" == Joined(a) + (Joined(front) + last + "\n");
    }
  }

  lemma JoinedFront(line: string, lines: seq<string>)
    ensures Joined([line] + lines) == line + "\n" + Joined(lines)
  {
    hide Joined;
    JoinedOne(line);
    JoinedAppend([line], lines);
  }

  /** Splitting a text loses nothing, and no part holds a line feed. */
  lemma {:induction false} PartsJoin(text: string)
    ensures var (lines, rest) := Parts(text);
            Joined(lines) + rest == text && OneLine(rest) && forall i | 0 <= i < |lines| :: OneLine(lines[i])
  {
    hide Joined;
    JoinedOne("");
    if text != "" {
      PartsJoin(text[1..]);
      var (lines, rest) := Parts(text[1..]);
      assert text == [text[0]] + text[1..];
      if text[0] == '\n' {
        JoinedFront("", lines);
      } else if lines != [] {
        var first, more := lines[0], lines[1..];
        assert lines == [first] + more;
        JoinedFront(first, more);
        JoinedFront([text[0]] + first, more);
        assert [text[0]] + first + "\n" + Joined(more) + rest == [text[0]] + (first + "\n" + Joined(more) + rest);
      }
    }
  }

  lemma {:induction false} PartsFront(line: string, text: string)
    requires OneLine(line)
    ensures Parts(line + "\n" + text) == ([line] + Parts(text).0, Parts(text).1)
  {
    var all := line + "\n" + text;
    if line == "" {
      assert all[1..] == text;
    } else {
      assert all[1..] == line[1..] + "\n" + text && all[0] == line[0] && line[0] in line
             && line == [line[0]] + line[1..];
      PartsFront(line[1..], text);
    }
  }

  lemma {:induction false} PartsOfRest(rest: string)
    requires OneLine(rest)
    ensures Parts(rest) == ([], rest)
  {
    if rest != "" {
      assert rest[0] in rest && rest == [rest[0]] + rest[1..];
      PartsOfRest(rest[1..]);
    }
  }

  /** Lines that are joined are the lines of the text. */
  lemma {:induction false} PartsOfJoined(lines: seq<string>, rest: string)
    requires OneLine(rest) && forall i | 0 <= i < |lines| :: OneLine(lines[i])
    ensures Parts(Joined(lines) + rest) == (lines, rest)
  {
    hide Parts, OneLine;
    if lines == [] {
      assert Joined([]) + rest == rest;
      PartsOfRest(rest);
    } else {
      var first, more := lines[0], lines[1..];
      assert lines == [first] + more;
      JoinedFront(first, more);
      assert Joined(lines) + rest == first + "\n" + (Joined(more) + rest);
      PartsOfJoined(more, rest);
      PartsFront(first, Joined(more) + rest);
    }
  }

  // ---------- keys ----------

  /** The length of the date and time a line begins with, or zero. */
  type Stamp = string -> nat

  /** `timestamped_line`. */
  function Stamped(line: string, stamp: Stamp): Option<(string, string)> {
    var n := stamp(line);
    if 0 < n <= |line| then Some((line[..n], line[n..])) else None
  }

  /** What two lines must share to count as repeats: all, or all but the timestamps. */
  datatype Key = Whole(line: string) | Body(body: string)

  function KeyOf(line: string, stamp: Stamp): Key {
    match Stamped(line, stamp)
    case Some((_, body)) => Body(body)
    case None => Whole(line)
  }

  function Keys(lines: seq<string>, stamp: Stamp): seq<Key> {
    seq(|lines|, i requires 0 <= i < |lines| => KeyOf(lines[i], stamp))
  }

  predicate Same(previous: string, line: string, stamp: Stamp) {
    || previous == line
    || (&& Stamped(previous, stamp).Some? && Stamped(line, stamp).Some?
        && Stamped(previous, stamp).value.1 == Stamped(line, stamp).value.1)
  }

  lemma SameIsSameKey(previous: string, line: string, stamp: Stamp)
    ensures Same(previous, line, stamp) <==> KeyOf(previous, stamp) == KeyOf(line, stamp)
  {
  }

  /** Lines count as repeats exactly when they are the same, or both bear a stamp and the same text behind it. */
  lemma SameKeyExactly(a: string, b: string, stamp: Stamp)
    ensures var (m, n) := (stamp(a), stamp(b));
            KeyOf(a, stamp) == KeyOf(b, stamp) <==>
              a == b || (0 < m <= |a| && 0 < n <= |b| && a[m..] == b[n..])
  {
  }

  // ---------- notes ----------

  /** `char::is_whitespace`. */
  predicate IsWhite(c: char) {
    var n := c as int;
    || 9 <= n <= 13 || n == 0x20 || n == 0x85 || n == 0xA0 || n == 0x1680 || 0x2000 <= n <= 0x200A
    || n == 0x2028 || n == 0x2029 || n == 0x202F || n == 0x205F || n == 0x3000
  }

  function TrimStart(text: string): string {
    if text != "" && IsWhite(text[0]) then TrimStart(text[1..]) else text
  }

  function TrimEnd(text: string): string {
    if text != "" && IsWhite(text[|text| - 1]) then TrimEnd(text[..|text| - 1]) else text
  }

  function Trim(text: string): string {
    TrimEnd(TrimStart(text))
  }

  const NOTE := "[previous line repeated "

  /** The note that a line was repeated, with the span of its timestamps when they differ. */
  function Note(more: nat, span: Option<(string, string)>): string {
    NOTE + Digits(more) + (
      match span
      case None => " more times]"
      case Some((start, end)) => " more times; " + start + " \U{2192} " + end + "]")
  }

  /** Consecutive lines with one key. */
  datatype Run = Run(first: string, last: string, count: nat)

  function SpanOf(first: string, last: string, stamp: Stamp): Option<(string, string)> {
    var a, b := Stamped(first, stamp), Stamped(last, stamp);
    if a.Some? && b.Some? && a.value.0 != b.value.0 then Some((Trim(a.value.0), Trim(b.value.0))) else None
  }

  /** A run is shown as its first line and, if it is longer than that, a note. */
  function LinesOf(run: Run, stamp: Stamp): seq<string> {
    [run.first] + if run.count > 1 then [Note(run.count - 1, SpanOf(run.first, run.last, stamp))] else []
  }

  function Shown(runs: seq<Run>, stamp: Stamp): seq<string> {
    if runs == [] then [] else Shown(runs[..|runs| - 1], stamp) + LinesOf(runs[|runs| - 1], stamp)
  }

  /** `x` is the text without the white space around it. */
  predicate Trims(text: string, before: string, x: string, behind: string) {
    && text == before + x + behind
    && (forall c | c in before + behind :: IsWhite(c))
    && (x != "" ==> !IsWhite(x[0]) && !IsWhite(x[|x| - 1]))
  }

  lemma {:induction false} EndTrimmed(x: string, behind: string)
    requires (forall c | c in behind :: IsWhite(c)) && (x != "" ==> !IsWhite(x[|x| - 1]))
    ensures TrimEnd(x + behind) == x
    decreases |behind|
  {
    if behind == "" {
      assert x + behind == x;
    } else {
      var n := |behind| - 1;
      assert behind[n] in behind && (x + behind)[..|x + behind| - 1] == x + behind[..n];
      EndTrimmed(x, behind[..n]);
    }
  }

  lemma {:induction false} TrimIs(text: string, before: string, x: string, behind: string)
    requires Trims(text, before, x, behind)
    ensures Trim(text) == x
    decreases |before|
  {
    assert forall c | c in behind :: c in before + behind;
    if before == "" {
      assert text == x + behind;
      if x == "" {
        assert text == behind;
        AllTrimmed(behind);
      } else {
        assert text[0] == x[0];
        EndTrimmed(x, behind);
      }
    } else {
      assert before[0] in before + behind && text[1..] == before[1..] + x + behind;
      assert forall c | c in before[1..] + behind :: c in before + behind;
      TrimIs(text[1..], before[1..], x, behind);
    }
  }

  lemma {:induction false} AllTrimmed(text: string)
    requires forall c | c in text :: IsWhite(c)
    ensures TrimStart(text) == "" && Trim(text) == ""
  {
    if text != "" {
      assert text[0] in text;
      AllTrimmed(text[1..]);
    }
  }

  /** What a run of several lines is shown as, to the letter, when its first and last line bear stamps that differ. */
  lemma SpanIsShown(run: Run, stamp: Stamp, m: nat, n: nat, a: string, x: string, b: string, c: string, y: string,
                    d: string)
    requires run.count > 1 && m == stamp(run.first) && 0 < m <= |run.first| && n == stamp(run.last)
             && 0 < n <= |run.last|
    requires Trims(run.first[..m], a, x, b) && Trims(run.last[..n], c, y, d) && run.first[..m] != run.last[..n]
    ensures LinesOf(run, stamp) ==
              [run.first, "[previous line repeated " + Digits(run.count - 1) + " more times; " + x + " \U{2192} " + y
               + "]"]
  {
    hide Trim, Trims, Digits;
    TrimIs(run.first[..m], a, x, b);
    TrimIs(run.last[..n], c, y, d);
    var head := "[previous line repeated " + Digits(run.count - 1);
    assert head + (" more times; " + x + " \U{2192} " + y + "]") == head + " more times; " + x + " \U{2192} " + y + "]";
  }

  /** And when one of them bears no stamp, or the stamps are the same. */
  lemma CountIsShown(run: Run, stamp: Stamp)
    requires run.count > 1
    requires var (m, n) := (stamp(run.first), stamp(run.last));
             || !(0 < m <= |run.first|) || !(0 < n <= |run.last|) || run.first[..m] == run.last[..n]
    ensures LinesOf(run, stamp) == [run.first, "[previous line repeated " + Digits(run.count - 1) + " more times]"]
  {
    hide Digits;
  }

  /** `lines` from `low` on are one run. */
  predicate IsRun(run: Run, lines: seq<string>, low: nat, stamp: Stamp) {
    && 0 < run.count == |lines| - low
    && run.first == lines[low] && run.last == lines[|lines| - 1]
    && forall i :: low <= i < |lines| ==> KeyOf(lines[i], stamp) == KeyOf(run.first, stamp)
  }

  /** `runs` are `lines`, cut into blocks of one key. */
  predicate Splits(runs: seq<Run>, lines: seq<string>, stamp: Stamp)
    decreases |runs|
  {
    if runs == [] then lines == []
    else
      var run := runs[|runs| - 1];
      && run.count <= |lines| && IsRun(run, lines, |lines| - run.count, stamp)
      && Splits(runs[..|runs| - 1], lines[..|lines| - run.count], stamp)
  }

  /** No two neighbouring blocks could have been one. */
  predicate Maximal(runs: seq<Run>, stamp: Stamp) {
    forall i :: 0 < i < |runs| ==> KeyOf(runs[i - 1].first, stamp) != KeyOf(runs[i].first, stamp)
  }

  function Total(runs: seq<Run>): nat {
    if runs == [] then 0 else Total(runs[..|runs| - 1]) + runs[|runs| - 1].count
  }

  lemma {:induction false} SplitsTotal(runs: seq<Run>, lines: seq<string>, stamp: Stamp)
    requires Splits(runs, lines, stamp)
    ensures Total(runs) == |lines| && |runs| <= |lines|
    decreases |runs|
  {
    if runs != [] { SplitsTotal(runs[..|runs| - 1], lines[..|lines| - runs[|runs| - 1].count], stamp); }
  }

  lemma SplitsPush(runs: seq<Run>, run: Run, lines: seq<string>, low: nat, stamp: Stamp)
    requires low <= |lines| && Splits(runs, lines[..low], stamp) && IsRun(run, lines, low, stamp)
    ensures Splits(runs + [run], lines, stamp) && Shown(runs + [run], stamp) == Shown(runs, stamp) + LinesOf(run, stamp)
  {
    assert (runs + [run])[..|runs|] == runs;
  }

  /** The closure `flush`: the first line of a finished run, and the note. */
  method Flush(output: string, collapsed: nat, previous: Option<string>, last: string, count: nat, stamp: Stamp)
    returns (shown: string, total: nat)
    ensures previous.None? ==> shown == output && total == collapsed
    ensures previous.Some? ==>
              && shown == output + Joined(LinesOf(Run(previous.value, last, count), stamp))
              && total == collapsed + if count > 1 then count - 1 else 0
  {
    hide Note, SpanOf, Joined;
    shown, total := output, collapsed;
    if previous.Some? {
      shown := shown + previous.value + "\n";
      JoinedOne(previous.value);
      assert output + previous.value + "\n" == output + (previous.value + "\n");
      assert count <= 1 ==> LinesOf(Run(previous.value, last, count), stamp) == [previous.value];
      if count > 1 {
        var note := Note(count - 1, SpanOf(previous.value, last, stamp));
        JoinedOne(note);
        JoinedAppend([previous.value], [note]);
        assert output + previous.value + "\n" + note + "\n" == output + (previous.value + "\n" + (note + "\n"));
        assert LinesOf(Run(previous.value, last, count), stamp) == [previous.value] + [note];
        shown := shown + note + "\n";
        total := total + (count - 1);
      }
    }
  }

  /** The output is the text's longest runs, then its unterminated rest; each line is shown or counted. */
  ghost predicate Collapses(text: string, stamp: Stamp, output: string, collapsed: nat) {
    var (lines, rest) := Parts(text);
    exists runs: seq<Run> ::
      && Splits(runs, lines, stamp) && Maximal(runs, stamp) && collapsed + |runs| == |lines|
      && output == Joined(Shown(runs, stamp)) + rest
  }

  /** The output is the longest runs of equal keys, each by its first line and a note with its exact
      length and the timestamps of its first and last line; `collapsed` counts the lines not shown. */
  method CollapseExactRepeats(text: string, stamp: Stamp) returns (output: string, collapsed: nat)
    ensures Collapses(text, stamp, output, collapsed)
  {
    hide Splits, Shown, LinesOf, KeyOf, IsRun, Maximal, Same, Joined, Parts;
    output, collapsed := "", 0;
    var previous: Option<string>, last, count := None, "", 0;
    var (lines, rest) := Parts(text);
    ghost var runs: seq<Run> := [];
    ghost var low := 0;
    NoRuns(stamp);
    assert lines[..0] == [];
    for i := 0 to |lines|
      invariant low + count == i && collapsed + |runs| == low && (previous.None? <==> i == 0)
      invariant Splits(runs, lines[..low], stamp) && Maximal(runs, stamp) && output == Joined(Shown(runs, stamp))
      invariant previous.Some? ==>
                  && count > 0 && IsRun(Run(previous.value, last, count), lines[..i], low, stamp)
                  && Maximal(runs + [Run(previous.value, last, count)], stamp)
    {
      var line := lines[i];
      if previous.Some? && Same(previous.value, line, stamp) {
        RunGrows(runs, previous.value, last, count, lines, i, low, stamp);
        count := count + 1;
      } else {
        output, collapsed := Flush(output, collapsed, previous, last, count, stamp);
        if previous.Some? {
          RunEnds(runs, previous.value, last, count, lines, i, low, stamp);
          JoinedAppend(Shown(runs, stamp), LinesOf(Run(previous.value, last, count), stamp));
          runs := runs + [Run(previous.value, last, count)];
        }
        RunStarts(runs, lines, i, stamp);
        previous, count, low := Some(line), 1, i;
      }
      last := line;
    }
    output, collapsed := Flush(output, collapsed, previous, last, count, stamp);
    assert lines[..|lines|] == lines;
    if previous.Some? {
      SplitsPush(runs, Run(previous.value, last, count), lines, low, stamp);
      JoinedAppend(Shown(runs, stamp), LinesOf(Run(previous.value, last, count), stamp));
      runs := runs + [Run(previous.value, last, count)];
    }
    output := output + rest;
    assert Splits(runs, lines, stamp) && Maximal(runs, stamp) && collapsed + |runs| == |lines|;
  }

  lemma RunGrows(runs: seq<Run>, first: string, last: string, count: nat, lines: seq<string>, i: nat, low: nat,
                 stamp: Stamp)
    requires low <= i < |lines| && IsRun(Run(first, last, count), lines[..i], low, stamp)
             && Same(first, lines[i], stamp)
    requires Maximal(runs + [Run(first, last, count)], stamp)
    ensures IsRun(Run(first, lines[i], count + 1), lines[..i + 1], low, stamp)
            && Maximal(runs + [Run(first, lines[i], count + 1)], stamp)
  {
    hide KeyOf;
    SameIsSameKey(first, lines[i], stamp);
    assert lines[..i + 1] == lines[..i] + [lines[i]];
    var a, b := runs + [Run(first, last, count)], runs + [Run(first, lines[i], count + 1)];
    assert forall k :: 0 <= k < |a| ==> a[k].first == b[k].first;
  }

  /** A line that is not the same ends the run before it, and the next run differs from that one. */
  lemma RunEnds(runs: seq<Run>, first: string, last: string, count: nat, lines: seq<string>, i: nat, low: nat,
                stamp: Stamp)
    requires low <= i < |lines| && Splits(runs, lines[..low], stamp)
             && IsRun(Run(first, last, count), lines[..i], low, stamp)
    requires !Same(first, lines[i], stamp) && Maximal(runs + [Run(first, last, count)], stamp)
    ensures var more := runs + [Run(first, last, count)];
            && Splits(more, lines[..i], stamp) && Shown(more, stamp) ==
              Shown(runs, stamp) + LinesOf(Run(first, last, count), stamp)
            && Maximal(more + [Run(lines[i], lines[i], 1)], stamp)
  {
    hide KeyOf, LinesOf, Shown;
    SameIsSameKey(first, lines[i], stamp);
    assert lines[..i][..low] == lines[..low];
    SplitsPush(runs, Run(first, last, count), lines[..i], low, stamp);
  }

  lemma RunStarts(runs: seq<Run>, lines: seq<string>, i: nat, stamp: Stamp)
    requires i < |lines|
    ensures IsRun(Run(lines[i], lines[i], 1), lines[..i + 1], i, stamp)
    ensures runs == [] ==> Maximal(runs + [Run(lines[i], lines[i], 1)], stamp)
  {
    hide KeyOf;
  }

  lemma NoRuns(stamp: Stamp)
    ensures Splits([], [], stamp) && Shown([], stamp) == [] && Joined(Shown([], stamp)) == "" && Maximal([], stamp)
  {
  }

  /** There is only one way to cut the lines into longest runs. */
  lemma {:induction false} RunsAreUnique(a: seq<Run>, b: seq<Run>, lines: seq<string>, stamp: Stamp)
    requires Splits(a, lines, stamp) && Maximal(a, stamp) && Splits(b, lines, stamp) && Maximal(b, stamp)
    ensures a == b
    decreases |lines|
  {
    hide KeyOf;
    if a != [] && b != [] {
      var x, y := a[|a| - 1], b[|b| - 1];
      NotLonger(a, b, lines, stamp);
      NotLonger(b, a, lines, stamp);
      assert x == y;
      RunsAreUnique(a[..|a| - 1], b[..|b| - 1], lines[..|lines| - x.count], stamp);
      assert a == a[..|a| - 1] + [x] && b == b[..|b| - 1] + [y];
    }
  }

  lemma NotLonger(a: seq<Run>, b: seq<Run>, lines: seq<string>, stamp: Stamp)
    requires a != [] && b != [] && Splits(a, lines, stamp) && Maximal(a, stamp) && Splits(b, lines, stamp)
    ensures b[|b| - 1].count <= a[|a| - 1].count
  {
    hide KeyOf;
    var x, y := a[|a| - 1], b[|b| - 1];
    if y.count > x.count { KeyStays(b, lines, x.count, stamp); }
    if |a| > 1 { KeyChanges(a, lines, stamp); }
  }

  /** Inside the last run it does not change. */
  lemma KeyStays(b: seq<Run>, lines: seq<string>, n: nat, stamp: Stamp)
    requires b != [] && Splits(b, lines, stamp) && 0 < n < b[|b| - 1].count
    ensures n < |lines| && KeyOf(lines[|lines| - n - 1], stamp) == KeyOf(lines[|lines| - n], stamp)
  {
    hide KeyOf;
  }

  /** The last run begins where the key changes. */
  lemma KeyChanges(a: seq<Run>, lines: seq<string>, stamp: Stamp)
    requires |a| > 1 && Splits(a, lines, stamp) && Maximal(a, stamp)
    ensures var low := |lines| - a[|a| - 1].count;
            0 < low < |lines| && KeyOf(lines[low - 1], stamp) != KeyOf(lines[low], stamp)
  {
    hide KeyOf;
    var x, z := a[|a| - 1], a[|a| - 2];
    var low := |lines| - x.count;
    assert a[..|a| - 1][|a| - 2] == z;
    assert IsRun(z, lines[..low], low - z.count, stamp);
    assert lines[..low][low - 1] == lines[low - 1];
  }

  /** So the output and the count are determined by the text. */
  lemma CollapsesOneWay(text: string, stamp: Stamp, a: string, m: nat, b: string, n: nat)
    requires Collapses(text, stamp, a, m) && Collapses(text, stamp, b, n)
    ensures a == b && m == n
  {
    hide Splits, Maximal, Shown, Joined, Parts;
    var (lines, rest) := Parts(text);
    var x: seq<Run> :| Splits(x, lines, stamp) && Maximal(x, stamp) && m + |x| == |lines|
    && a == Joined(Shown(x, stamp)) + rest;
    var y: seq<Run> :| Splits(y, lines, stamp) && Maximal(y, stamp) && n + |y| == |lines|
    && b == Joined(Shown(y, stamp)) + rest;
    RunsAreUnique(x, y, lines, stamp);
  }

  // ---------- reading the output back ----------

  ghost predicate NoteOf(line: string, n: nat) {
    n > 0 && exists span: Option<(string, string)> :: line == Note(n, span)
  }

  ghost predicate IsNote(line: string) {
    exists n: nat :: NoteOf(line, n)
  }

  ghost function CountOf(line: string): (n: nat)
    requires IsNote(line)
    ensures NoteOf(line, n)
  {
    var n: nat :| NoteOf(line, n);
    n
  }

  /** A numeral ends where its digits end. */
  lemma NumeralEnds(a: nat, x: string, b: nat, y: string)
    requires Digits(a) + " " + x == Digits(b) + " " + y
    ensures a == b
  {
    hide Digits;
    var text := Digits(a) + " " + x;
    var k, l := |Digits(a)|, |Digits(b)|;
    assert text[k] == ' ' && text[l] == ' ';
    assert forall i :: 0 <= i < k ==> text[i] == Digits(a)[i];
    assert forall i :: 0 <= i < l ==> text[i] == Digits(b)[i];
    assert k == l;
    assert text[..k] == Digits(a) && text[..l] == Digits(b);
    DigitsRead(a);
    DigitsRead(b);
  }

  lemma NoteSplits(more: nat, span: Option<(string, string)>) returns (tail: string)
    ensures Note(more, span) == NOTE + (Digits(more) + " " + tail)
  {
    hide Digits;
    tail := Note(more, span)[|NOTE| + |Digits(more)| + 1..];
  }

  lemma OneCount(line: string, a: nat, b: nat)
    requires NoteOf(line, a) && NoteOf(line, b)
    ensures a == b
  {
    hide Note, Digits;
    var s: Option<(string, string)> :| line == Note(a, s);
    var t: Option<(string, string)> :| line == Note(b, t);
    var x := NoteSplits(a, s);
    var y := NoteSplits(b, t);
    assert line[|NOTE|..] == Digits(a) + " " + x == Digits(b) + " " + y;
    NumeralEnds(a, x, b, y);
  }

  function Times(key: Key, n: nat): seq<Key> {
    seq(n, _ => key)
  }

  /** What a reader makes of the output's lines: one that looks like a note, behind a line, is a note. */
  ghost function Read(lines: seq<string>, stamp: Stamp): seq<Key>
    decreases |lines|
  {
    if lines == [] then []
    else if |lines| > 1 && IsNote(lines[1]) then
      Times(KeyOf(lines[0], stamp), CountOf(lines[1]) + 1) + Read(lines[2..], stamp)
    else Times(KeyOf(lines[0], stamp), 1) + Read(lines[1..], stamp)
  }

  /** The reader is right about line `i`: if it looks like a note and ends the run before it, that run
      has more than one line, so that a note stands between them. */
  ghost predicate ClearAt(lines: seq<string>, i: nat, stamp: Stamp)
    requires i < |lines|
  {
    i > 0 && IsNote(lines[i]) && KeyOf(lines[i - 1], stamp) != KeyOf(lines[i], stamp) ==>
      i > 1 && KeyOf(lines[i - 2], stamp) == KeyOf(lines[i - 1], stamp)
  }

  ghost predicate Clear(lines: seq<string>, stamp: Stamp) {
    forall i | 0 <= i < |lines| :: ClearAt(lines, i, stamp)
  }

  ghost predicate ClearRuns(runs: seq<Run>) {
    forall i | 0 < i < |runs| && IsNote(runs[i].first) :: runs[i - 1].count > 1
  }

  function Unfolded(runs: seq<Run>, stamp: Stamp): seq<Key> {
    if runs == [] then [] else Times(KeyOf(runs[0].first, stamp), runs[0].count) + Unfolded(runs[1..], stamp)
  }

  lemma {:induction false} ShownFront(run: Run, runs: seq<Run>, stamp: Stamp)
    ensures Shown([run] + runs, stamp) == LinesOf(run, stamp) + Shown(runs, stamp)
  {
    hide LinesOf;
    var all := [run] + runs;
    if runs == [] {
      assert all[..0] == [];
    } else {
      ShownFront(run, runs[..|runs| - 1], stamp);
      assert all[..|all| - 1] == [run] + runs[..|runs| - 1];
    }
  }

  lemma {:induction false} UnfoldedBack(runs: seq<Run>, run: Run, stamp: Stamp)
    ensures Unfolded(runs + [run], stamp) == Unfolded(runs, stamp) + Times(KeyOf(run.first, stamp), run.count)
  {
    hide KeyOf, Times;
    var all := runs + [run];
    if runs == [] {
      assert all[1..] == [];
    } else {
      UnfoldedBack(runs[1..], run, stamp);
      assert all[1..] == runs[1..] + [run];
    }
  }

  lemma {:induction false} KeysOfRuns(runs: seq<Run>, lines: seq<string>, stamp: Stamp)
    requires Splits(runs, lines, stamp)
    ensures Keys(lines, stamp) == Unfolded(runs, stamp) && forall i | 0 <= i < |runs| :: runs[i].count > 0
    decreases |runs|
  {
    hide KeyOf;
    if runs != [] {
      var run := runs[|runs| - 1];
      KeysOfRuns(runs[..|runs| - 1], lines[..|lines| - run.count], stamp);
      UnfoldedBack(runs[..|runs| - 1], run, stamp);
      assert runs == runs[..|runs| - 1] + [run];
    }
  }

  lemma NoteIsNote(run: Run, stamp: Stamp)
    requires run.count > 1
    ensures |LinesOf(run, stamp)| == 2 && LinesOf(run, stamp)[0] == run.first
    ensures IsNote(LinesOf(run, stamp)[1]) && CountOf(LinesOf(run, stamp)[1]) == run.count - 1
  {
    hide Note;
    var line := LinesOf(run, stamp)[1];
    assert NoteOf(line, run.count - 1);
    OneCount(line, CountOf(line), run.count - 1);
  }

  lemma {:induction false} ShownStarts(runs: seq<Run>, stamp: Stamp)
    requires runs != []
    ensures Shown(runs, stamp) != [] && Shown(runs, stamp)[0] == runs[0].first
  {
    assert runs == [runs[0]] + runs[1..];
    ShownFront(runs[0], runs[1..], stamp);
  }

  /** Reading the longest runs gives them back exactly when the reader is right about them. */
  lemma {:induction false} RunsReadBack(runs: seq<Run>, stamp: Stamp)
    requires Maximal(runs, stamp) && forall i | 0 <= i < |runs| :: runs[i].count > 0
    ensures Read(Shown(runs, stamp), stamp) == Unfolded(runs, stamp) <==> ClearRuns(runs)
  {
    hide KeyOf, IsNote, Shown, LinesOf;
    if runs == [] {
      NoRuns(stamp);
    } else {
      var run, more := runs[0], runs[1..];
      var key, shown := KeyOf(run.first, stamp), Shown(runs, stamp);
      assert runs == [run] + more;
      ShownFront(run, more, stamp);
      RunsReadBack(more, stamp);
      ClearFront(runs);
      if run.count > 1 {
        NoteIsNote(run, stamp);
        assert shown[2..] == Shown(more, stamp);
        SamePrefix(Times(key, run.count), Read(Shown(more, stamp), stamp), Unfolded(more, stamp));
      } else {
        LoneLine(run, stamp);
        if more == [] {
          NoRuns(stamp);
          assert shown[1..] == [];
        } else {
          ShownStarts(more, stamp);
          if IsNote(more[0].first) {
            assert Read(shown, stamp)[1] == key;
            assert Unfolded(runs, stamp)[1] == Unfolded(more, stamp)[0] == KeyOf(more[0].first, stamp);
          } else {
            assert shown[1..] == Shown(more, stamp);
            SamePrefix(Times(key, 1), Read(Shown(more, stamp), stamp), Unfolded(more, stamp));
          }
        }
      }
    }
  }

  lemma LoneLine(run: Run, stamp: Stamp)
    requires run.count == 1
    ensures LinesOf(run, stamp) == [run.first]
  {
  }

  lemma SamePrefix<T>(front: seq<T>, a: seq<T>, b: seq<T>)
    ensures front + a == front + b <==> a == b
  {
    if front + a == front + b { assert a == (front + a)[|front|..] && b == (front + b)[|front|..]; }
  }

  lemma ClearFront(runs: seq<Run>)
    requires runs != []
    ensures ClearRuns(runs) <==> ClearRuns(runs[1..]) && (|runs| > 1 && IsNote(runs[1].first) ==> runs[0].count > 1)
  {
    hide IsNote;
    var more := runs[1..];
    assert forall i :: 0 <= i < |more| ==> more[i] == runs[i + 1];
    if ClearRuns(more) && (|runs| > 1 && IsNote(runs[1].first) ==> runs[0].count > 1) {
      forall i | 0 < i < |runs| && IsNote(runs[i].first) ensures runs[i - 1].count > 1 {
        if i > 1 { assert more[i - 1] == runs[i]; }
      }
    }
    if ClearRuns(runs) {
      forall i | 0 < i < |more| && IsNote(more[i].first) ensures more[i - 1].count > 1 {
        assert more[i] == runs[i + 1];
      }
    }
  }

  /** What is clear of the runs is clear of the lines. */
  lemma {:induction false} ClearLines(runs: seq<Run>, lines: seq<string>, stamp: Stamp)
    requires Splits(runs, lines, stamp) && Maximal(runs, stamp)
    ensures Clear(lines, stamp) <==> ClearRuns(runs)
    decreases |runs|
  {
    hide KeyOf, IsNote;
    if runs != [] {
      var n, run := |runs| - 1, runs[|runs| - 1];
      var low := |lines| - run.count;
      ClearLines(runs[..n], lines[..low], stamp);
      assert forall i :: 0 <= i < low ==> lines[..low][i] == lines[i];
      assert Clear(lines, stamp) <==> Clear(lines[..low], stamp) && ClearAt(lines, low, stamp) by {
        assert forall i | low < i < |lines| :: KeyOf(lines[i - 1], stamp) == KeyOf(lines[i], stamp);
        ClearSplits(lines, low, stamp);
      }
      assert ClearRuns(runs) <==> ClearRuns(runs[..n]) && (n > 0 && IsNote(run.first) ==> runs[n - 1].count > 1);
      if n > 0 {
        KeyChanges(runs, lines, stamp);
        LastButOne(runs[..n], lines[..low], stamp);
      }
    }
  }

  lemma ClearSplits(lines: seq<string>, low: nat, stamp: Stamp)
    requires low < |lines| && forall i | low < i < |lines| :: KeyOf(lines[i - 1], stamp) == KeyOf(lines[i], stamp)
    ensures Clear(lines, stamp) <==> Clear(lines[..low], stamp) && ClearAt(lines, low, stamp)
  {
    hide KeyOf, IsNote;
    var before := lines[..low];
    assert forall i | 0 <= i < low :: ClearAt(before, i, stamp) <==> ClearAt(lines, i, stamp);
    assert forall i | low < i < |lines| :: ClearAt(lines, i, stamp);
  }

  /** The last run has more than one line exactly when the last two lines have one key. */
  lemma LastButOne(runs: seq<Run>, lines: seq<string>, stamp: Stamp)
    requires runs != [] && Splits(runs, lines, stamp) && Maximal(runs, stamp)
    ensures runs[|runs| - 1].count > 1 <==>
              |lines| > 1 && KeyOf(lines[|lines| - 2], stamp) == KeyOf(lines[|lines| - 1], stamp)
  {
    hide KeyOf;
    if runs[|runs| - 1].count > 1 {
      KeyStays(runs, lines, 1, stamp);
    } else if |runs| > 1 {
      KeyChanges(runs, lines, stamp);
    }
  }

  lemma {:induction false} TrimmedIsPart(text: string)
    ensures forall c | c in Trim(text) :: c in text
  {
    TrimmedStart(text);
    TrimmedEnd(TrimStart(text));
  }

  lemma {:induction false} TrimmedStart(text: string)
    ensures forall c | c in TrimStart(text) :: c in text
  {
    if text != "" && IsWhite(text[0]) { TrimmedStart(text[1..]); }
  }

  lemma {:induction false} TrimmedEnd(text: string)
    ensures forall c | c in TrimEnd(text) :: c in text
  {
    if text != "" && IsWhite(text[|text| - 1]) { TrimmedEnd(text[..|text| - 1]); }
  }

  lemma NoteIsOneLine(run: Run, stamp: Stamp)
    requires OneLine(run.first) && OneLine(run.last)
    ensures forall i | 0 <= i < |LinesOf(run, stamp)| :: OneLine(LinesOf(run, stamp)[i])
  {
    hide Digits, Trim;
    var a, b := Stamped(run.first, stamp), Stamped(run.last, stamp);
    if a.Some? { TrimmedIsPart(a.value.0); }
    if b.Some? { TrimmedIsPart(b.value.0); }
    if run.count > 1 { assert forall c | c in Digits(run.count - 1) :: IsDigit(c); }
  }

  lemma {:induction false} ShownAreLines(runs: seq<Run>, lines: seq<string>, stamp: Stamp)
    requires Splits(runs, lines, stamp) && forall i | 0 <= i < |lines| :: OneLine(lines[i])
    ensures forall i | 0 <= i < |Shown(runs, stamp)| :: OneLine(Shown(runs, stamp)[i])
    decreases |runs|
  {
    hide LinesOf, OneLine, KeyOf;
    if runs != [] {
      var run := runs[|runs| - 1];
      ShownAreLines(runs[..|runs| - 1], lines[..|lines| - run.count], stamp);
      NoteIsOneLine(run, stamp);
    }
  }

  /** From the output a reader gets the rest of the text and, in order, the keys of all its lines,
      exactly when no line of the text that looks like a note ends a run of a single line. */
  lemma KeysReadBack(text: string, stamp: Stamp, output: string, collapsed: nat)
    requires Collapses(text, stamp, output, collapsed)
    ensures Parts(output).1 == Parts(text).1
    ensures Read(Parts(output).0, stamp) == Keys(Parts(text).0, stamp) <==> Clear(Parts(text).0, stamp)
  {
    hide Splits, Maximal, Shown, Joined, Parts, Read, Keys, Clear, ClearRuns, OneLine;
    var (lines, rest) := Parts(text);
    var runs: seq<Run> :| Splits(runs, lines, stamp) && Maximal(runs, stamp)
    && output == Joined(Shown(runs, stamp)) + rest;
    PartsJoin(text);
    ShownAreLines(runs, lines, stamp);
    PartsOfJoined(Shown(runs, stamp), rest);
    KeysOfRuns(runs, lines, stamp);
    RunsReadBack(runs, stamp);
    ClearLines(runs, lines, stamp);
  }

  /** So two texts the reader is right about are told apart by their output, as far as keys go. */
  lemma ClearTextsTold(a: string, b: string, stamp: Stamp, output: string, m: nat, n: nat)
    requires Collapses(a, stamp, output, m) && Clear(Parts(a).0, stamp)
    requires Collapses(b, stamp, output, n) && Clear(Parts(b).0, stamp)
    ensures Keys(Parts(a).0, stamp) == Keys(Parts(b).0, stamp) && Parts(a).1 == Parts(b).1
  {
    hide Parts, Collapses, Clear, Read;
    KeysReadBack(a, stamp, output, m);
    KeysReadBack(b, stamp, output, n);
  }

  lemma CollapsesBy(lines: seq<string>, stamp: Stamp, runs: seq<Run>, collapsed: nat)
    requires collapsed + |runs| == |lines| && Splits(runs, lines, stamp) && Maximal(runs, stamp)
             && forall i | 0 <= i < |lines| :: OneLine(lines[i])
    ensures Collapses(Joined(lines), stamp, Joined(Shown(runs, stamp)), collapsed) && Parts(Joined(lines)).0 == lines
  {
    hide Splits, Maximal, Shown, Joined, Parts;
    PartsOfJoined(lines, "");
    assert Joined(lines) + "" == Joined(lines);
    assert Joined(Shown(runs, stamp)) + "" == Joined(Shown(runs, stamp));
  }

  lemma Unstamped(stamp: Stamp, line: string)
    requires forall l :: stamp(l) == 0
    ensures LinesOf(Run(line, line, 1), stamp) == [line] && LinesOf(Run(line, line, 2), stamp) == [line, Note(1, None)]
    ensures KeyOf(line, stamp) == Whole(line)
  {
    hide Note;
  }

  lemma AddBlock(runs: seq<Run>, before: seq<string>, output: seq<string>, run: Run, lines: seq<string>,
                 block: seq<string>, stamp: Stamp)
    returns (more: seq<Run>, shown: seq<string>)
    requires Splits(runs, before, stamp) && Maximal(runs, stamp) && Shown(runs, stamp) == output
             && LinesOf(run, stamp) == block
    requires run.count > 0 && run.first == run.last && lines == before + seq(run.count, _ => run.first)
    requires runs != [] ==> KeyOf(runs[|runs| - 1].first, stamp) != KeyOf(run.first, stamp)
    ensures more == runs + [run] && shown == output + block
    ensures Splits(more, lines, stamp) && Maximal(more, stamp) && Shown(more, stamp) == shown
  {
    hide LinesOf, KeyOf, Shown;
    more, shown := runs + [run], output + block;
    assert lines[..|before|] == before;
    SplitsPush(runs, run, lines, |before|, stamp);
  }

  /** Two texts of three runs each. */
  lemma ThreeRuns(x: string, m: nat, y: string, n: nat, z: string, k: nat, lines: seq<string>, output: seq<string>,
                  stamp: Stamp)
    requires (forall l :: stamp(l) == 0) && m in {1, 2} && n in {1, 2} && k in {1, 2}
    requires x != y && y != z && OneLine(x) && OneLine(y) && OneLine(z)
    requires lines == seq(m, _ => x) + seq(n, _ => y) + seq(k, _ => z)
    requires output == LinesOf(Run(x, x, m), stamp) + LinesOf(Run(y, y, n), stamp) + LinesOf(Run(z, z, k), stamp)
    ensures Parts(Joined(lines)).0 == lines && Collapses(Joined(lines), stamp, Joined(output), m + n + k - 3)
  {
    hide Splits, Maximal, Shown, Joined, Parts, Collapses, LinesOf, KeyOf, IsRun, OneLine;
    NoRuns(stamp);
    Unstamped(stamp, x);
    Unstamped(stamp, y);
    Unstamped(stamp, z);
    var r, one := AddBlock([], [], [], Run(x, x, m), seq(m, _ => x), LinesOf(Run(x, x, m), stamp), stamp);
    var s, two := AddBlock(r, seq(m, _ => x), one, Run(y, y, n), seq(m, _ => x) + seq(n, _ => y),
                           LinesOf(Run(y, y, n), stamp), stamp);
    var t, three := AddBlock(s, seq(m, _ => x) + seq(n, _ => y), two, Run(z, z, k), lines,
                             LinesOf(Run(z, z, k), stamp), stamp);
    assert three == output;
    CollapsesBy(lines, stamp, t, m + n + k - 3);
  }

  /** Otherwise two texts with different keys may be shown alike, with one count: a note is a line of text. */
  lemma NotesMislead(stamp: Stamp, note: string, a: seq<string>, b: seq<string>, output: string)
    requires (forall line :: stamp(line) == 0) && note == Note(1, None)
    requires a == ["a", "a", "b", note] && b == ["a", note, "b", "b"] && output == Joined(["a", note, "b", note])
    ensures Collapses(Joined(a), stamp, output, 1) && Collapses(Joined(b), stamp, output, 1)
    ensures Parts(Joined(a)).0 == a && Parts(Joined(b)).0 == b && Keys(a, stamp) != Keys(b, stamp)
    ensures !Clear(a, stamp) && !Clear(b, stamp)
  {
    hide Joined, Parts, Collapses, LinesOf, KeyOf, IsNote;
    assert note[0] == '[' && OneLine(note);
    Unstamped(stamp, "a");
    Unstamped(stamp, "b");
    Unstamped(stamp, note);
    ThreeRuns("a", 2, "b", 1, note, 1, a, ["a", note, "b", note], stamp);
    ThreeRuns("a", 1, note, 1, "b", 2, b, ["a", note, "b", note], stamp);
    assert NoteOf(note, 1) && IsNote(note) by { NotesAre(1); }
    assert !ClearAt(a, 3, stamp) && !ClearAt(b, 1, stamp);
    assert Keys(a, stamp)[1] != Keys(b, stamp)[1];
  }

  lemma NotesAre(n: nat)
    requires n > 0
    ensures NoteOf(Note(n, None), n) && IsNote(Note(n, None))
  {
    hide Note;
    assert NoteOf(Note(n, None), n);
  }
}
