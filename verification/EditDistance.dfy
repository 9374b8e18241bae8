/** The banded edit-distance test of crates/serial-mcp/src/capture.rs against edit scripts. */
module EditDistance {
  type byte = b: int | 0 <= b < 256

  function Min(a: nat, b: nat): nat {
    if a <= b then a else b
  }

  // ---------- what an edit distance is ----------

  datatype Edit = Keep | Replace(with: byte) | Insert(inserted: byte) | Delete

  /** `script` turns `left` into `right`. */
  predicate Turns(script: seq<Edit>, left: seq<byte>, right: seq<byte>) {
    if script == [] then left == [] && right == []
    else match script[0]
      case Keep => left != [] && right != [] && left[0] == right[0] && Turns(script[1..], left[1..], right[1..])
      case Replace(b) => left != [] && right != [] && right[0] == b && Turns(script[1..], left[1..], right[1..])
      case Insert(b) => right != [] && right[0] == b && Turns(script[1..], left, right[1..])
      case Delete => left != [] && Turns(script[1..], left[1..], right)
  }

  function Cost(script: seq<Edit>): nat {
    if script == [] then 0 else (if script[0].Keep? then 0 else 1) + Cost(script[1..])
  }

  /** Some script of at most `k` edits turns `left` into `right`. */
  ghost predicate WithinEdits(left: seq<byte>, right: seq<byte>, k: nat) {
    exists script :: Turns(script, left, right) && Cost(script) <= k
  }

  // ---------- the recurrence ----------

  function Miss(left: seq<byte>, right: seq<byte>, i: nat, j: nat): nat
    requires 0 < i <= |left| && 0 < j <= |right|
  {
    if left[i - 1] == right[j - 1] then 0 else 1
  }

  /** Distance between the first `i` bytes of `left` and the first `j` of `right`. */
  function Distance(left: seq<byte>, right: seq<byte>, i: nat, j: nat): nat
    requires i <= |left| && j <= |right|
  {
    if i == 0 then j
    else if j == 0 then i
    else Min(Distance(left, right, i - 1, j - 1) + Miss(left, right, i, j),
             Min(Distance(left, right, i - 1, j) + 1, Distance(left, right, i, j - 1) + 1))
  }

  lemma {:induction false} DistanceAtLeastGap(left: seq<byte>, right: seq<byte>, i: nat, j: nat)
    requires i <= |left| && j <= |right|
    ensures Distance(left, right, i, j) + j >= i && Distance(left, right, i, j) + i >= j
    decreases i + j
  {
    hide Distance;
    DistanceCases(left, right, i, j);
    if i > 0 && j > 0 {
      DistanceAtLeastGap(left, right, i - 1, j - 1);
      DistanceAtLeastGap(left, right, i - 1, j);
      DistanceAtLeastGap(left, right, i, j - 1);
    }
  }

  // ---------- the recurrence computes the cheapest script ----------

  lemma {:induction false} AppendEdit(script: seq<Edit>, last: Edit, left: seq<byte>, right: seq<byte>,
                                      left1: seq<byte>, right1: seq<byte>)
    requires Turns(script, left, right) && Turns([last], left1, right1)
    ensures Turns(script + [last], left + left1, right + right1)
    ensures Cost(script + [last]) == Cost(script) + Cost([last])
  {
    if script == [] {
      assert script + [last] == [last] && left + left1 == left1 && right + right1 == right1;
    } else {
      var e, rest := script[0], script[1..];
      assert (script + [last])[1..] == rest + [last];
      if e.Insert? {
        AppendEdit(rest, last, left, right[1..], left1, right1);
        assert (right + right1)[1..] == right[1..] + right1;
      } else if e.Delete? {
        AppendEdit(rest, last, left[1..], right, left1, right1);
        assert (left + left1)[1..] == left[1..] + left1;
      } else {
        AppendEdit(rest, last, left[1..], right[1..], left1, right1);
        assert (left + left1)[1..] == left[1..] + left1 && (right + right1)[1..] == right[1..] + right1;
      }
    }
  }

  lemma OneEdit(e: Edit, left: seq<byte>, right: seq<byte>)
    requires match e
             case Keep => |left| == 1 && left == right
             case Replace(b) => |left| == 1 && right == [b]
             case Insert(b) => left == [] && right == [b]
             case Delete => |left| == 1 && right == []
    ensures Turns([e], left, right) && Cost([e]) == if e.Keep? then 0 else 1
  {
    assert [e][1..] == [];
    assert Turns([], [], []) && Cost([]) == 0;
  }

  lemma NoEdits()
    ensures Turns([], [], []) && Cost([]) == 0
  {
  }

  lemma DistanceCases(left: seq<byte>, right: seq<byte>, i: nat, j: nat)
    requires i <= |left| && j <= |right|
    ensures i == 0 ==> Distance(left, right, i, j) == j
    ensures j == 0 ==> Distance(left, right, i, j) == i
    ensures i > 0 && j > 0 ==>
              Distance(left, right, i, j) ==
              Min(Distance(left, right, i - 1, j - 1) + Miss(left, right, i, j),
                  Min(Distance(left, right, i - 1, j) + 1, Distance(left, right, i, j - 1) + 1))
    ensures i > 0 && j == 0 ==> Distance(left, right, i, j) == Distance(left, right, i - 1, j) + 1
    ensures j > 0 && i == 0 ==> Distance(left, right, i, j) == Distance(left, right, i, j - 1) + 1
  {
    if i > 0 && j > 0 { DistanceInside(left, right, i, j); }
  }

  lemma DistanceInside(left: seq<byte>, right: seq<byte>, i: nat, j: nat)
    requires 0 < i <= |left| && 0 < j <= |right|
    ensures Distance(left, right, i, j) ==
            Min(Distance(left, right, i - 1, j - 1) + Miss(left, right, i, j),
                Min(Distance(left, right, i - 1, j) + 1, Distance(left, right, i, j - 1) + 1))
  {
  }

  /** The recurrence is reached by a script. */
  lemma {:induction false} ScriptReaches(left: seq<byte>, right: seq<byte>, i: nat, j: nat) returns (script: seq<Edit>)
    requires i <= |left| && j <= |right|
    ensures Turns(script, left[..i], right[..j]) && Cost(script) == Distance(left, right, i, j)
    decreases i + j
  {
    hide Distance, Turns, Cost;
    DistanceCases(left, right, i, j);
    if i == 0 && j == 0 {
      script := [];
      NoEdits();
    } else if i > 0 && (j == 0 || Distance(left, right, i, j) == Distance(left, right, i - 1, j) + 1) {
      var rest := ScriptReaches(left, right, i - 1, j);
      OneEdit(Delete, [left[i - 1]], []);
      AppendEdit(rest, Delete, left[..i - 1], right[..j], [left[i - 1]], []);
      assert left[..i - 1] + [left[i - 1]] == left[..i] && right[..j] + [] == right[..j];
      script := rest + [Delete];
    } else if j > 0 && (i == 0 || Distance(left, right, i, j) == Distance(left, right, i, j - 1) + 1) {
      var rest := ScriptReaches(left, right, i, j - 1);
      var last := Insert(right[j - 1]);
      OneEdit(last, [], [right[j - 1]]);
      AppendEdit(rest, last, left[..i], right[..j - 1], [], [right[j - 1]]);
      assert right[..j - 1] + [right[j - 1]] == right[..j] && left[..i] + [] == left[..i];
      script := rest + [last];
    } else {
      var rest := ScriptReaches(left, right, i - 1, j - 1);
      var last := if left[i - 1] == right[j - 1] then Keep else Replace(right[j - 1]);
      OneEdit(last, [left[i - 1]], [right[j - 1]]);
      AppendEdit(rest, last, left[..i - 1], right[..j - 1], [left[i - 1]], [right[j - 1]]);
      assert left[..i - 1] + [left[i - 1]] == left[..i] && right[..j - 1] + [right[j - 1]] == right[..j];
      script := rest + [last];
    }
  }

  /** Every row of the recurrence moves by at most one per step, so an edit never overpays. */
  lemma {:induction false} StepsAreSmall(left: seq<byte>, right: seq<byte>, i: nat, j: nat)
    requires i <= |left| && j <= |right|
    ensures i < |left| ==> Distance(left, right, i + 1, j) <= Distance(left, right, i, j) + 1
    ensures j < |right| ==> Distance(left, right, i, j + 1) <= Distance(left, right, i, j) + 1
    ensures i < |left| && j < |right| ==>
              Distance(left, right, i + 1, j + 1) <= Distance(left, right, i, j) + Miss(left, right, i + 1, j + 1)
  {
  }

  /** No script that continues a prefix is cheaper than the recurrence. */
  lemma {:induction false} ScriptPays(left: seq<byte>, right: seq<byte>, i: nat, j: nat, script: seq<Edit>)
    requires i <= |left| && j <= |right| && Turns(script, left[i..], right[j..])
    ensures Distance(left, right, |left|, |right|) <= Distance(left, right, i, j) + Cost(script)
    decreases |script|
  {
    hide Distance;
    if script == [] {
      assert i == |left| && j == |right|;
    } else {
      StepsAreSmall(left, right, i, j);
      var rest := script[1..];
      if script[0].Insert? {
        assert right[j..][1..] == right[j + 1..];
        ScriptPays(left, right, i, j + 1, rest);
      } else if script[0].Delete? {
        assert left[i..][1..] == left[i + 1..];
        ScriptPays(left, right, i + 1, j, rest);
      } else {
        assert left[i..][1..] == left[i + 1..] && right[j..][1..] == right[j + 1..];
        assert left[i..][0] == left[i] && right[j..][0] == right[j];
        ScriptPays(left, right, i + 1, j + 1, rest);
      }
    }
  }

  /** The recurrence is the cheapest script: at most `k` exactly when some script of `k` edits exists. */
  lemma DistanceIsCheapest(left: seq<byte>, right: seq<byte>, k: nat)
    ensures Distance(left, right, |left|, |right|) <= k <==> WithinEdits(left, right, k)
  {
    hide Distance;
    var cheapest := ScriptReaches(left, right, |left|, |right|);
    assert left[..|left|] == left && right[..|right|] == right;
    DistanceCases(left, right, 0, 0);
    forall script | Turns(script, left, right) ensures Distance(left, right, |left|, |right|) <= Cost(script) {
      assert left[0..] == left && right[0..] == right;
      ScriptPays(left, right, 0, 0, script);
    }
  }

  // ---------- the banded rows ----------

  /** The cells of row `i` the algorithm relies on: the band, widened by one on each side. */
  predicate InBand(i: nat, j: nat, k: nat) {
    j <= i + k + 1 && i <= j + k + 1
  }

  /** A cell and the true distance agree as far as `k` can tell. */
  predicate Agrees(cell: nat, distance: nat, k: nat) {
    Min(cell, k + 1) == Min(distance, k + 1)
  }

  ghost predicate RowAgrees(row: array<nat>, left: seq<byte>, right: seq<byte>, i: nat, k: nat)
    reads row
  {
    && i <= |left| && row.Length == |right| + 1
    && forall j: nat :: j <= |right| && InBand(i, j, k) ==> Agrees(row[j], Distance(left, right, i, j), k)
  }

  /** One cell of the recurrence, computed from cells that only agree. */
  lemma CellAgrees(left: seq<byte>, right: seq<byte>, i: nat, j: nat, k: nat, diagonal: nat, above: nat, before: nat)
    requires 0 < i <= |left| && 0 < j <= |right|
    requires Agrees(diagonal, Distance(left, right, i - 1, j - 1), k)
    requires Agrees(above, Distance(left, right, i - 1, j), k)
    requires Agrees(before, Distance(left, right, i, j - 1), k)
    ensures Agrees(Min(diagonal + Miss(left, right, i, j), Min(above + 1, before + 1)), Distance(left, right, i, j), k)
  {
    hide Distance;
    DistanceCases(left, right, i, j);
  }

  lemma EdgeAgrees(left: seq<byte>, right: seq<byte>, i: nat, j: nat, k: nat)
    requires i <= |left| && j <= |right|
    ensures j == 0 ==> Distance(left, right, i, j) == i
    ensures i == 0 ==> Distance(left, right, i, j) == j
    ensures (j >= i + k + 1 || i >= j + k + 1) ==> Agrees(k + 1, Distance(left, right, i, j), k)
  {
    hide Distance;
    DistanceCases(left, right, i, j);
    DistanceAtLeastGap(left, right, i, j);
  }

  /** `edit_distance_within`: two rows, reused, of which only the band and its edge cells are written. */
  method EditDistanceWithin(left: seq<byte>, right: seq<byte>, maxEdits: nat) returns (r: bool)
    ensures r <==> WithinEdits(left, right, maxEdits)
  {
    hide Distance, WithinEdits;
    DistanceIsCheapest(left, right, maxEdits);
    DistanceAtLeastGap(left, right, |left|, |right|);
    if |left| > |right| + maxEdits || |right| > |left| + maxEdits { return false; }
    var infinity := maxEdits + 1;
    var previous := new nat[|right| + 1](_ => infinity);
    var current := new nat[|right| + 1](_ => infinity);
    FirstRow(previous, left, right, maxEdits);
    for i := 1 to |left| + 1
      invariant fresh(previous) && fresh(current) && previous != current && current.Length == |right| + 1
      invariant RowAgrees(previous, left, right, i - 1, maxEdits)
    {
      NextRow(previous, current, left, right, i, maxEdits);
      previous, current := current, previous;
    }
    return previous[|right|] <= maxEdits;
  }

  method FirstRow(row: array<nat>, left: seq<byte>, right: seq<byte>, k: nat)
    requires row.Length == |right| + 1 && forall j :: 0 <= j < row.Length ==> row[j] == k + 1
    modifies row
    ensures RowAgrees(row, left, right, 0, k)
  {
    hide Distance;
    for j := 0 to Min(|right|, k) + 1
      invariant forall m :: 0 <= m < row.Length ==> row[m] == if m < j then m else k + 1
    {
      row[j] := j;
    }
    forall j: nat | j <= |right| && InBand(0, j, k) ensures Agrees(row[j], Distance(left, right, 0, j), k) {
      EdgeAgrees(left, right, 0, j, k);
    }
  }

  method NextRow(previous: array<nat>, current: array<nat>, left: seq<byte>, right: seq<byte>, i: nat, k: nat)
    requires 0 < i <= |left| && previous != current && current.Length == |right| + 1 && |left| <= |right| + k
    requires RowAgrees(previous, left, right, i - 1, k)
    modifies current
    ensures RowAgrees(current, left, right, i, k)
  {
    hide Distance, Agrees;
    var bandStart := if i <= k then 0 else i - k;
    var bandEnd := Min(|right|, i + k);
    if bandStart == 0 {
      current[0] := i;
      EdgeAgrees(left, right, i, 0, k);
      assert Agrees(i, i, k) by { Same(i, k); }
    } else {
      current[bandStart - 1] := k + 1;
      EdgeAgrees(left, right, i, bandStart - 1, k);
    }
    var first := if bandStart == 0 then 1 else bandStart;
    for j := first to bandEnd + 1
      invariant forall m: nat :: InBand(i, m, k) && m < j ==> Agrees(current[m], Distance(left, right, i, m), k)
    {
      var substitution := previous[j - 1] + if left[i - 1] == right[j - 1] then 0 else 1;
      var deletion := previous[j] + 1;
      var insertion := current[j - 1] + 1;
      CellAgrees(left, right, i, j, k, previous[j - 1], previous[j], current[j - 1]);
      current[j] := Min(Min(substitution, deletion), insertion);
    }
    if bandEnd < |right| {
      current[bandEnd + 1] := k + 1;
      EdgeAgrees(left, right, i, bandEnd + 1, k);
    }
  }

  lemma Same(n: nat, k: nat)
    ensures Agrees(n, n, k)
  {
  }
}
