/** The tracker that holds back, trims or releases what arrives after a command was written
    (`CommandBoundaryTracker`, crates/serial-mcp/src/capture.rs). */
module BoundaryTracker {
  import opened Wrappers
  import opened EditDistance
  import opened EchoMatch
  import opened EchoFallback

  datatype Direction = Rx | Tx | NoDirection

  datatype Event = Event(seqNo: nat, direction: Direction, operation: Option<nat>, data: seq<byte>, start: Option<nat>,
                         end: Option<nat>)

  datatype Boundary = Boundary(txSeq: nat, operation: nat, expectedEcho: Option<seq<byte>>)

  datatype CaptureLimits = CaptureLimits(maxBytes: nat, maxEvents: nat)

  /** Events for the caller, and the bytes the completion matcher sees: added to what it saw before,
      or in its place when `resetMatching`. */
  datatype AcceptedEvents = AcceptedEvents(events: seq<Event>, matchingRx: seq<byte>, observedQuietActivity: bool,
                                           resetMatching: bool)

  function Single(event: Event): AcceptedEvents {
    AcceptedEvents([event], if event.direction.Rx? then event.data else [], event.direction.Rx?, false)
  }

  const NOTHING := AcceptedEvents([], [], false, false)

  function PendingRx(view: seq<byte>): AcceptedEvents {
    AcceptedEvents([], view, view != [], true)
  }

  function AfterEcho(events: seq<Event>): AcceptedEvents {
    AcceptedEvents(events, RxBytes(events), RxBytes(events) != [], true)
  }

  function AfterRetainedEcho(events: seq<Event>, matching: seq<byte>): AcceptedEvents {
    AcceptedEvents(events, matching, matching != [], true)
  }

  datatype Activity = Activity(firstSeq: Option<nat>, throughSeq: Option<nat>, events: nat, rxEvents: nat,
                               rxBytes: nat, txEvents: nat)

  const NO_ACTIVITY := Activity(None, None, 0, 0, 0, 0)

  function Observe(a: Activity, event: Event): Activity {
    var b := a.(firstSeq := if a.firstSeq.None? then Some(event.seqNo) else a.firstSeq, throughSeq :=
                Some(event.seqNo), events := a.events + 1);
    match event.direction
    case Rx => b.(rxEvents := a.rxEvents + 1, rxBytes := a.rxBytes + |event.data|)
    case Tx => b.(txEvents := a.txEvents + 1)
    case NoDirection => b
  }

  // ---------- what a list of events carries ----------

  /** The received bytes of `events`, in order. */
  function RxBytes(events: seq<Event>): seq<byte> {
    if events == [] then []
    else (if events[0].direction.Rx? then events[0].data else []) + RxBytes(events[1..])
  }

  /** What an event costs: its bytes and a fixed 256. */
  function Weight(events: seq<Event>): nat {
    if events == [] then 0 else |events[0].data| + 256 + Weight(events[1..])
  }

  lemma {:induction false} BytesAppend(a: seq<Event>, b: seq<Event>)
    ensures RxBytes(a + b) == RxBytes(a) + RxBytes(b) && Weight(a + b) == Weight(a) + Weight(b)
  {
    if a == [] {
      assert a + b == b;
    } else {
      assert (a + b)[1..] == a[1..] + b;
      BytesAppend(a[1..], b);
      var first := if a[0].direction.Rx? then a[0].data else [];
      assert first + (RxBytes(a[1..]) + RxBytes(b)) == (first + RxBytes(a[1..])) + RxBytes(b);
    }
  }

  /** Events after the command's own TX event. */
  function Later(events: seq<Event>, txSeq: nat): seq<Event> {
    if events == [] then []
    else (if events[0].seqNo > txSeq then [events[0]] else []) + Later(events[1..], txSeq)
  }

  /** Events that are not output of the command: before its TX event, or in that event's place. */
  function Earlier(events: seq<Event>, b: Boundary): seq<Event> {
    if events == [] then []
    else Earlier(events[..|events| - 1], b) + if IsPrewrite(events[|events| - 1], b) then [events[|events| - 1]] else []
  }

  predicate IsAudit(event: Event, b: Boundary) {
    event.seqNo == b.txSeq && event.direction.Tx? && event.operation == Some(b.operation)
  }

  predicate IsPrewrite(event: Event, b: Boundary) {
    event.seqNo <= b.txSeq && !IsAudit(event, b)
  }

  function Summary(events: seq<Event>): Activity {
    if events == [] then NO_ACTIVITY else Observe(Summary(events[..|events| - 1]), events[|events| - 1])
  }

  function CountOf(events: seq<Event>, direction: Direction): nat {
    if events == [] then 0
    else CountOf(events[..|events| - 1], direction) + if events[|events| - 1].direction == direction then 1 else 0
  }

  /** The summary of a list of events: how many there are, each way, how many bytes were received, and the
      first and last sequence number. */
  lemma {:induction false} SummaryCounts(events: seq<Event>)
    ensures var a := Summary(events);
            && a.events == |events| && a.rxEvents == CountOf(events, Rx) && a.txEvents == CountOf(events, Tx)
            && a.rxBytes == |RxBytes(events)|
            && (if events == [] then a.firstSeq == None && a.throughSeq == None
                else a.firstSeq == Some(events[0].seqNo) && a.throughSeq == Some(events[|events| - 1].seqNo))
  {
    if events != [] {
      var front, last := events[..|events| - 1], events[|events| - 1];
      SummaryCounts(front);
      assert events == front + [last];
      BytesAppend(front, [last]);
      assert RxBytes([last]) == (if last.direction.Rx? then last.data else []) + RxBytes([]);
    }
  }

  predicate IsForeign(event: Event, b: Boundary) {
    event.direction.Tx? && event.operation != Some(b.operation)
  }

  lemma {:induction false} LaterAppend(events: seq<Event>, e: Event, txSeq: nat)
    ensures Later(events + [e], txSeq) == Later(events, txSeq) + if e.seqNo > txSeq then [e] else []
  {
    if events == [] {
      assert [] + [e] == [e] && [e][1..] == [];
      assert Later([e], txSeq) == (if e.seqNo > txSeq then [e] else []) + Later([], txSeq);
    } else {
      assert (events + [e])[1..] == events[1..] + [e];
      LaterAppend(events[1..], e, txSeq);
    }
  }

  // ---------- trimming ----------

  function Trim(event: Event, n: nat): Event
    requires n <= |event.data|
  {
    event.(data := event.data[n..], start := if event.start.Some? then Some(event.start.value + n) else None)
  }

  /** Whether the stream offsets, where present, span the data. */
  predicate Consistent(event: Event) {
    event.start.Some? && event.end.Some? ==> event.start.value + |event.data| == event.end.value
  }

  predicate AllConsistent(events: seq<Event>) {
    forall i :: 0 <= i < |events| ==> Consistent(events[i])
  }

  predicate AllHeld(events: seq<Event>, txSeq: nat) {
    forall i :: 0 <= i < |events| ==> events[i].direction.Rx? && events[i].seqNo > txSeq
  }

  /** The events without their first `n` bytes. */
  function DropBytes(events: seq<Event>, n: nat): seq<Event> {
    if events == [] then []
    else if n >= |events[0].data| then DropBytes(events[1..], n - |events[0].data|)
    else if n > 0 then [Trim(events[0], n)] + events[1..]
    else events
  }

  predicate AllLater(events: seq<Event>, txSeq: nat) {
    forall i :: 0 <= i < |events| ==> events[i].seqNo > txSeq
  }

  lemma LaterJoin(a: seq<Event>, b: seq<Event>, txSeq: nat)
    requires AllLater(a, txSeq) && AllHeld(b, txSeq)
    ensures AllLater(a + b, txSeq)
  {
  }

  lemma LaterOne(a: seq<Event>, e: Event, txSeq: nat)
    requires AllLater(a, txSeq) && e.seqNo > txSeq
    ensures AllLater(a + [e], txSeq)
  {
  }

  lemma AllAppend(events: seq<Event>, e: Event, txSeq: nat)
    ensures AllConsistent(events + [e]) <==> AllConsistent(events) && Consistent(e)
    ensures AllHeld(events + [e], txSeq) <==> AllHeld(events, txSeq) && e.direction.Rx? && e.seqNo > txSeq
  {
    hide Consistent;
    var all := events + [e];
    assert all[|events|] == e;
    assert forall i :: 0 <= i < |events| ==> all[i] == events[i];
  }

  lemma AllJoin(a: seq<Event>, b: seq<Event>)
    requires AllConsistent(a) && AllConsistent(b)
    ensures AllConsistent(a + b)
  {
    hide Consistent;
  }

  lemma AllTail(events: seq<Event>, txSeq: nat)
    requires events != []
    ensures AllConsistent(events) ==> AllConsistent(events[1..])
    ensures AllHeld(events, txSeq) ==> AllHeld(events[1..], txSeq) && events[0].direction.Rx?
    ensures Weight(events) == |events[0].data| + 256 + Weight(events[1..])
  {
    hide Consistent;
  }

  /** How many events lose bytes, or are empty and in the way. */
  function Touched(events: seq<Event>, n: nat): nat {
    if events == [] then 0
    else if n >= |events[0].data| then 1 + Touched(events[1..], n - |events[0].data|)
    else if n > 0 then 1
    else 0
  }

  lemma {:induction false} DroppedBytes(events: seq<Event>, n: nat, txSeq: nat)
    requires AllHeld(events, txSeq) && n <= |RxBytes(events)|
    ensures RxBytes(DropBytes(events, n)) == RxBytes(events)[n..]
    ensures AllHeld(DropBytes(events, n), txSeq)
    ensures AllConsistent(events) ==> AllConsistent(DropBytes(events, n))
    ensures Weight(DropBytes(events, n)) <= Weight(events) && |DropBytes(events, n)| <= |events|
  {
    if events != [] {
      var first, rest := events[0].data, events[1..];
      if n >= |first| {
        DroppedBytes(rest, n - |first|, txSeq);
        assert (first + RxBytes(rest))[n..] == RxBytes(rest)[n - |first|..];
      } else if n > 0 {
        var trimmed := [Trim(events[0], n)] + rest;
        assert trimmed[1..] == rest && trimmed[0] == Trim(events[0], n);
        assert (first + RxBytes(rest))[n..] == first[n..] + RxBytes(rest);
      } else {
        assert RxBytes(events)[0..] == RxBytes(events);
      }
    }
  }

  /** What is released is what was held, event by event: whole, but for the first, which may have lost its
      front, and then its offset is that of what is left. */
  lemma {:induction false} ReleasedAreHeld(events: seq<Event>, n: nat)
    ensures var released := DropBytes(events, n);
            && |released| <= |events|
            && (released != [] ==>
                  var k := |events| - |released|;
                  && released[1..] == events[k + 1..]
                  && released[0] == events[k].(data := released[0].data, start := released[0].start)
                  && |released[0].data| <= |events[k].data|
                  && var cut := |events[k].data| - |released[0].data|;
                     && released[0].data == events[k].data[cut..] && (cut > 0 ==> released[0].data != [])
                     && (if events[k].start.Some? then released[0].start == Some(events[k].start.value + cut)
                         else released[0].start == None))
  {
    if events != [] {
      if n >= |events[0].data| {
        var rest := events[1..];
        ReleasedAreHeld(rest, n - |events[0].data|);
        assert forall j :: 0 <= j <= |rest| ==> rest[j..] == events[j + 1..];
      } else {
        assert events[0].data[0..] == events[0].data;
      }
    }
  }

  /** The newest events that fit the limits. */
  function Bounded(events: seq<Event>, limits: CaptureLimits): (kept: seq<Event>)
    ensures |kept| <= |events| && kept == events[|events| - |kept|..]
    ensures Weight(kept) <= limits.maxBytes && |kept| <= limits.maxEvents
  {
    if events == [] then []
    else if Weight(events) > limits.maxBytes || |events| > limits.maxEvents then
      var kept := Bounded(events[1..], limits);
      assert events[1..][|events| - 1 - |kept|..] == events[|events| - |kept|..];
      kept
    else events
  }

  lemma BoundedUnfolds(events: seq<Event>, limits: CaptureLimits)
    ensures events == [] ==> Bounded(events, limits) == []
    ensures Weight(events) <= limits.maxBytes && |events| <= limits.maxEvents ==> Bounded(events, limits) == events
    ensures events != [] && (Weight(events) > limits.maxBytes || |events| > limits.maxEvents) ==>
              Bounded(events, limits) == Bounded(events[1..], limits)
  {
  }

  /** No event that would have fitted is dropped. */
  lemma {:induction false} BoundedKeeps(events: seq<Event>, limits: CaptureLimits, k: nat)
    requires k <= |events| && Weight(events[k..]) <= limits.maxBytes && |events| - k <= limits.maxEvents
    ensures |Bounded(events, limits)| >= |events| - k
  {
    if k > 0 {
      assert events[1..][k - 1..] == events[k..];
      BoundedKeeps(events[1..], limits, k - 1);
    } else {
      assert events[0..] == events;
    }
  }

  // ---------- the tracker ----------

  function Highest(events: seq<Event>, low: nat): nat {
    if events == [] then low
    else
      var last, before := events[|events| - 1].seqNo, Highest(events[..|events| - 1], low);
      if last > before then last else before
  }

  predicate IsSuffix(a: seq<byte>, b: seq<byte>) {
    |a| <= |b| && b[|b| - |a|..] == a
  }

  /** `view` is `all` from position `n` on. */
  predicate IsBehind(view: seq<byte>, all: seq<byte>, n: nat) {
    n <= |all| && view == all[n..]
  }

  /** What becomes of held output, once it is known whether and where the echo ends: without an echo
      everything stays held and the matcher sees a safe view of it; with one, the matcher sees exactly
      what follows it, and the events are released whole when the match is ambiguous and without the
      echo's bytes when it is not. */
  ghost predicate Decided(held: seq<Event>, expected: seq<byte>, m: Option<EchoMatch>, r: AcceptedEvents,
                          pending: seq<Event>) {
    match m
    case None =>
      && pending == held && r.events == []
      && r.resetMatching && FallbackView(RxBytes(held), expected, r.matchingRx)
      && (r.observedQuietActivity <==> r.matchingRx != [])
    case Some(e) =>
      && pending == [] && e.end <= |RxBytes(held)|
      && r.resetMatching && r.matchingRx == RxBytes(held)[e.end..] && (r.observedQuietActivity <==> r.matchingRx != [])
      && r.events == if e.ambiguousPlainCrlfWrap then held else DropBytes(held, e.end)
  }

  lemma EchoEndsInside(actual: seq<byte>, expected: seq<byte>, m: EchoMatch)
    requires FirstEcho(actual, expected, Some(m))
    ensures m.end <= |actual|
  {
    if expected != [] { EchoIsSound(actual, expected, m); }
  }

  // ---------- steps of the account ----------

  /** Every received byte after the command: dropped for room, stripped as echo, handed out or
      pending, in that order. */
  predicate Accounts(history: seq<Event>, txSeq: nat, overflowed: seq<byte>, stripped: seq<byte>, outputs: seq<Event>,
                     pending: seq<Event>) {
    RxBytes(Later(history, txSeq)) == overflowed + stripped + RxBytes(outputs) + RxBytes(pending)
  }

  lemma BytesOfOne(e: Event)
    ensures RxBytes([e]) == (if e.direction.Rx? then e.data else []) && Weight([e]) == |e.data| + 256
    ensures RxBytes([]) == [] && Weight([]) == 0
  {
    assert [e][1..] == [];
    assert RxBytes([e]) == (if e.direction.Rx? then e.data else []) + RxBytes([]);
  }

  lemma AccountsNext(history: seq<Event>, txSeq: nat, overflowed: seq<byte>, stripped: seq<byte>, outputs: seq<Event>,
                     pending: seq<Event>, e: Event)
    requires Accounts(history, txSeq, overflowed, stripped, outputs, pending)
    ensures e.seqNo <= txSeq ==> Accounts(history + [e], txSeq, overflowed, stripped, outputs, pending)
    ensures e.seqNo > txSeq && (pending == [] || !e.direction.Rx?) ==>
              Accounts(history + [e], txSeq, overflowed, stripped, outputs + [e], pending)
    ensures e.seqNo > txSeq ==> Accounts(history + [e], txSeq, overflowed, stripped, outputs, pending + [e])
    ensures e.seqNo > txSeq ==> RxBytes(Later(history + [e], txSeq)) == RxBytes(Later(history, txSeq)) + RxBytes([e])
  {
    hide RxBytes, Later;
    LaterAppend(history, e, txSeq);
    assert Later(history, txSeq) + [] == Later(history, txSeq);
    BytesAppend(Later(history, txSeq), [e]);
    BytesAppend(outputs, [e]);
    BytesAppend(pending, [e]);
    BytesOfOne(e);
    Regroup(overflowed + stripped, RxBytes(outputs), RxBytes(pending), RxBytes([e]));
  }

  lemma Regroup(a: seq<byte>, b: seq<byte>, c: seq<byte>, d: seq<byte>)
    ensures a + b + (c + d) == (a + b + c) + d
    ensures c == [] || d == [] ==> a + (b + d) + c == (a + b + c) + d
  {
  }

  /** Dropping a front part of the pending events moves its bytes from pending to dropped. */
  lemma AccountsOverflow(history: seq<Event>, txSeq: nat, overflowed: seq<byte>, outputs: seq<Event>,
                         front: seq<Event>, pending: seq<Event>)
    requires Accounts(history, txSeq, overflowed, [], outputs, front + pending) && RxBytes(outputs) == []
    ensures Accounts(history, txSeq, overflowed + RxBytes(front), [], outputs, pending)
  {
    hide RxBytes, Later;
    BytesAppend(front, pending);
    Regroup(overflowed, [], RxBytes(front), RxBytes(pending));
    assert overflowed + [] + [] + (RxBytes(front) + RxBytes(pending)) ==
             overflowed + RxBytes(front) + [] + [] + RxBytes(pending);
  }

  /** Releasing what is pending, without its first `n` bytes. */
  lemma AccountsRelease(history: seq<Event>, txSeq: nat, overflowed: seq<byte>, outputs: seq<Event>,
                        pending: seq<Event>, n: nat, released: seq<Event>)
    requires Accounts(history, txSeq, overflowed, [], outputs, pending) && RxBytes(outputs) == []
    requires n <= |RxBytes(pending)| && RxBytes(released) == RxBytes(pending)[n..]
    ensures Accounts(history, txSeq, overflowed, RxBytes(pending)[..n], outputs + released, [])
  {
    hide RxBytes, Later;
    BytesAppend(outputs, released);
    assert RxBytes([]) == [] by { BytesOfOne(Event(0, Rx, None, [], None, None)); }
    Released(overflowed, RxBytes(pending), n);
  }

  lemma Released(a: seq<byte>, all: seq<byte>, n: nat)
    requires n <= |all|
    ensures a + [] + [] + all == a + all[..n] + ([] + all[n..]) + []
  {
    assert all == all[..n] + all[n..];
  }

  lemma SuffixOfAll(history: seq<Event>, txSeq: nat, overflowed: seq<byte>, stripped: seq<byte>, outputs: seq<Event>,
                    pending: seq<Event>, view: seq<byte>)
    requires Accounts(history, txSeq, overflowed, stripped, outputs, pending) && IsSuffix(view, RxBytes(pending))
    ensures IsSuffix(view, RxBytes(Later(history, txSeq)))
  {
    hide RxBytes, Later;
  }

  /** What `accept` has noted of the events so far. */
  ghost predicate Noted(history: seq<Event>, b: Boundary, prewrite: Activity, audit: bool, interfered: bool,
                        through: Option<nat>) {
    && prewrite == Summary(Earlier(history, b))
    && (audit <==> exists i :: 0 <= i < |history| && IsAudit(history[i], b))
    && (interfered <==> exists i :: 0 <= i < |history| && IsForeign(history[i], b))
    && through == Some(Highest(history, b.txSeq))
  }

  lemma NotedNext(history: seq<Event>, b: Boundary, prewrite: Activity, audit: bool, interfered: bool,
                  through: Option<nat>, e: Event)
    requires Noted(history, b, prewrite, audit, interfered, through)
    ensures Noted(history + [e], b, if IsPrewrite(e, b) then Observe(prewrite, e) else prewrite, audit
                  || IsAudit(e, b), interfered || IsForeign(e, b),
                  Some(if e.seqNo > through.value then e.seqNo else through.value))
  {
    hide IsAudit, IsForeign, IsPrewrite, Observe, Summary, Earlier, Highest;
    var h := history + [e];
    assert h[|history|] == e;
    assert forall i :: 0 <= i < |history| ==> h[i] == history[i];
    EarlierNext(history, e, b);
    SummaryNext(Earlier(history, b), e);
    HighestNext(history, e, b.txSeq);
  }

  lemma SummaryNext(events: seq<Event>, e: Event)
    ensures Summary(events + [e]) == Observe(Summary(events), e)
  {
    hide Observe;
    assert (events + [e])[..|events|] == events;
  }

  lemma HighestNext(events: seq<Event>, e: Event, low: nat)
    ensures Highest(events + [e], low) == if e.seqNo > Highest(events, low) then e.seqNo else Highest(events, low)
  {
    assert (events + [e])[..|events|] == events;
  }

  lemma EarlierNext(history: seq<Event>, e: Event, b: Boundary)
    ensures Earlier(history + [e], b) == if IsPrewrite(e, b) then Earlier(history, b) + [e] else Earlier(history, b)
  {
    hide IsPrewrite;
    var h := history + [e];
    assert h[..|history|] == history && h[|history|] == e;
  }

  class CommandBoundaryTracker {
    const boundary: Boundary
    const limits: CaptureLimits
    var armed: bool
    var pending: seq<Event>
    var pendingBytes: nat
    var prewriteActivity: Activity
    var txAuditObserved: bool
    var echoObserved: bool
    var ambiguousEchoRetained: bool
    var discardedRxEventCount: nat
    var discardedRxByteCount: nat
    var interfered: bool
    var throughSeq: Option<nat>
    var truncated: bool

    /** Every event so far, every event handed out, the bytes lost to the limits and the bytes
        stripped as the echo. */
    ghost var history: seq<Event>
    ghost var outputs: seq<Event>
    ghost var overflowed: seq<byte>
    ghost var stripped: seq<byte>

    /** What the completion matcher sees: replaced or added to as each answer says. And the length of the
        echo, once it has been found. */
    ghost var rolling: seq<byte>
    ghost var echoed: nat

    /** No byte received after the command is lost, invented or moved. */
    ghost predicate Conserved()
      reads `history, `overflowed, `stripped, `outputs, `pending, `discardedRxByteCount, `armed, `truncated,
            `ambiguousEchoRetained, `echoObserved
    {
      && Accounts(history, boundary.txSeq, overflowed, stripped, outputs, pending)
      && |overflowed| + |stripped| == discardedRxByteCount
      && (!armed ==> stripped == [] && RxBytes(outputs) == [])
      && (!truncated ==> overflowed == [])
      && (ambiguousEchoRetained || !echoObserved ==> stripped == [])
    }

    ghost predicate Bookkeeping()
      reads `pendingBytes, `pending, `armed, `echoObserved, `ambiguousEchoRetained, `outputs, `history
    {
      && pendingBytes == Weight(pending) <= limits.maxBytes && |pending| <= limits.maxEvents
      && (armed ==> pending == [])
      && (armed <==> boundary.expectedEcho.None? || echoObserved)
      && (ambiguousEchoRetained ==> echoObserved)
      && AllHeld(pending, boundary.txSeq)
      && AllLater(outputs, boundary.txSeq)
      && (AllConsistent(history) ==> AllConsistent(pending) && AllConsistent(outputs))
    }

    ghost predicate Observations()
      reads `history, `prewriteActivity, `txAuditObserved, `interfered, `throughSeq
    {
      Noted(history, boundary, prewriteActivity, txAuditObserved, interfered, throughSeq)
    }

    ghost predicate Core()
      reads this
    {
      Conserved() && Bookkeeping() && Echoes() && Observations()
    }

    ghost predicate Echoes()
      reads `echoObserved, `ambiguousEchoRetained, `stripped, `echoed, `armed, `overflowed, `history
    {
      && (if echoObserved && !ambiguousEchoRetained then |stripped| == echoed else stripped == [])
      && (armed ==> |overflowed| + echoed <= |RxBytes(Later(history, boundary.txSeq))|)
      && (!echoObserved ==> echoed == 0) && (echoObserved ==> boundary.expectedEcho.Some?)
      && (boundary.expectedEcho.None? ==> overflowed == [])
    }

    /** Once armed, the matcher sees exactly what was received behind the echo, or behind the command when
        no echo is expected; before, the fallback view of what is held back. */
    ghost predicate Matching()
      reads `armed, `rolling, `history, `overflowed, `echoed, `pending
    {
      if armed then IsBehind(rolling, RxBytes(Later(history, boundary.txSeq)), |overflowed| + echoed)
      else boundary.expectedEcho.Some? && FallbackView(RxBytes(pending), boundary.expectedEcho.value, rolling)
    }

    ghost predicate Valid()
      reads this
    {
      Core() && Matching()
    }

    /** `Valid`, but `event` has been noted and is not in the history yet. */
    ghost predicate Receives(event: Event)
      reads this
    {
      && Conserved() && Bookkeeping() && Echoes() && Matching()
      && Noted(history + [event], boundary, prewriteActivity, txAuditObserved, interfered, throughSeq)
    }

    constructor (boundary: Boundary, limits: CaptureLimits)
      ensures Valid() && this.boundary == boundary && this.limits == limits
      ensures history == [] && outputs == [] && pending == [] && overflowed == [] && stripped == [] && rolling == []
      ensures armed <==> boundary.expectedEcho.None?
    {
      this.boundary, this.limits := boundary, limits;
      armed := boundary.expectedEcho.None?;
      pending, pendingBytes := [], 0;
      prewriteActivity := NO_ACTIVITY;
      txAuditObserved, echoObserved, ambiguousEchoRetained := false, false, false;
      discardedRxEventCount, discardedRxByteCount := 0, 0;
      interfered, truncated := false, false;
      throughSeq := Some(boundary.txSeq);
      history, outputs, overflowed, stripped := [], [], [], [];
      rolling, echoed := [], 0;
    }

    /** The head of `accept`: what is noted of every event. */
    method Note(event: Event) returns (skipped: bool)
      requires Valid()
      modifies `throughSeq, `interfered, `prewriteActivity, `txAuditObserved
      ensures Receives(event) && (skipped <==> event.seqNo <= boundary.txSeq)
    {
      hide Noted, Observe;
      hide CommandBoundaryTracker.Conserved, CommandBoundaryTracker.Bookkeeping, CommandBoundaryTracker.Echoes,
           CommandBoundaryTracker.Matching;
      assert throughSeq.Some? by { ThroughIsSome(); }
      NotedNext(history, boundary, prewriteActivity, txAuditObserved, interfered, throughSeq, event);
      throughSeq := Some(if event.seqNo > throughSeq.value then event.seqNo else throughSeq.value);
      if event.direction.Tx? && event.operation != Some(boundary.operation) { interfered := true; }
      if event.seqNo < boundary.txSeq {
        prewriteActivity := Observe(prewriteActivity, event);
        return true;
      }
      if event.seqNo == boundary.txSeq {
        if event.direction.Tx? && event.operation == Some(boundary.operation) {
          txAuditObserved := true;
        } else {
          prewriteActivity := Observe(prewriteActivity, event);
        }
        return true;
      }
      return false;
    }

    lemma ThroughIsSome()
      requires Observations()
      ensures throughSeq.Some?
    {
    }

    /** `accept`: nothing is shown of an event that is not behind the command's own; an event that is
        handed out at once is shown as it is; anything else waits, and is decided on with what waits. */
    method Accept(event: Event) returns (r: AcceptedEvents)
      requires Valid()
      modifies this
      ensures Valid() && history == old(history) + [event] && outputs == old(outputs) + r.events
      ensures rolling == if r.resetMatching then r.matchingRx else old(rolling) + r.matchingRx
      ensures event.seqNo <= boundary.txSeq ==> r == NOTHING && armed == old(armed) && pending == old(pending)
      ensures event.seqNo > boundary.txSeq && (old(armed) || !event.direction.Rx?) ==>
                && r.events == [event] && r.matchingRx == (if event.direction.Rx? then event.data else [])
                && !r.resetMatching && (r.observedQuietActivity <==> event.direction.Rx?)
                && armed == old(armed) && pending == old(pending)
      ensures event.seqNo > boundary.txSeq && !old(armed) && event.direction.Rx? ==>
                boundary.expectedEcho.Some? && HeldDecided(old(pending) + [event], r)
      ensures IsSuffix(r.matchingRx, RxBytes(Later(history, boundary.txSeq)))
    {
      hide CommandBoundaryTracker.Valid, CommandBoundaryTracker.Receives, CommandBoundaryTracker.HeldDecided, RxBytes,
           Later;
      var skipped := Note(event);
      if skipped {
        Pass(event);
        assert outputs + [] == outputs && rolling + [] == rolling;
        return NOTHING;
      }
      if armed || !event.direction.Rx? {
        HandOut(event);
        return Single(event);
      }
      r := Hold(event);
    }

    /** An event that is no output of the command. */
    ghost method Pass(event: Event)
      requires Receives(event) && event.seqNo <= boundary.txSeq
      modifies `history
      ensures Valid() && history == old(history) + [event]
      ensures forall view :: view == [] ==> IsSuffix(view, RxBytes(Later(history, boundary.txSeq)))
    {
      hide Noted, Accounts, RxBytes, Later, AllHeld, AllConsistent, Weight, FallbackView, IsBehind;
      AllAppend(history, event, boundary.txSeq);
      AccountsNext(history, boundary.txSeq, overflowed, stripped, outputs, pending, event);
      MatchingNext(event);
      LaterKeeps(event);
      history := history + [event];
      NoSuffix(RxBytes(Later(history, boundary.txSeq)));
    }

    lemma NoSuffix(all: seq<byte>)
      ensures forall view :: view == [] ==> IsSuffix(view, all)
    {
    }

    lemma LaterKeeps(event: Event)
      ensures |RxBytes(Later(history, boundary.txSeq))| <= |RxBytes(Later(history + [event], boundary.txSeq))|
    {
      hide RxBytes, Later;
      LaterAppend(history, event, boundary.txSeq);
      BytesAppend(Later(history, boundary.txSeq), [event]);
      assert Later(history, boundary.txSeq) + [] == Later(history, boundary.txSeq);
    }

    /** An event that is handed out at once. */
    ghost method HandOut(event: Event)
      requires Receives(event) && event.seqNo > boundary.txSeq && (armed || !event.direction.Rx?)
      modifies `history, `outputs, `rolling
      ensures Valid() && history == old(history) + [event] && outputs == old(outputs) + [event]
      ensures rolling == old(rolling) + if event.direction.Rx? then event.data else []
      ensures IsSuffix(if event.direction.Rx? then event.data else [], RxBytes(Later(history, boundary.txSeq)))
    {
      hide Noted, Accounts, RxBytes, Later, AllHeld, AllConsistent, Weight, FallbackView, IsBehind, IsSuffix;
      AllAppend(history, event, boundary.txSeq);
      AllAppend(outputs, event, boundary.txSeq);
      LaterOne(outputs, event, boundary.txSeq);
      AccountsNext(history, boundary.txSeq, overflowed, stripped, outputs, pending, event);
      MatchingNext(event);
      LaterKeeps(event);
      BytesOfOne(event);
      BytesAppend(outputs, [event]);
      ShownIsSuffix(event);
      assert rolling + [] == rolling;
      history, outputs := history + [event], outputs + [event];
      rolling := rolling + if event.direction.Rx? then event.data else [];
    }

    lemma ShownIsSuffix(event: Event)
      requires event.seqNo > boundary.txSeq
      ensures IsSuffix(if event.direction.Rx? then event.data
                       else [], RxBytes(Later(history + [event], boundary.txSeq)))
    {
      hide RxBytes, Later;
      LaterAppend(history, event, boundary.txSeq);
      BytesAppend(Later(history, boundary.txSeq), [event]);
      BytesOfOne(event);
    }

    method Enqueue(event: Event)
      requires Receives(event) && event.seqNo > boundary.txSeq && !armed && event.direction.Rx?
      modifies `history, `pending, `pendingBytes
      ensures Waiting() && history == old(history) + [event] && pending == old(pending) + [event]
    {
      hide Noted, Accounts, RxBytes, Later, FirstEcho, Bounded, AllHeld, AllConsistent, Weight, FallbackView, IsBehind;
      AllAppend(history, event, boundary.txSeq);
      AllAppend(pending, event, boundary.txSeq);
      AccountsNext(history, boundary.txSeq, overflowed, stripped, outputs, pending, event);
      BytesOfOne(event);
      BytesAppend(pending, [event]);
      pendingBytes := pendingBytes + (|event.data| + 256);
      pending := pending + [event];
      history := history + [event];
    }

    /** The tail of `accept`: the event waits, and what waits is decided on. */
    method Hold(event: Event) returns (r: AcceptedEvents)
      requires Receives(event) && event.seqNo > boundary.txSeq && !armed && event.direction.Rx?
      modifies this
      ensures Valid() && history == old(history) + [event] && outputs == old(outputs) + r.events
      ensures r.resetMatching && rolling == r.matchingRx
      ensures boundary.expectedEcho.Some? && HeldDecided(old(pending) + [event], r)
      ensures IsSuffix(r.matchingRx, RxBytes(Later(history, boundary.txSeq)))
    {
      hide Decided, FirstEcho, Bounded, RxBytes, Later, FallbackView, IsBehind, IsSuffix, Weight;
      hide CommandBoundaryTracker.Waiting, CommandBoundaryTracker.Core, CommandBoundaryTracker.DecidedOn,
           CommandBoundaryTracker.Matching, CommandBoundaryTracker.Receives, CommandBoundaryTracker.Valid;
      UnarmedExpects(event);
      ghost var waiting := pending + [event];
      BoundedFits(waiting);
      Enqueue(event);
      BoundPending();
      r := Decide();
      Show(r.matchingRx);
    }

    ghost method Show(view: seq<byte>)
      requires Core()
      requires if armed then IsBehind(view, RxBytes(Later(history, boundary.txSeq)), |overflowed| + echoed)
               else boundary.expectedEcho.Some? && FallbackView(RxBytes(pending), boundary.expectedEcho.value, view)
      modifies `rolling
      ensures Valid() && rolling == view
    {
      hide Noted, Accounts, RxBytes, Later, AllHeld, AllConsistent, Weight, FallbackView, IsBehind;
      rolling := view;
    }

    lemma BoundedFits(events: seq<Event>)
      ensures Weight(Bounded(events, limits)) <= limits.maxBytes && |Bounded(events, limits)| <= limits.maxEvents
    {
    }

    lemma UnarmedExpects(event: Event)
      requires Receives(event) && !armed
      ensures boundary.expectedEcho.Some?
    {
    }

    /** What one more event adds to what is behind the echo. */
    lemma MatchingNext(event: Event)
      requires armed ==> IsBehind(rolling, RxBytes(Later(history, boundary.txSeq)), |overflowed| + echoed)
      ensures armed && event.seqNo <= boundary.txSeq ==>
                IsBehind(rolling, RxBytes(Later(history + [event], boundary.txSeq)), |overflowed| + echoed)
      ensures armed && event.seqNo > boundary.txSeq ==>
                IsBehind(rolling + (if event.direction.Rx? then event.data else []),
                         RxBytes(Later(history + [event], boundary.txSeq)), |overflowed| + echoed)
    {
      hide RxBytes, Later;
      LaterAppend(history, event, boundary.txSeq);
      BytesAppend(Later(history, boundary.txSeq), [event]);
      BytesOfOne(event);
      assert Later(history, boundary.txSeq) + [] == Later(history, boundary.txSeq);
    }

    /** `kept` has been decided on: whether and where the echo is in it, and what follows. */
    ghost predicate DecidedOn(kept: seq<Event>, r: AcceptedEvents)
      requires boundary.expectedEcho.Some?
      reads `pending, `armed, `ambiguousEchoRetained
    {
      exists m :: FirstEcho(RxBytes(kept), boundary.expectedEcho.value, m) && OutcomeOf(kept, m, r)
    }

    ghost predicate OutcomeOf(kept: seq<Event>, m: Option<EchoMatch>, r: AcceptedEvents)
      requires boundary.expectedEcho.Some?
      reads `pending, `armed, `ambiguousEchoRetained
    {
      && Decided(kept, boundary.expectedEcho.value, m, r, pending)
      && (armed <==> m.Some?) && (ambiguousEchoRetained <==> m.Some? && m.value.ambiguousPlainCrlfWrap)
    }

    /** `held`, cut to the limits, has been decided on. */
    ghost predicate HeldDecided(held: seq<Event>, r: AcceptedEvents)
      requires boundary.expectedEcho.Some?
      reads `pending, `armed, `ambiguousEchoRetained
    {
      DecidedOn(Bounded(held, limits), r)
    }

    /** Valid while events wait for a decision, except that the limits may be exceeded. */
    ghost predicate Waiting()
      reads this
    {
      && Conserved() && Observations() && !armed && boundary.expectedEcho.Some? && !echoObserved
      && !ambiguousEchoRetained
      && pendingBytes == Weight(pending) && AllHeld(pending, boundary.txSeq)
      && AllLater(outputs, boundary.txSeq)
      && (AllConsistent(history) ==> AllConsistent(pending) && AllConsistent(outputs))
      && stripped == [] && echoed == 0
    }

    method BoundPending()
      requires Waiting()
      modifies `pending, `pendingBytes, `discardedRxEventCount, `discardedRxByteCount, `truncated, `overflowed
      ensures Waiting() && pending == Bounded(old(pending), limits)
      ensures discardedRxEventCount == old(discardedRxEventCount) + |old(pending)| - |pending|
      ensures truncated <==> old(truncated) || |pending| < |old(pending)|
    {
      hide Noted, Accounts, RxBytes, Later, AllHeld, AllConsistent, Weight, Bounded;
      while pendingBytes > limits.maxBytes || |pending| > limits.maxEvents
        invariant Waiting() && Bounded(pending, limits) == Bounded(old(pending), limits) && |pending| <= |old(pending)|
        invariant discardedRxEventCount == old(discardedRxEventCount) + |old(pending)| - |pending|
        invariant truncated <==> old(truncated) || |pending| < |old(pending)|
        decreases |pending|
      {
        BoundedUnfolds(pending, limits);
        if pending == [] { break; }
        DropOldest();
      }
      BoundedUnfolds(pending, limits);
    }

    method DropOldest()
      requires Waiting() && pending != []
      modifies `pending, `pendingBytes, `discardedRxEventCount, `discardedRxByteCount, `truncated, `overflowed
      ensures Waiting() && pending == old(pending)[1..] && truncated
              && discardedRxEventCount == old(discardedRxEventCount) + 1
      ensures overflowed == old(overflowed) + old(pending)[0].data
    {
      hide Noted, Accounts, RxBytes, Later, AllHeld, AllConsistent, Weight;
      AllTail(pending, boundary.txSeq);
      var dropped, rest := pending[0], pending[1..];
      assert pending == [dropped] + rest;
      AccountsOverflow(history, boundary.txSeq, overflowed, outputs, [dropped], rest);
      BytesOfOne(dropped);
      overflowed := overflowed + dropped.data;
      pending := rest;
      pendingBytes := pendingBytes - (|dropped.data| + 256);
      discardedRxEventCount := discardedRxEventCount + 1;
      discardedRxByteCount := discardedRxByteCount + |dropped.data|;
      truncated := true;
    }

    /** The tail of `accept`: look for the echo in what is pending. */
    method Decide() returns (r: AcceptedEvents)
      requires Waiting() && Weight(pending) <= limits.maxBytes && |pending| <= limits.maxEvents
      modifies this
      ensures Core() && history == old(history) && outputs == old(outputs) + r.events
      ensures armed ==> IsBehind(r.matchingRx, RxBytes(Later(history, boundary.txSeq)), |overflowed| + echoed)
      ensures !armed ==> FallbackView(RxBytes(pending), boundary.expectedEcho.value, r.matchingRx)
      ensures r.resetMatching
      ensures DecidedOn(old(pending), r)
      ensures IsSuffix(r.matchingRx, RxBytes(Later(history, boundary.txSeq)))
    {
      hide Noted, Accounts, RxBytes, Later, FirstEcho, FallbackView, DropBytes, AllConsistent, AllHeld, Weight;
      var expected := boundary.expectedEcho.value;
      var bytes := RxBytes(pending);
      ghost var held := pending;
      var m := FindEchoEnd(bytes, expected);
      if m.None? {
        var view := FallbackAfterIncompleteEcho(bytes, expected);
        ViewIsSuffix(bytes, expected, view);
        SuffixOfAll(history, boundary.txSeq, overflowed, stripped, outputs, pending, view);
        assert outputs + [] == outputs;
        assert OutcomeOf(held, m, PendingRx(view));
        return PendingRx(view);
      }
      EchoEndsInside(bytes, expected, m.value);
      SuffixOfAll(history, boundary.txSeq, overflowed, stripped, outputs, pending, bytes[m.value.end..]);
      BehindAll(m.value.end);
      if m.value.ambiguousPlainCrlfWrap {
        r := ReleaseRetained(m.value.end, bytes[m.value.end..]);
      } else {
        DroppedBytes(pending, m.value.end, boundary.txSeq);
        r := ReleaseStripped(m.value.end);
      }
      assert OutcomeOf(held, m, r);
    }

    /** What is behind the echo in what is pending is behind it in all that was received. */
    lemma BehindAll(end: nat)
      requires Conserved() && !armed && end <= |RxBytes(pending)|
      ensures IsBehind(RxBytes(pending)[end..], RxBytes(Later(history, boundary.txSeq)), |overflowed| + end)
      ensures |overflowed| + end <= |RxBytes(Later(history, boundary.txSeq))|
    {
      hide RxBytes, Later;
    }

    /** An ambiguous echo arms the tracker but takes nothing away. */
    method ReleaseRetained(ghost end: nat, matching: seq<byte>) returns (r: AcceptedEvents)
      requires Waiting() && IsBehind(matching, RxBytes(Later(history, boundary.txSeq)), |overflowed| + end)
      modifies `echoObserved, `armed, `pending, `pendingBytes, `ambiguousEchoRetained, `outputs, `echoed
      ensures Core() && echoed == end && armed && ambiguousEchoRetained && pending == []
              && outputs == old(outputs) + r.events
      ensures r == AfterRetainedEcho(old(pending), matching)
    {
      hide Accounts, RxBytes, Later, AllConsistent, AllHeld, AllLater, Weight, DropBytes, Touched, IsSuffix;
      hide CommandBoundaryTracker.Observations;
      NothingPending();
      LaterJoin(outputs, pending, boundary.txSeq);
      ghost var bytes := RxBytes(pending);
      assert bytes[0..] == bytes && bytes[..0] == [];
      AccountsRelease(history, boundary.txSeq, overflowed, outputs, pending, 0, pending);
      if AllConsistent(history) { AllJoin(outputs, pending); }
      echoObserved, armed := true, true;
      var events := TakePending();
      ambiguousEchoRetained := true;
      echoed := end;
      outputs := outputs + events;
      r := AfterRetainedEcho(events, matching);
    }

    /** A certain echo is stripped. */
    method ReleaseStripped(end: nat) returns (r: AcceptedEvents)
      requires Waiting() && end <= |RxBytes(pending)|
      modifies `echoObserved, `armed, `pending, `pendingBytes, `discardedRxEventCount, `discardedRxByteCount,
               `stripped, `outputs, `echoed
      ensures Core() && echoed == end && armed && !ambiguousEchoRetained && pending == []
              && outputs == old(outputs) + r.events
      ensures r == AfterEcho(DropBytes(old(pending), end)) && stripped == RxBytes(old(pending))[..end]
      ensures discardedRxEventCount == old(discardedRxEventCount) + Touched(old(pending), end)
    {
      hide Accounts, RxBytes, Later, AllConsistent, AllHeld, AllLater, Weight, DropBytes, Touched, IsBehind, IsSuffix;
      hide CommandBoundaryTracker.Observations;
      NothingPending();
      StrippedAccount(end);
      r := Strip(end);
    }

    /** The account and the other invariants once the echo is stripped. */
    lemma StrippedAccount(end: nat)
      requires Waiting() && end <= |RxBytes(pending)|
      ensures var events := DropBytes(pending, end);
              && Accounts(history, boundary.txSeq, overflowed, RxBytes(pending)[..end], outputs + events, [])
              && AllLater(outputs + events, boundary.txSeq)
              && (AllConsistent(history) ==> AllConsistent(outputs + events))
      ensures |overflowed| + end <= |RxBytes(Later(history, boundary.txSeq))|
      ensures IsBehind(RxBytes(pending)[end..], RxBytes(Later(history, boundary.txSeq)), |overflowed| + end)
      ensures RxBytes(DropBytes(pending, end)) == RxBytes(pending)[end..]
    {
      hide Accounts, RxBytes, Later, AllConsistent, AllHeld, AllLater, Weight, DropBytes, Touched, IsBehind, IsSuffix;
      hide CommandBoundaryTracker.Observations;
      DroppedBytes(pending, end, boundary.txSeq);
      LaterJoin(outputs, DropBytes(pending, end), boundary.txSeq);
      AccountsRelease(history, boundary.txSeq, overflowed, outputs, pending, end, DropBytes(pending, end));
      if AllConsistent(history) { AllJoin(outputs, DropBytes(pending, end)); }
      BehindAll(end);
    }

    method Strip(end: nat) returns (r: AcceptedEvents)
      requires pendingBytes == Weight(pending) && AllHeld(pending, boundary.txSeq) && end <= |RxBytes(pending)|
      modifies `echoObserved, `armed, `pending, `pendingBytes, `discardedRxEventCount, `discardedRxByteCount,
               `stripped, `outputs, `echoed
      ensures echoObserved && armed && echoed == end && pending == [] && pendingBytes == 0
      ensures discardedRxByteCount == old(discardedRxByteCount) + end
      ensures discardedRxEventCount == old(discardedRxEventCount) + Touched(old(pending), end)
      ensures stripped == RxBytes(old(pending))[..end] && outputs == old(outputs) + DropBytes(old(pending), end)
      ensures r == AfterEcho(DropBytes(old(pending), end))
    {
      hide RxBytes, AllHeld, Weight, DropBytes, Touched, AfterEcho;
      stripped := RxBytes(pending)[..end];
      echoObserved, armed, echoed := true, true, end;
      var events := DiscardPendingPrefix(end);
      outputs := outputs + events;
      r := AfterEcho(events);
    }

    lemma NothingPending()
      ensures Weight([]) == 0 && AllHeld([], boundary.txSeq) && AllConsistent([]) && RxBytes([]) == []
    {
    }

    method TakePending() returns (events: seq<Event>)
      modifies `pending, `pendingBytes
      ensures events == old(pending) && pending == [] && pendingBytes == 0
    {
      pendingBytes := 0;
      events, pending := pending, [];
    }

    lemma FrontHeld(event: Event, rest: seq<Event>, n: nat)
      requires event.direction.Rx?
      ensures RxBytes([event] + rest) == event.data + RxBytes(rest)
      ensures n >= |event.data| ==> DropBytes([event] + rest, n) == DropBytes(rest, n - |event.data|)
      ensures n >= |event.data| ==> Touched([event] + rest, n) == 1 + Touched(rest, n - |event.data|)
      ensures n < |event.data| ==> DropBytes([event] + rest, n) == (if n > 0 then [Trim(event, n)] else [event]) + rest
      ensures n < |event.data| ==> Touched([event] + rest, n) == if n > 0 then 1 else 0
    {
      assert ([event] + rest)[1..] == rest;
    }

    lemma NothingHeld(n: nat)
      ensures RxBytes([]) == [] && Weight([]) == 0 && DropBytes([], n) == [] && Touched([], n) == 0
    {
    }

    /** `discard_pending_prefix`: pop events until `remaining` bytes are gone. */
    method DiscardPendingPrefix(remaining: nat) returns (accepted: seq<Event>)
      requires pendingBytes == Weight(pending) && AllHeld(pending, boundary.txSeq) && remaining <= |RxBytes(pending)|
      modifies `pending, `pendingBytes, `discardedRxEventCount, `discardedRxByteCount
      ensures accepted == DropBytes(old(pending), remaining) && pending == [] && pendingBytes == 0
      ensures discardedRxByteCount == old(discardedRxByteCount) + remaining
      ensures discardedRxEventCount == old(discardedRxEventCount) + Touched(old(pending), remaining)
    {
      hide RxBytes, Weight, DropBytes, Touched, AllHeld;
      accepted := [];
      NothingHeld(remaining);
      var left: nat := remaining;
      while pending != []
        invariant pendingBytes == Weight(pending) && AllHeld(pending, boundary.txSeq) && left <= |RxBytes(pending)|
        invariant DropBytes(pending, left) == DropBytes(old(pending), remaining)
        invariant discardedRxByteCount + left == old(discardedRxByteCount) + remaining
        invariant discardedRxEventCount + Touched(pending, left) ==
                    old(discardedRxEventCount) + Touched(old(pending), remaining)
        decreases |pending|
      {
        var event, rest := pending[0], pending[1..];
        assert pending == [event] + rest;
        AllTail(pending, boundary.txSeq);
        FrontHeld(event, rest, left);
        pending := rest;
        pendingBytes := pendingBytes - (|event.data| + 256);
        if left >= |event.data| {
          left := left - |event.data|;
          discardedRxEventCount := discardedRxEventCount + 1;
          discardedRxByteCount := discardedRxByteCount + |event.data|;
          continue;
        }
        if left > 0 {
          discardedRxEventCount := discardedRxEventCount + 1;
          discardedRxByteCount := discardedRxByteCount + left;
          event := Trim(event, left);
          left := 0;
        }
        if event.data != [] { accepted := accepted + [event]; }
        accepted := accepted + pending;
        pending, pendingBytes := [], 0;
        return;
      }
      NothingHeld(left);
    }

    /** What is still pending goes to the caller, bytes and all. */
    method Finish() returns (result: BoundaryResult, held: seq<Event>)
      requires Valid()
      ensures held == pending
      ensures RxBytes(Later(history, boundary.txSeq)) == overflowed + stripped + RxBytes(outputs + held)
      ensures result == BoundaryResult(prewriteActivity, txAuditObserved, boundary.expectedEcho.Some?, echoObserved,
                                       ambiguousEchoRetained, discardedRxEventCount, discardedRxByteCount, interfered)
      ensures result.discardedRxByteCount == |overflowed| + |stripped| && (!truncated ==> overflowed == [])
      ensures if result.echoObserved && !result.ambiguousEchoRetained then |stripped| == echoed else stripped == []
      ensures boundary.expectedEcho.None? ==> rolling == RxBytes(Later(history, boundary.txSeq))
      ensures result.echoObserved ==> IsBehind(rolling, RxBytes(Later(history, boundary.txSeq)), |overflowed| + echoed)
      ensures boundary.expectedEcho.Some? && !result.echoObserved ==>
                FallbackView(RxBytes(held), boundary.expectedEcho.value, rolling)
      ensures forall i :: 0 <= i < |outputs + held| ==> (outputs + held)[i].seqNo > boundary.txSeq
      ensures AllConsistent(history) ==> AllConsistent(outputs + held)
      ensures result.prewriteActivity == Summary(Earlier(history, boundary))
      ensures result.interfered <==> exists i :: 0 <= i < |history| && IsForeign(history[i], boundary)
      ensures result.txAuditObserved <==> exists i :: 0 <= i < |history| && IsAudit(history[i], boundary)
    {
      hide RxBytes, Later, Summary, Earlier, AllConsistent, IsForeign, IsAudit, Highest, Weight, FallbackView;
      held := pending;
      BytesAppend(outputs, held);
      assert RxBytes(Later(history, boundary.txSeq))[0..] == RxBytes(Later(history, boundary.txSeq));
      assert overflowed + stripped + RxBytes(outputs) + RxBytes(held) ==
               overflowed + stripped + (RxBytes(outputs) + RxBytes(held));
      if AllConsistent(history) { AllJoin(outputs, held); }
      result := BoundaryResult(prewriteActivity, txAuditObserved, boundary.expectedEcho.Some?, echoObserved,
                               ambiguousEchoRetained, discardedRxEventCount, discardedRxByteCount, interfered);
    }
  }

  datatype BoundaryResult = BoundaryResult(
    prewriteActivity: Activity,
    txAuditObserved: bool,
    echoRequired: bool,
    echoObserved: bool,
    ambiguousEchoRetained: bool,
    discardedRxEventCount: nat,
    discardedRxByteCount: nat,
    interfered: bool
  )

  /** A whole capture, whatever arrives: the events handed out while it ran and at its end carry
      every byte received after the command except those counted as discarded, in order. Nothing at
      or before the command's own event is among them, and a discarded byte was either dropped for
      room or part of an unambiguous echo. The completion matcher has seen exactly the bytes received
      behind the command, if no echo is expected; exactly those behind the echo, once there was one; and
      before that the fallback view of what was held back. */
  method Capture(boundary: Boundary, limits: CaptureLimits, events: seq<Event>)
    returns (outputs: seq<Event>, truncated: bool, result: BoundaryResult, rolling: seq<byte>,
             ghost overflowed: seq<byte>, ghost stripped: seq<byte>, ghost echoed: nat, ghost held: seq<Event>)
    ensures RxBytes(Later(events, boundary.txSeq)) == overflowed + stripped + RxBytes(outputs)
    ensures result.discardedRxByteCount == |overflowed| + |stripped|
    ensures !truncated ==> overflowed == []
    ensures if result.echoObserved && !result.ambiguousEchoRetained then |stripped| == echoed else stripped == []
    ensures boundary.expectedEcho.None? ==> rolling == RxBytes(Later(events, boundary.txSeq))
    ensures result.echoObserved ==> IsBehind(rolling, RxBytes(Later(events, boundary.txSeq)), |overflowed| + echoed)
    ensures boundary.expectedEcho.Some? && !result.echoObserved ==>
              |held| <= |outputs| && outputs[|outputs| - |held|..] == held
              && FallbackView(RxBytes(held), boundary.expectedEcho.value, rolling)
    ensures forall i :: 0 <= i < |outputs| ==> outputs[i].seqNo > boundary.txSeq
    ensures AllConsistent(events) ==> AllConsistent(outputs)
    ensures result.prewriteActivity == Summary(Earlier(events, boundary))
    ensures result.interfered <==> exists i :: 0 <= i < |events| && IsForeign(events[i], boundary)
    ensures result.txAuditObserved <==> exists i :: 0 <= i < |events| && IsAudit(events[i], boundary)
    ensures result.echoRequired <==> boundary.expectedEcho.Some?
  {
    hide RxBytes, Later, Summary, Earlier, AllConsistent, IsForeign, IsAudit, Decided, FirstEcho, Bounded, FallbackView,
         IsSuffix;
    hide CommandBoundaryTracker.Valid, CommandBoundaryTracker.HeldDecided;
    var tracker := new CommandBoundaryTracker(boundary, limits);
    outputs, rolling := [], [];
    for i := 0 to |events|
      invariant fresh(tracker) && tracker.Valid() && tracker.boundary == boundary
      invariant tracker.history == events[..i] && tracker.outputs == outputs && tracker.rolling == rolling
    {
      var accepted := tracker.Accept(events[i]);
      if accepted.resetMatching { rolling := []; }
      rolling := rolling + accepted.matchingRx;
      outputs := outputs + accepted.events;
      assert [] + accepted.matchingRx == accepted.matchingRx;
      assert events[..i + 1] == events[..i] + [events[i]];
    }
    assert events[..|events|] == events;
    var waiting;
    result, waiting := tracker.Finish();
    held := waiting;
    outputs := outputs + waiting;
    assert outputs[|outputs| - |held|..] == held;
    truncated, overflowed, stripped, echoed := tracker.truncated, tracker.overflowed, tracker.stripped, tracker.echoed;
  }
}
