/** What holds after every sequence of API calls, in any order, right or wrong: the effect
    protocol, the sticky failure, monotone watchers and the bound on every string. */
module MacroProtocol {
  import opened Wrappers
  import opened MacroCore
  import opened MacroSemantics
  import opened MacroMachine
  import opened MacroVm

  datatype Request = AdvanceRequest | ReplyRequest(reply: Reply) | MarkRequest(watcher: nat)

  /** A machine and the effects it has issued so far. */
  datatype History = History(vm: VmState, issued: seq<Effect>)

  const NO_EFFECTS: seq<Effect> := []

  function Advanced(m: Machine, h: History, slice: nat): History {
    var (vm, step) := Advance(m, h.vm, slice);
    History(vm, if h.vm.failure.None? && h.vm.pending.None? && step.EffectStep? then h.issued + [step.effect]
                else h.issued)
  }

  function Handle(m: Machine, h: History, slice: nat, request: Request): History {
    match request
    case AdvanceRequest => Advanced(m, h, slice)
    case ReplyRequest(reply) => h.(vm := Respond(h.vm, reply))
    case MarkRequest(watcher) => h.(vm := MarkMatched(h.vm, watcher))
  }

  function HandleAll(m: Machine, h: History, slice: nat, requests: seq<Request>): History
    decreases |requests|
  {
    if requests == [] then h else HandleAll(m, Handle(m, h, slice, requests[0]), slice, requests[1..])
  }

  // ---------- the effect protocol ----------

  function CommandBytes(effect: Effect): nat {
    if effect.kind.CommandEffect? then Utf8Len(effect.kind.text) else 0
  }

  function TotalCommandBytes(issued: seq<Effect>): nat {
    if issued == [] then 0 else TotalCommandBytes(issued[..|issued| - 1]) + CommandBytes(issued[|issued| - 1])
  }

  function CommandCount(issued: seq<Effect>): nat {
    if issued == [] then 0
    else CommandCount(issued[..|issued| - 1]) + (if issued[|issued| - 1].kind.CommandEffect? then 1 else 0)
  }

  /** What the driver may rely on in an effect it is handed. */
  predicate Proper(effect: Effect, limits: Limits) {
    match effect.kind
    case CommandEffect(text, _) => CommandFault(text, limits.maxStringBytes).None?
    case WatchEffect(watcher, pattern) => watcher < limits.maxWatchers && pattern != ""
    case WaitEffect(_, ms, _) => ms <= limits.maxDurationMs
    case DelayEffect(ms) => ms <= limits.maxDurationMs
  }

  ghost predicate Orderly(m: Machine, h: History) {
    var ledger := h.vm.core.ledger;
    && ledger.nextEffect == |h.issued| + 1
    && (forall i | 0 <= i < |h.issued| :: h.issued[i].id == i + 1 && Proper(h.issued[i], m.program.limits))
    && (h.vm.pending.Some? ==> h.issued != [] && h.issued[|h.issued| - 1] == h.vm.pending.value)
    && |h.issued| <= ledger.instructions <= m.program.limits.maxInstructions
    && TotalCommandBytes(h.issued) <= ledger.commandBytes <= m.program.limits.maxTotalCommandBytes
    && (h.vm.failure != Some(EffectBudget) ==>
          TotalCommandBytes(h.issued) == ledger.commandBytes && CommandCount(h.issued) == ledger.commandEffects)
    && (h.vm.failure == Some(EffectBudget) ==> ledger.nextEffect >= U64_MAX)
    && |ledger.watchers| <= m.program.limits.maxWatchers
  }

  /** A ledger that differs from `before` only in its instruction count and its flags. */
  predicate SameCounts(before: Ledger, after: Ledger) {
    && after.nextEffect == before.nextEffect && after.commandBytes == before.commandBytes
    && after.commandEffects == before.commandEffects && |after.watchers| == |before.watchers|
  }

  lemma IssueCounts(builtin: Builtin, top: Option<RuntimeValue>, below: Option<RuntimeValue>, ledger: Ledger,
                    limits: Limits)
    requires ledger.commandBytes <= limits.maxTotalCommandBytes && |ledger.watchers| <= limits.maxWatchers
    ensures match IssueEffect(builtin, top, below, ledger, limits)
            case Refused(code, after) =>
              && after.instructions == ledger.instructions && after.nextEffect == ledger.nextEffect
              && ledger.commandBytes <= after.commandBytes <= limits.maxTotalCommandBytes
              && |after.watchers| <= limits.maxWatchers
              && (if code == EffectBudget then after.nextEffect >= U64_MAX else SameCounts(ledger, after))
            case Issued(effect, after) =>
              && effect.id == ledger.nextEffect && Proper(effect, limits)
              && after.instructions == ledger.instructions && after.nextEffect == ledger.nextEffect + 1
              && after.commandBytes == ledger.commandBytes + CommandBytes(effect) <= limits.maxTotalCommandBytes
              && after.commandEffects == ledger.commandEffects + (if effect.kind.CommandEffect? then 1 else 0)
              && |after.watchers| <= limits.maxWatchers
  {
  }

  lemma StepCounts(m: Machine, c: Core)
    requires c.pc < |m.program.code| && c.ledger.instructions <= m.program.limits.maxInstructions
    requires c.ledger.commandBytes <= m.program.limits.maxTotalCommandBytes
             && |c.ledger.watchers| <= m.program.limits.maxWatchers
    ensures var limits := m.program.limits;
            match StepOp(m, c)
            case Faulted(code, after) =>
              && c.ledger.instructions <= after.instructions <= limits.maxInstructions
              && after.nextEffect == c.ledger.nextEffect
              && c.ledger.commandBytes <= after.commandBytes <= limits.maxTotalCommandBytes
              && |after.watchers| <= limits.maxWatchers
              && (if code == EffectBudget then after.nextEffect >= U64_MAX else SameCounts(c.ledger, after))
            case Moved(core) =>
              core.ledger == c.ledger.(instructions := c.ledger.instructions + 1)
              && core.ledger.instructions <= limits.maxInstructions
            case Suspended(effect, core) =>
              var after := core.ledger;
              && effect.id == c.ledger.nextEffect && Proper(effect, limits)
              && after.instructions == c.ledger.instructions + 1 <= limits.maxInstructions
              && after.nextEffect == c.ledger.nextEffect + 1
              && after.commandBytes == c.ledger.commandBytes + CommandBytes(effect) <= limits.maxTotalCommandBytes
              && after.commandEffects == c.ledger.commandEffects + (if effect.kind.CommandEffect? then 1 else 0)
              && |after.watchers| <= limits.maxWatchers
  {
    hide IssueEffect;
    if c.ledger.instructions < m.program.limits.maxInstructions && m.program.code[c.pc].CallOp? {
      IssueCounts(m.program.code[c.pc].builtin, Peek(c.stack, 0), Peek(c.stack, 1), Fetched(c).ledger,
                  m.program.limits);
    }
  }

  /** One pass of `advance_inner`, and the effect it issued if it did. */
  function Ticked(m: Machine, h: History): History {
    var (vm, step) := Tick(m, h.vm);
    History(vm, if step.Some? && step.value.EffectStep? then h.issued + [step.value.effect] else h.issued)
  }

  lemma TickOrderly(m: Machine, h: History)
    requires Orderly(m, h) && h.vm.failure.None? && h.vm.pending.None?
    ensures Orderly(m, Ticked(m, h))
  {
    hide StepOp, Proper;
    if h.vm.core.pc < |m.program.code| { StepCounts(m, h.vm.core); }
    var issued := Ticked(m, h).issued;
    if issued != h.issued { assert issued[..|issued| - 1] == h.issued; }
  }

  lemma {:induction false} AdvanceOrderly(m: Machine, h: History, slice: nat)
    requires Orderly(m, h) && h.vm.failure.None? && h.vm.pending.None?
    ensures Orderly(m, Advanced(m, h, slice))
    decreases slice
  {
    hide StepOp, Orderly;
    if slice > 0 {
      TickOrderly(m, h);
      var (vm1, step) := Tick(m, h.vm);
      if step.None? { AdvanceOrderly(m, History(vm1, h.issued), slice - 1); }
    }
  }

  lemma RespondOrderly(m: Machine, h: History, reply: Reply)
    requires Orderly(m, h)
    ensures Orderly(m, h.(vm := Respond(h.vm, reply)))
  {
  }

  lemma {:induction false} HandleAllOrderly(m: Machine, h: History, slice: nat, requests: seq<Request>)
    requires Orderly(m, h)
    ensures Orderly(m, HandleAll(m, h, slice, requests))
    decreases |requests|
  {
    hide Orderly, AdvanceInner, Respond;
    if requests != [] {
      var h1 := Handle(m, h, slice, requests[0]);
      match requests[0] {
        case AdvanceRequest =>
          if h.vm.failure.None? && h.vm.pending.None? { AdvanceOrderly(m, h, slice); } else { assert h1 == h; }
        case ReplyRequest(reply) => RespondOrderly(m, h, reply);
        case MarkRequest(watcher) => MarkOrderly(m, h, watcher);
      }
      HandleAllOrderly(m, h1, slice, requests[1..]);
    }
  }

  lemma MarkOrderly(m: Machine, h: History, watcher: nat)
    requires Orderly(m, h)
    ensures Orderly(m, h.(vm := MarkMatched(h.vm, watcher)))
  {
  }

  /** The effect protocol, over every sequence of calls on a fresh machine. */
  lemma EffectProtocolHolds(m: Machine, slice: nat, requests: seq<Request>)
    ensures Orderly(m, HandleAll(m, History(InitialVm(m), NO_EFFECTS), slice, requests))
  {
    HandleAllOrderly(m, History(InitialVm(m), NO_EFFECTS), slice, requests);
  }

  /** With a budget below the ID space, IDs never run out: the issued command bytes are exactly
      the running total. */
  lemma EffectIdsSuffice(m: Machine, slice: nat, requests: seq<Request>)
    requires m.program.limits.maxInstructions < U64_MAX - 1
    ensures var h := HandleAll(m, History(InitialVm(m), NO_EFFECTS), slice, requests);
            && h.vm.failure != Some(EffectBudget)
            && TotalCommandBytes(h.issued) == h.vm.core.ledger.commandBytes <= m.program.limits.maxTotalCommandBytes
  {
    EffectProtocolHolds(m, slice, requests);
  }

  /** The one way in which the total and the issued commands part: an admissible command is counted
      and yet not issued exactly when the ID space is exhausted. */
  lemma CountedButNotIssued(text: string, verifyEcho: bool, ledger: Ledger, limits: Limits)
    requires CommandFault(text, limits.maxStringBytes).None?
             && ledger.commandBytes + Utf8Len(text) <= limits.maxTotalCommandBytes
    ensures var counted := ledger.(commandBytes := ledger.commandBytes + Utf8Len(text), commandEffects :=
                                   ledger.commandEffects + 1);
            IssueCommand(Scalar(Str(text)), verifyEcho, ledger, limits) == Refused(EffectBudget, counted) <==>
              ledger.nextEffect >= U64_MAX
  {
  }

  // ---------- failure is final, a pending effect is repeated ----------

  /** Once a machine has failed, no call changes it or makes it issue anything. */
  lemma {:induction false} FailureIsFinal(m: Machine, h: History, slice: nat, requests: seq<Request>)
    requires h.vm.failure.Some?
    ensures HandleAll(m, h, slice, requests) == h
    decreases |requests|
  {
    if requests != [] {
      assert Handle(m, h, slice, requests[0]) == h;
      FailureIsFinal(m, h, slice, requests[1..]);
    }
  }

  /** A strict wait that is answered `false` is such a failure. */
  lemma StrictTimeoutFails(m: Machine, h: History, slice: nat, requests: seq<Request>)
    requires h.vm.failure.None? && h.vm.pending.Some? && h.vm.pending.value.kind.WaitEffect?
             && h.vm.pending.value.kind.strict
    ensures var reply := ReplyRequest(Resume(h.vm.pending.value.id, Matched(false)));
            HandleAll(m, Handle(m, h, slice, reply), slice, requests).issued == h.issued
  {
    var reply := ReplyRequest(Resume(h.vm.pending.value.id, Matched(false)));
    FailureIsFinal(m, Handle(m, h, slice, reply), slice, requests);
  }

  /** Until it is acknowledged, the pending effect is the only one `advance` reports. */
  lemma {:induction false} PendingIsRepeated(m: Machine, h: History, slice: nat, requests: seq<Request>)
    requires h.vm.failure.None? && h.vm.pending.Some?
    requires forall request | request in requests :: !request.ReplyRequest?
    ensures var h1 := HandleAll(m, h, slice, requests);
            && h1.issued == h.issued && h1.vm.pending == h.vm.pending && h1.vm.failure.None?
            && Advance(m, h1.vm, slice) == (h1.vm, EffectStep(h.vm.pending.value))
    decreases |requests|
  {
    if requests != [] {
      assert requests[0] in requests;
      PendingIsRepeated(m, Handle(m, h, slice, requests[0]), slice, requests[1..]);
    }
  }

  // ---------- watchers ----------

  /** No watcher disappears and no flag is cleared. */
  ghost predicate Keeps(before: seq<bool>, after: seq<bool>) {
    |before| <= |after| && forall i | 0 <= i < |before| :: before[i] ==> after[i]
  }

  lemma IssueKeeps(builtin: Builtin, top: Option<RuntimeValue>, below: Option<RuntimeValue>, ledger: Ledger,
                   limits: Limits)
    ensures match IssueEffect(builtin, top, below, ledger, limits)
            case Refused(_, after) => Keeps(ledger.watchers, after.watchers)
            case Issued(_, after) => Keeps(ledger.watchers, after.watchers)
  {
  }

  lemma StepKeeps(m: Machine, c: Core)
    requires c.pc < |m.program.code|
    ensures match StepOp(m, c)
            case Faulted(_, after) => Keeps(c.ledger.watchers, after.watchers)
            case Moved(core) => Keeps(c.ledger.watchers, core.ledger.watchers)
            case Suspended(_, core) => Keeps(c.ledger.watchers, core.ledger.watchers)
  {
    hide IssueEffect;
    if m.program.code[c.pc].CallOp? {
      IssueKeeps(m.program.code[c.pc].builtin, Peek(c.stack, 0), Peek(c.stack, 1), Fetched(c).ledger, m.program.limits);
    }
  }

  lemma {:induction false} AdvanceKeeps(m: Machine, vm: VmState, slice: nat)
    ensures Keeps(vm.core.ledger.watchers, AdvanceInner(m, vm, slice).0.core.ledger.watchers)
    decreases slice
  {
    hide StepOp;
    if slice > 0 {
      if vm.core.pc < |m.program.code| { StepKeeps(m, vm.core); }
      var (vm1, step) := Tick(m, vm);
      if step.None? { AdvanceKeeps(m, vm1, slice - 1); }
    }
  }

  lemma {:induction false} WatchersMonotone(m: Machine, h: History, slice: nat, requests: seq<Request>)
    ensures Keeps(h.vm.core.ledger.watchers, HandleAll(m, h, slice, requests).vm.core.ledger.watchers)
    decreases |requests|
  {
    if requests != [] {
      var h1 := Handle(m, h, slice, requests[0]);
      HandleKeeps(m, h, slice, requests[0]);
      WatchersMonotone(m, h1, slice, requests[1..]);
    }
  }

  lemma HandleKeeps(m: Machine, h: History, slice: nat, request: Request)
    ensures Keeps(h.vm.core.ledger.watchers, Handle(m, h, slice, request).vm.core.ledger.watchers)
  {
    hide AdvanceInner;
    if request.AdvanceRequest? && h.vm.failure.None? && h.vm.pending.None? { AdvanceKeeps(m, h.vm, slice); }
  }
}
