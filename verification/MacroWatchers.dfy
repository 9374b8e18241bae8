/** Watchers: over every sequence of calls they are numbered by their creation, and an effect never
    names one that has not been created. */
module MacroWatchers {
  import opened Wrappers
  import opened MacroCore
  import opened MacroSemantics
  import opened MacroMachine
  import opened MacroVm
  import opened MacroProtocol
  import opened MacroPrimitives

  function WatchCount(issued: seq<Effect>): nat {
    if issued == [] then 0
    else WatchCount(issued[..|issued| - 1]) + (if issued[|issued| - 1].kind.WatchEffect? then 1 else 0)
  }

  /** After `count` watches, the next one bears the next number and a wait names an earlier one. */
  predicate Names(effect: Effect, count: nat) {
    && (effect.kind.WatchEffect? ==> effect.kind.watcher == count)
    && (effect.kind.WaitEffect? ==> effect.kind.awaited < count)
  }

  ghost predicate Numbered(issued: seq<Effect>) {
    forall i | 0 <= i < |issued| :: Names(issued[i], WatchCount(issued[..i]))
  }

  predicate Known(v: RuntimeValue, count: nat) {
    v.Watcher? ==> v.id < count
  }

  ghost predicate KnownCore(c: Core, count: nat) {
    && (forall i | 0 <= i < |c.stack| :: Known(c.stack[i], count))
    && (forall i | 0 <= i < |c.slots| && c.slots[i].Some? :: Known(c.slots[i].value, count))
  }

  /** The effect that is pending is the last one issued, so its watcher is known. */
  predicate KnownEffect(effect: Effect, count: nat) {
    && (effect.kind.WatchEffect? ==> effect.kind.watcher < count)
    && (effect.kind.WaitEffect? ==> effect.kind.awaited < count)
  }

  ghost predicate WatchersInOrder(h: History) {
    var count := WatchCount(h.issued);
    && Numbered(h.issued) && KnownCore(h.vm.core, count) && h.vm.failure != Some(UnknownWatcher)
    && (h.vm.failure == Some(EffectBudget) || |h.vm.core.ledger.watchers| == count)
    && (h.vm.pending.Some? ==> KnownEffect(h.vm.pending.value, count))
  }

  lemma IssueNames(builtin: Builtin, top: Option<RuntimeValue>, below: Option<RuntimeValue>, ledger: Ledger,
                   limits: Limits)
    requires below.Some? ==> Known(below.value, |ledger.watchers|)
    requires IssueEffect(builtin, top, below, ledger, limits).Issued?
    ensures var issue := IssueEffect(builtin, top, below, ledger, limits);
            && Names(issue.effect, |ledger.watchers|)
            && |issue.ledger.watchers| == |ledger.watchers| + if issue.effect.kind.WatchEffect? then 1 else 0
  {
    hide IssueWatch, IssueWait;
    OperandFits(builtin, top, below, ledger, limits);
    if builtin.Watch? {
      WatchIssuedExactly(top.value.scalar.text, ledger, limits);
    } else if builtin.Wait? || builtin.Expect? {
      TimedIssuedExactly(top.value.scalar.number, below, builtin.Expect?, ledger, limits);
    }
  }

  lemma OperandFits(builtin: Builtin, top: Option<RuntimeValue>, below: Option<RuntimeValue>, ledger: Ledger,
                    limits: Limits)
    requires IssueEffect(builtin, top, below, ledger, limits).Issued?
    ensures top.Some? && top.value.Scalar?
    ensures builtin.Watch? ==> top.value.scalar.Str?
    ensures builtin.Wait? || builtin.Expect? ==> top.value.scalar.Int?
  {
  }

  lemma RefusedKeeps(builtin: Builtin, top: Option<RuntimeValue>, below: Option<RuntimeValue>, ledger: Ledger,
                     limits: Limits)
    requires IssueEffect(builtin, top, below, ledger, limits).Refused?
    ensures var issue := IssueEffect(builtin, top, below, ledger, limits);
            issue.code != UnknownWatcher && (issue.code != EffectBudget ==>
                                             |issue.ledger.watchers| == |ledger.watchers|)
  {
  }

  lemma ReplaceKnown(c: Core, k: nat, r: Result<RuntimeValue>, count: nat)
    requires KnownCore(c, count) && (r.Ok? ==> Known(r.value, count))
             && (r.Err? ==> r.code !in {UnknownWatcher, EffectBudget})
    ensures match Replace(c, k, r)
            case Moved(core) => KnownCore(core, count) && core.ledger == c.ledger
            case Faulted(code, after) => code !in {UnknownWatcher, EffectBudget} && after == c.ledger
            case Suspended(_, _) => false
  {
  }

  /** What one instruction does to the watchers. */
  ghost predicate Watched(r: StepResult, count: nat) {
    match r
    case Moved(core) => KnownCore(core, count) && |core.ledger.watchers| == count
    case Faulted(code, after) => code != UnknownWatcher && (code != EffectBudget ==> |after.watchers| == count)
    case Suspended(effect, core) =>
      && Names(effect, count) && KnownCore(core, count)
      && |core.ledger.watchers| == count + if effect.kind.WatchEffect? then 1 else 0
  }

  lemma OperationsAreScalar(op: BinaryOp, u: UnaryOp, a: RuntimeValue, b: RuntimeValue, max: nat)
    ensures var r := ApplyBinary(op, a, b, max);
            if r.Ok? then r.value.Scalar? else r.code !in {UnknownWatcher, EffectBudget}
    ensures var r := ApplyUnary(u, b); if r.Ok? then r.value.Scalar? else r.code !in {UnknownWatcher, EffectBudget}
    ensures var r := FormatInteger(b, max); if r.Ok? then r.value.Scalar? else r.code !in {UnknownWatcher, EffectBudget}
  {
  }

  lemma OpWatched(m: Machine, op: Op, c: Core, count: nat)
    requires KnownCore(c, count) && |c.ledger.watchers| == count
    ensures Watched(ExecuteOp(m, op, c), count)
  {
    hide IssueEffect, Replace, ApplyBinary, ApplyUnary, FormatInteger, KnownCore;
    match op
    case Push(v) => ReplaceKnown(c, 0, Ok(Scalar(v)), count);
    case Arg(name) => ReplaceKnown(c, 0, Argument(name, m.Setting()), count);
    case PromptOp(name) => ReplaceKnown(c, 0, Prompt(name, m.Setting()), count);
    case Load(i) =>
      SlotKnown(c, i, count);
      ReplaceKnown(c, 0, LoadSlot(c.slots, i), count);
    case MatchedOp =>
      if c.stack != [] {
        TopKnown(c, 0, count);
        ReplaceKnown(c, 1, WatcherFlag(Peek(c.stack, 0).value, c.ledger.watchers), count);
      }
    case IntegerToString =>
      if c.stack != [] {
        OperationsAreScalar(Add, Not, Peek(c.stack, 0).value, Peek(c.stack, 0).value, m.program.limits.maxStringBytes);
        ReplaceKnown(c, 1, FormatInteger(Peek(c.stack, 0).value, m.program.limits.maxStringBytes), count);
      }
    case UnaryOperation(u) =>
      if c.stack != [] {
        OperationsAreScalar(Add, u, Peek(c.stack, 0).value, Peek(c.stack, 0).value, 0);
        ReplaceKnown(c, 1, ApplyUnary(u, Peek(c.stack, 0).value), count);
      }
    case BinaryOperation(o) =>
      if |c.stack| >= 2 {
        var a, b := Peek(c.stack, 1).value, Peek(c.stack, 0).value;
        OperationsAreScalar(o, Not, a, b, m.program.limits.maxStringBytes);
        ReplaceKnown(c, 2, ApplyBinary(o, a, b, m.program.limits.maxStringBytes), count);
      }
    case CallOp(builtin) =>
      TopKnown(c, 1, count);
      var issue := IssueEffect(builtin, Peek(c.stack, 0), Peek(c.stack, 1), c.ledger, m.program.limits);
      if issue.Issued? {
        IssueNames(builtin, Peek(c.stack, 0), Peek(c.stack, 1), c.ledger, m.program.limits);
        FewerKnown(c, Arity(builtin), count);
      } else {
        RefusedKeeps(builtin, Peek(c.stack, 0), Peek(c.stack, 1), c.ledger, m.program.limits);
      }
    case _ => PlainWatched(m, op, c, count);
  }

  lemma SlotKnown(c: Core, i: nat, count: nat)
    requires KnownCore(c, count)
    ensures LoadSlot(c.slots, i).Ok? ==> Known(LoadSlot(c.slots, i).value, count)
  {
  }

  lemma TopKnown(c: Core, k: nat, count: nat)
    requires KnownCore(c, count)
    ensures Peek(c.stack, k).Some? ==> Known(Peek(c.stack, k).value, count)
  {
  }

  lemma FewerKnown(c: Core, k: nat, count: nat)
    requires KnownCore(c, count)
    ensures forall l: Ledger :: KnownCore(c.(stack := Dropped(c.stack, k), ledger := l), count)
  {
  }

  lemma PlainWatched(m: Machine, op: Op, c: Core, count: nat)
    requires KnownCore(c, count) && |c.ledger.watchers| == count
    requires op.Store? || op.Pop? || op.Jump? || op.JumpIfFalse? || op.AndJump? || op.OrJump?
    ensures Watched(ExecuteOp(m, op, c), count)
  {
  }

  lemma TickWatched(m: Machine, h: History)
    requires WatchersInOrder(h) && h.vm.failure.None? && h.vm.pending.None?
    ensures WatchersInOrder(Ticked(m, h))
  {
    hide ExecuteOp, KnownCore;
    var count := WatchCount(h.issued);
    NoneKnown(count);
    if h.vm.core.pc < |m.program.code| {
      FetchedKnown(h.vm.core, count);
      OpWatched(m, m.program.code[h.vm.core.pc], Fetched(h.vm.core), count);
      var (vm, step) := Tick(m, h.vm);
      if step.Some? && step.value.EffectStep? {
        IssuedNumbered(h.issued, step.value.effect);
        MoreKnown(vm.core, count);
      }
    }
  }

  lemma FetchedKnown(c: Core, count: nat)
    requires KnownCore(c, count)
    ensures KnownCore(Fetched(c), count) && Fetched(c).ledger.watchers == c.ledger.watchers
  {
  }

  lemma NoneKnown(count: nat)
    ensures forall l: Ledger :: KnownCore(Core(0, [], [], l), count)
  {
  }

  lemma MoreKnown(c: Core, count: nat)
    requires KnownCore(c, count)
    ensures KnownCore(c, count + 1)
  {
  }

  lemma IssuedNumbered(issued: seq<Effect>, effect: Effect)
    requires Numbered(issued) && Names(effect, WatchCount(issued))
    ensures Numbered(issued + [effect])
    ensures WatchCount(issued + [effect]) == WatchCount(issued) + if effect.kind.WatchEffect? then 1 else 0
  {
    hide Names;
    var more := issued + [effect];
    assert more[..|issued|] == issued;
    assert forall i | 0 <= i < |issued| :: more[..i] == issued[..i];
  }

  lemma {:induction false} AdvanceWatched(m: Machine, h: History, slice: nat)
    requires WatchersInOrder(h) && h.vm.failure.None? && h.vm.pending.None?
    ensures WatchersInOrder(Advanced(m, h, slice))
    decreases slice
  {
    hide StepOp, WatchersInOrder;
    if slice > 0 {
      TickWatched(m, h);
      var (vm1, step) := Tick(m, h.vm);
      if step.None? { AdvanceWatched(m, History(vm1, h.issued), slice - 1); }
    }
  }

  lemma RespondWatched(h: History, reply: Reply)
    requires WatchersInOrder(h)
    ensures WatchersInOrder(h.(vm := Respond(h.vm, reply)))
  {
    hide Numbered, WatchCount;
    if h.vm.failure.None? && h.vm.pending.Some? {
      AcceptedExactly(h.vm.pending.value, reply, h.vm.core.ledger);
      if Acknowledge(h.vm.pending.value, reply, h.vm.core.ledger).Accepted? {
        AcceptedGives(h.vm.pending.value, reply, h.vm.core.ledger);
      }
    }
  }

  lemma MarkWatched(h: History, watcher: nat)
    requires WatchersInOrder(h)
    ensures WatchersInOrder(h.(vm := MarkMatched(h.vm, watcher)))
  {
    hide Numbered, WatchCount;
  }

  lemma {:induction false} HandleAllWatched(m: Machine, h: History, slice: nat, requests: seq<Request>)
    requires WatchersInOrder(h)
    ensures WatchersInOrder(HandleAll(m, h, slice, requests))
    decreases |requests|
  {
    hide WatchersInOrder, AdvanceInner, Respond;
    if requests != [] {
      var h1 := Handle(m, h, slice, requests[0]);
      match requests[0] {
        case AdvanceRequest =>
          if h.vm.failure.None? && h.vm.pending.None? { AdvanceWatched(m, h, slice); } else { assert h1 == h; }
        case ReplyRequest(reply) => RespondWatched(h, reply);
        case MarkRequest(watcher) => MarkWatched(h, watcher);
      }
      HandleAllWatched(m, h1, slice, requests[1..]);
    }
  }

  /** Over every sequence of calls, whatever the code: the n-th watch that is issued is watcher n, every
      wait names a watcher created before it, there are as many flags as watches unless IDs ran out, and
      no run fails for an unknown watcher. */
  lemma WatchersAreNumbered(m: Machine, slice: nat, requests: seq<Request>)
    ensures var h := HandleAll(m, History(InitialVm(m), NO_EFFECTS), slice, requests);
            && (forall i | 0 <= i < |h.issued| :: Names(h.issued[i], WatchCount(h.issued[..i])))
            && (h.vm.failure != Some(EffectBudget) ==> |h.vm.core.ledger.watchers| == WatchCount(h.issued))
            && h.vm.failure != Some(UnknownWatcher)
  {
    HandleAllWatched(m, History(InitialVm(m), NO_EFFECTS), slice, requests);
  }

  // ---------- what the flags say ----------

  /** The call marks watcher `id`: by its number, or by confirming a wait for it as matched. */
  predicate Raises(vm: VmState, request: Request, id: nat) {
    && vm.failure.None? && id < |vm.core.ledger.watchers|
    && match request
       case AdvanceRequest => false
       case MarkRequest(watcher) => watcher == id
       case ReplyRequest(reply) =>
         && vm.pending.Some? && vm.pending.value.kind.WaitEffect? && vm.pending.value.kind.awaited == id
         && reply == Resume(vm.pending.value.id, Matched(true))
  }

  /** Some call of the sequence does. */
  predicate Raised(m: Machine, h: History, slice: nat, requests: seq<Request>, id: nat)
    decreases |requests|
  {
    requests != []
    && (Raises(h.vm, requests[0], id) || Raised(m, Handle(m, h, slice, requests[0]), slice, requests[1..], id))
  }

  predicate Flag(vm: VmState, id: nat) {
    id < |vm.core.ledger.watchers| && vm.core.ledger.watchers[id]
  }

  /** `after` is `before` and possibly new flags that are not set. */
  predicate OnlyUnset(before: seq<bool>, after: seq<bool>) {
    before <= after && forall i | |before| <= i < |after| :: !after[i]
  }

  lemma StepUnset(m: Machine, c: Core)
    requires c.pc < |m.program.code|
    ensures match StepOp(m, c)
            case Faulted(_, after) => OnlyUnset(c.ledger.watchers, after.watchers)
            case Moved(core) => OnlyUnset(c.ledger.watchers, core.ledger.watchers)
            case Suspended(_, core) => OnlyUnset(c.ledger.watchers, core.ledger.watchers)
  {
    hide IssueEffect;
    if m.program.code[c.pc].CallOp? {
      IssueUnset(m.program.code[c.pc].builtin, Peek(c.stack, 0), Peek(c.stack, 1), Fetched(c).ledger, m.program.limits);
    }
  }

  lemma IssueUnset(builtin: Builtin, top: Option<RuntimeValue>, below: Option<RuntimeValue>, ledger: Ledger,
                   limits: Limits)
    ensures OnlyUnset(ledger.watchers, IssueEffect(builtin, top, below, ledger, limits).ledger.watchers)
  {
  }

  lemma {:induction false} AdvanceUnset(m: Machine, vm: VmState, slice: nat)
    ensures OnlyUnset(vm.core.ledger.watchers, AdvanceInner(m, vm, slice).0.core.ledger.watchers)
    decreases slice
  {
    hide StepOp;
    if slice > 0 {
      if vm.core.pc < |m.program.code| { StepUnset(m, vm.core); }
      var (vm1, step) := Tick(m, vm);
      if step.None? { AdvanceUnset(m, vm1, slice - 1); }
    }
  }

  lemma HandleRaises(m: Machine, h: History, slice: nat, request: Request, id: nat)
    ensures Flag(Handle(m, h, slice, request).vm, id) <==> Flag(h.vm, id) || Raises(h.vm, request, id)
  {
    hide AdvanceInner;
    match request
    case AdvanceRequest => if h.vm.failure.None? && h.vm.pending.None? { AdvanceUnset(m, h.vm, slice); }
    case MarkRequest(_) =>
    case ReplyRequest(reply) =>
      if h.vm.failure.None? && h.vm.pending.Some? {
        AcceptedExactly(h.vm.pending.value, reply, h.vm.core.ledger);
        if Acknowledge(h.vm.pending.value, reply, h.vm.core.ledger).Accepted? {
          AcceptedGives(h.vm.pending.value, reply, h.vm.core.ledger);
        } else {
          RejectedKeeps(h.vm.pending.value, reply, h.vm.core.ledger);
        }
      }
  }

  lemma RejectedKeeps(effect: Effect, reply: Reply, ledger: Ledger)
    requires Acknowledge(effect, reply, ledger).Rejected?
    ensures Acknowledge(effect, reply, ledger).ledger == ledger
  {
  }

  lemma {:induction false} FlagsFollow(m: Machine, h: History, slice: nat, requests: seq<Request>, id: nat)
    ensures Flag(HandleAll(m, h, slice, requests).vm, id) <==> Flag(h.vm, id) || Raised(m, h, slice, requests, id)
    decreases |requests|
  {
    hide Flag, Raises, AdvanceInner, Respond;
    if requests != [] {
      HandleRaises(m, h, slice, requests[0], id);
      FlagsFollow(m, Handle(m, h, slice, requests[0]), slice, requests[1..], id);
    }
  }

  /** A watcher's flag is set exactly when one of the calls so far has marked that watcher. */
  lemma FlagsSayWhatHappened(m: Machine, slice: nat, requests: seq<Request>, id: nat)
    ensures Flag(HandleAll(m, History(InitialVm(m), NO_EFFECTS), slice, requests).vm, id)
            <==> Raised(m, History(InitialVm(m), NO_EFFECTS), slice, requests, id)
  {
    hide HandleAll, Raised;
    FlagsFollow(m, History(InitialVm(m), NO_EFFECTS), slice, requests, id);
  }
}
