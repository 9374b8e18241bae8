/** Every sequence of calls on the machine is a closed run: a mark that arrives between two slices, an
    interrupt, a reply out of place and every acknowledgement become the deliveries and answers of
    one evaluation of the syntax tree. So what is proved of the tree holds of every driver. */
module MacroRequests {
  import opened Wrappers
  import opened MacroCore
  import opened MacroSemantics
  import opened MacroMachine
  import opened MacroVm
  import opened MacroProtocol

  // ---------- the script of a driver ----------

  datatype Script = Script(answers: seq<Answer>, deliveries: seq<Delivery>)

  const SILENCE := Script([], [])

  function Quiets(n: nat): (quiets: seq<Delivery>)
    ensures |quiets| == n
  {
    if n == 0 then [] else [QUIET] + Quiets(n - 1)
  }

  /** One more mark before the next unit of work. */
  function MarkedDelivery(watcher: nat, deliveries: seq<Delivery>): seq<Delivery> {
    if deliveries == [] then [Delivery([watcher], None)]
    else [deliveries[0].(marks := [watcher] + deliveries[0].marks)] + deliveries[1..]
  }

  /** One more mark before the answer, if there will be one. */
  function MarkedAnswer(watcher: nat, answers: seq<Answer>): seq<Answer> {
    if answers == [] then [] else [answers[0].(marks := [watcher] + answers[0].marks)] + answers[1..]
  }

  function Executed(before: VmState, after: VmState): nat {
    if after.core.ledger.instructions >= before.core.ledger.instructions
    then after.core.ledger.instructions - before.core.ledger.instructions
    else 0
  }

  /** What a sequence of calls amounts to. */
  function ScriptOf(m: Machine, vm: VmState, slice: nat, requests: seq<Request>): Script
    decreases |requests|
  {
    if requests == [] || vm.failure.Some? then SILENCE else
    match requests[0]
    case MarkRequest(watcher) =>
      var rest := ScriptOf(m, MarkMatched(vm, watcher), slice, requests[1..]);
      if vm.pending.None? then rest.(deliveries := MarkedDelivery(watcher, rest.deliveries))
      else rest.(answers := MarkedAnswer(watcher, rest.answers))
    case ReplyRequest(reply) =>
      if vm.pending.None? then Script([], [Delivery([], Some(reply))]) else
      var rest := ScriptOf(m, Respond(vm, reply), slice, requests[1..]);
      rest.(answers := [Answer([], reply)] + rest.answers)
    case AdvanceRequest =>
      var after := Advance(m, vm, slice).0;
      var rest := ScriptOf(m, after, slice, requests[1..]);
      rest.(deliveries := Quiets(Executed(vm, after)) + rest.deliveries)
  }

  /** The closed run from a machine in any state, with what the driver will do. */
  function RestOfRun(m: Machine, vm: VmState, s: Script, issued: seq<Effect>): RunResult {
    var w := World(vm.core.ledger, s.answers, issued, s.deliveries);
    match vm.failure
    case Some(code) => Fault(code, w)
    case None =>
      match vm.pending
      case None => Run(m, Config(vm.core.pc, vm.core.stack, vm.core.slots, w))
      case Some(effect) =>
        match Answered(effect, w)
        case Stops(result) => result
        case Silent(w1) => Run(m, Config(vm.core.pc, vm.core.stack, vm.core.slots, w1))
        case Yields(v, w1) => Run(m, Config(vm.core.pc, vm.core.stack + [v], vm.core.slots, w1))
  }

  /** Two results that a driver cannot tell apart: the same effects and the same end. */
  predicate Alike(a: RunResult, b: RunResult) {
    a.outcome == b.outcome && a.world.trace == b.world.trace
  }

  // ---------- one call ----------

  lemma RunTurns(m: Machine, c: Config)
    ensures Run(m, c) == match TurnOf(m, c) { case Over(result) => result case Again(c1) => Run(m, c1) }
  {
    hide TurnOf;
  }

  /** A mark is delivered before the next instruction. */
  lemma MarkTraced(m: Machine, vm: VmState, watcher: nat, s: Script, issued: seq<Effect>)
    requires vm.failure.None? && vm.pending.None?
    ensures RestOfRun(m, vm, s.(deliveries := MarkedDelivery(watcher, s.deliveries)), issued) ==
              RestOfRun(m, MarkMatched(vm, watcher), s, issued)
  {
    hide Run, TurnAfter, Mark;
    var core := vm.core;
    var w := World(core.ledger, s.answers, issued, MarkedDelivery(watcher, s.deliveries));
    var w1 := World(core.ledger.(watchers := Mark(core.ledger.watchers, watcher)), s.answers, issued, s.deliveries);
    MarkFirst(core.ledger.watchers, watcher, Due(w1).marks);
    assert Due(w).marks == [watcher] + Due(w1).marks;
    assert Delivered(w) == Delivered(w1);
    RunTurns(m, Config(core.pc, core.stack, core.slots, w));
    RunTurns(m, Config(core.pc, core.stack, core.slots, w1));
  }

  lemma MarkFirst(watchers: seq<bool>, watcher: nat, marks: seq<nat>)
    ensures MarkAll(watchers, [watcher] + marks) == MarkAll(Mark(watchers, watcher), marks)
  {
    assert ([watcher] + marks)[1..] == marks;
  }

  /** A mark while an effect is pending comes before its answer. */
  lemma MarkAnswered(m: Machine, vm: VmState, watcher: nat, s: Script, issued: seq<Effect>)
    requires vm.failure.None? && vm.pending.Some?
    ensures Alike(RestOfRun(m, vm, s.(answers := MarkedAnswer(watcher, s.answers)), issued),
                  RestOfRun(m, MarkMatched(vm, watcher), s, issued))
  {
    hide Run, Mark, Acknowledge;
    if s.answers != [] { MarkFirst(vm.core.ledger.watchers, watcher, s.answers[0].marks); }
  }

  lemma ReplyTraced(m: Machine, vm: VmState, reply: Reply, s: Script, issued: seq<Effect>)
    requires vm.failure.None? && vm.pending.Some?
    ensures Alike(RestOfRun(m, vm, s.(answers := [Answer([], reply)] + s.answers), issued),
                  RestOfRun(m, Respond(vm, reply), s, issued))
  {
    hide Run, Acknowledge;
    assert ([Answer([], reply)] + s.answers)[1..] == s.answers;
  }

  lemma StopTraced(m: Machine, vm: VmState, reply: Reply, issued: seq<Effect>)
    requires vm.failure.None? && vm.pending.None?
    ensures Alike(RestOfRun(m, vm, Script([], [Delivery([], Some(reply))]), issued),
                  RestOfRun(m, Respond(vm, reply), SILENCE, issued))
  {
    hide TurnAfter;
  }

  /** An undisturbed turn. */
  lemma QuietTurn(m: Machine, c: Config)
    requires c.world.deliveries != [] && c.world.deliveries[0] == QUIET
    ensures TurnOf(m, c) == TurnAfter(m, c.(world := c.world.(deliveries := c.world.deliveries[1..])))
  {
    hide TurnAfter;
  }

  lemma NoDeliveries(m: Machine, c: Config)
    requires c.world.deliveries == []
    ensures TurnOf(m, c) == TurnAfter(m, c)
  {
    hide TurnAfter;
  }

  /** One pass of the loop in `advance_inner` is one undisturbed turn. */
  lemma TickTraced(m: Machine, vm: VmState, s: Script, issued: seq<Effect>)
    requires vm.failure.None? && vm.pending.None?
    ensures var (vm1, step) := Tick(m, vm);
            var quiet := Script(s.answers, [QUIET] + s.deliveries);
            match step
            case None => && vm1.failure.None? && vm1.pending.None? && Executed(vm, vm1) == 1
                         && vm1.core.ledger.instructions == vm.core.ledger.instructions + 1
                         && RestOfRun(m, vm, quiet, issued) == RestOfRun(m, vm1, s, issued)
            case Some(Complete) => vm1 == vm
            case Some(EffectStep(effect)) =>
              && vm1.pending == Some(effect) && vm1.failure.None?
              && vm1.core.ledger.instructions == vm.core.ledger.instructions + 1
              && RestOfRun(m, vm, quiet, issued) == RestOfRun(m, vm1, s, issued + [effect])
            case Some(Error(code)) =>
              && vm1.failure == Some(code) && vm1.pending.None?
              && vm.core.ledger.instructions <= vm1.core.ledger.instructions <= vm.core.ledger.instructions + 1
              && Alike(RestOfRun(m, vm, Script(s.answers, []), issued),
                       Fault(code, World(vm1.core.ledger, s.answers, issued, [])))
              && Alike(RestOfRun(m, vm, Script(s.answers, [QUIET]), issued),
                       Fault(code, World(vm1.core.ledger, s.answers, issued, [])))
            case Some(Yielded) => false
  {
    hide Run, TurnOf, StepOp, Answered;
    if vm.core.pc < |m.program.code| { StepCounted(m, vm); }
    QuietRun(m, vm, s, issued);
    QuietRun(m, vm, Script(s.answers, []), issued);
    assert [QUIET] + [] == [QUIET];
  }

  /** An undisturbed turn, or one with nothing left to deliver. */
  lemma QuietRun(m: Machine, vm: VmState, s: Script, issued: seq<Effect>)
    ensures Run(m, ConfigWith(vm, Script(s.answers, [QUIET] + s.deliveries), issued)) ==
              Taken(m, TurnAfter(m, ConfigWith(vm, s, issued)))
    ensures s.deliveries == [] ==>
              Run(m, ConfigWith(vm, s, issued)) == Taken(m, TurnAfter(m, ConfigWith(vm, s, issued)))
  {
    hide Run, TurnOf, TurnAfter;
    var c := ConfigWith(vm, Script(s.answers, [QUIET] + s.deliveries), issued);
    assert c.world.deliveries[1..] == s.deliveries;
    RunTurns(m, c);
    QuietTurn(m, c);
    if s.deliveries == [] {
      RunTurns(m, ConfigWith(vm, s, issued));
      NoDeliveries(m, ConfigWith(vm, s, issued));
    }
  }

  function Taken(m: Machine, turn: Turn): RunResult {
    match turn
    case Over(result) => result
    case Again(c) => Run(m, c)
  }

  function ConfigWith(vm: VmState, s: Script, issued: seq<Effect>): Config {
    Config(vm.core.pc, vm.core.stack, vm.core.slots, World(vm.core.ledger, s.answers, issued, s.deliveries))
  }

  lemma StepCounted(m: Machine, vm: VmState)
    requires vm.core.pc < |m.program.code|
    ensures match StepOp(m, vm.core)
            case Faulted(_, ledger) =>
              vm.core.ledger.instructions <= ledger.instructions <= vm.core.ledger.instructions + 1
            case Moved(core) => core.ledger.instructions == vm.core.ledger.instructions + 1
            case Suspended(_, core) => core.ledger.instructions == vm.core.ledger.instructions + 1
  {
  }

  /** A slice of the CPU is as many undisturbed turns as it executes instructions. */
  lemma {:induction false} AdvanceTraced(m: Machine, vm: VmState, slice: nat, s: Script, issued: seq<Effect>)
    requires vm.failure.None? && vm.pending.None?
    requires AdvanceInner(m, vm, slice).0.failure.Some? ==> s == SILENCE
    ensures var (vm1, step) := AdvanceInner(m, vm, slice);
            && vm1.core.ledger.instructions >= vm.core.ledger.instructions
            && (vm1.pending.Some? <==> step.EffectStep?) && (step.EffectStep? ==> vm1.pending == Some(step.effect))
            && Alike(RestOfRun(m, vm, s.(deliveries := Quiets(Executed(vm, vm1)) + s.deliveries), issued),
                     RestOfRun(m, vm1, s, if step.EffectStep? then issued + [step.effect] else issued))
    decreases slice
  {
    hide RestOfRun, Tick;
    var (end, last) := AdvanceInner(m, vm, slice);
    if slice == 0 {
      assert Quiets(0) + s.deliveries == s.deliveries;
    } else {
      var (vm1, step) := Tick(m, vm);
      if step.None? {
        var later := s.(deliveries := Quiets(Executed(vm1, end)) + s.deliveries);
        TickTraced(m, vm, later, issued);
        AdvanceTraced(m, vm1, slice - 1, s, issued);
        assert Quiets(Executed(vm, end)) == [QUIET] + Quiets(Executed(vm1, end));
        assert [QUIET] + later.deliveries == Quiets(Executed(vm, end)) + s.deliveries;
      } else {
        TickTraced(m, vm, s, issued);
        OneQuiet(s.deliveries);
        FailedEnd(m, end, s, issued);
      }
    }
  }

  lemma OneQuiet(deliveries: seq<Delivery>)
    ensures Quiets(0) + deliveries == deliveries && Quiets(1) + deliveries == [QUIET] + deliveries
    ensures Quiets(0) + [] == [] && Quiets(1) + [] == [QUIET]
  {
    assert Quiets(1) == [QUIET] + Quiets(0) == [QUIET];
  }

  lemma FailedEnd(m: Machine, vm: VmState, s: Script, issued: seq<Effect>)
    ensures vm.failure.Some? ==>
              RestOfRun(m, vm, s, issued) == Fault(vm.failure.value,
                                                   World(vm.core.ledger, s.answers, issued, s.deliveries))
  {
  }

  // ---------- every sequence of calls ----------

  lemma AlikeChain(a: RunResult, b: RunResult, c: RunResult)
    requires Alike(a, b) && Alike(b, c)
    ensures Alike(a, c)
  {
  }

  /** After any calls, right or wrong and in any order, the machine is where a closed run is: it has
      issued the same effects and will end the same way. */
  lemma {:induction false} RequestsTraced(m: Machine, h: History, slice: nat, requests: seq<Request>)
    requires h.vm.failure.None?
    ensures var h1 := HandleAll(m, h, slice, requests);
            Alike(RestOfRun(m, h.vm, ScriptOf(m, h.vm, slice, requests), h.issued),
                  RestOfRun(m, h1.vm, SILENCE, h1.issued))
    decreases |requests|
  {
    hide RestOfRun, Alike, Respond, AdvanceInner, HandleAll, Quiets;
    HandleFirst(m, h, slice, requests);
    if requests == [] {
      AlikeSelf(RestOfRun(m, h.vm, SILENCE, h.issued));
    } else {
      var h1, rest := Handle(m, h, slice, requests[0]), requests[1..];
      var s, end := ScriptOf(m, h1.vm, slice, rest), HandleAll(m, h1, slice, rest);
      FirstTraced(m, h, slice, requests);
      if h1.vm.failure.Some? {
        FailureIsFinal(m, h1, slice, rest);
        assert s == SILENCE;
      } else {
        RequestsTraced(m, h1, slice, rest);
        AlikeChain(RestOfRun(m, h.vm, ScriptOf(m, h.vm, slice, requests), h.issued), RestOfRun(m, h1.vm, s, h1.issued),
                   RestOfRun(m, end.vm, SILENCE, end.issued));
      }
    }
  }

  lemma AlikeSelf(a: RunResult)
    ensures Alike(a, a)
  {
  }

  lemma HandleFirst(m: Machine, h: History, slice: nat, requests: seq<Request>)
    ensures requests == [] ==> HandleAll(m, h, slice, requests) == h
    ensures requests != [] ==>
              HandleAll(m, h, slice, requests) == HandleAll(m, Handle(m, h, slice, requests[0]), slice, requests[1..])
  {
    hide Handle;
  }

  /** One call moves the machine along the run that all the calls amount to. */
  lemma FirstTraced(m: Machine, h: History, slice: nat, requests: seq<Request>)
    requires h.vm.failure.None? && requests != []
    ensures var h1 := Handle(m, h, slice, requests[0]);
            Alike(RestOfRun(m, h.vm, ScriptOf(m, h.vm, slice, requests), h.issued),
                  RestOfRun(m, h1.vm, ScriptOf(m, h1.vm, slice, requests[1..]), h1.issued))
  {
    hide RestOfRun, Respond, AdvanceInner, Quiets;
    var h1, rest := Handle(m, h, slice, requests[0]), requests[1..];
    var s := ScriptOf(m, h1.vm, slice, rest);
    match requests[0]
    case MarkRequest(watcher) =>
      if h.vm.pending.None? {
        MarkTraced(m, h.vm, watcher, s, h.issued);
      } else {
        MarkAnswered(m, h.vm, watcher, s, h.issued);
      }
    case ReplyRequest(reply) =>
      if h.vm.pending.None? {
        StopTraced(m, h.vm, reply, h.issued);
        assert h1.vm.failure.Some? by { FailsOutOfPlace(h.vm, reply); }
      } else {
        ReplyTraced(m, h.vm, reply, s, h.issued);
      }
    case AdvanceRequest =>
      if h.vm.pending.None? {
        AdvanceTraced(m, h.vm, slice, s, h.issued);
      } else {
        assert Quiets(0) + s.deliveries == s.deliveries by { OneQuiet(s.deliveries); }
      }
  }

  lemma FailsOutOfPlace(vm: VmState, reply: Reply)
    requires vm.failure.None? && vm.pending.None?
    ensures Respond(vm, reply).failure.Some?
  {
  }

  /** A run only adds to the effects it starts with. */
  lemma {:induction false} TraceGrows(m: Machine, c: Config)
    ensures c.world.trace <= Run(m, c).world.trace
    decreases Remaining(c.world, m.Setting())
  {
    hide TurnOf;
    TurnGrows(m, c);
    if TurnOf(m, c).Again? { TraceGrows(m, TurnOf(m, c).config); }
  }

  lemma TurnGrows(m: Machine, c: Config)
    ensures match TurnOf(m, c)
            case Over(result) => c.world.trace <= result.world.trace
            case Again(c1) => c.world.trace <= c1.world.trace
  {
    hide StepOp;
  }

  /** What the rest of a silent run is, by the state it starts from. */
  lemma SilentRest(m: Machine, vm: VmState, issued: seq<Effect>)
    ensures var r := RestOfRun(m, vm, SILENCE, issued);
            && issued <= r.world.trace
            && (vm.failure.Some? ==> r.outcome == Failed(vm.failure.value) && r.world.trace == issued)
            && (vm.failure.None? && vm.pending.Some? ==> r.outcome == Waiting && r.world.trace == issued)
            && (vm.failure.None? && vm.pending.None? && Tick(m, vm).1 == Some(Complete) ==>
                r.outcome == Completed && r.world.trace == issued)
  {
    hide Run, StepOp, TurnOf, Acknowledge;
    var c := ConfigWith(vm, SILENCE, issued);
    TraceGrows(m, c);
    RunTurns(m, c);
    NoDeliveries(m, c);
  }
}
