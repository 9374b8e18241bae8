/** The operand stack is empty wherever a statement begins, in every state that any sequence of calls on
    a compiled machine reaches. */
module MacroBoundaries {
  import opened Wrappers
  import opened MacroCore
  import opened MacroSemantics
  import opened MacroMachine
  import opened MacroCompile
  import opened MacroPreservation
  import opened MacroCompiler
  import opened MacroVm
  import opened MacroProtocol
  import opened MacroPrimitives
  import opened MacroHeights

  /** What the acknowledgement of the pending effect will push. */
  function Owed(pending: Option<Effect>): nat {
    if pending.Some? && (pending.value.kind.WatchEffect?
                         || (pending.value.kind.WaitEffect? && !pending.value.kind.strict)) then 1 else 0
  }

  ghost predicate Level(vm: VmState, H: seq<nat>) {
    vm.failure.None? ==> vm.core.pc < |H| && |vm.core.stack| + Owed(vm.pending) == H[vm.core.pc]
  }

  lemma IssueOwed(builtin: Builtin, top: Option<RuntimeValue>, below: Option<RuntimeValue>, ledger: Ledger,
                  limits: Limits)
    requires IssueEffect(builtin, top, below, ledger, limits).Issued?
    ensures Owed(Some(IssueEffect(builtin, top, below, ledger, limits).effect)) == if Leaves(builtin) then 1 else 0
  {
  }

  /** An instruction that keeps to the heights takes the stack from one to the other. */
  lemma OpLevel(m: Machine, op: Op, c: Core, H: seq<nat>)
    requires 0 < c.pc < |H| && Flow(op, c.pc - 1, H) && |c.stack| == H[c.pc - 1]
    ensures match ExecuteOp(m, op, c)
            case Moved(core) => core.pc < |H| && |core.stack| == H[core.pc]
            case Suspended(effect, core) => core.pc == c.pc && |core.stack| + Owed(Some(effect)) == H[c.pc]
            case Faulted(_, _) => true
  {
    hide IssueEffect, ApplyBinary, ApplyUnary, FormatInteger, WatcherFlag, Argument, Prompt, LoadSlot, Owed;
    if op.CallOp? {
      var issue := IssueEffect(op.builtin, Peek(c.stack, 0), Peek(c.stack, 1), c.ledger, m.program.limits);
      if issue.Issued? { IssueOwed(op.builtin, Peek(c.stack, 0), Peek(c.stack, 1), c.ledger, m.program.limits); }
    }
  }

  lemma TickLevel(m: Machine, vm: VmState, H: seq<nat>)
    requires Flows(m.program.code, H, 0, |m.program.code|) && Level(vm, H) && vm.failure.None? && vm.pending.None?
    ensures Level(Tick(m, vm).0, H)
  {
    hide ExecuteOp, Flow;
    if vm.core.pc < |m.program.code| { OpLevel(m, m.program.code[vm.core.pc], Fetched(vm.core), H); }
  }

  lemma {:induction false} AdvanceLevel(m: Machine, vm: VmState, slice: nat, H: seq<nat>)
    requires Flows(m.program.code, H, 0, |m.program.code|) && Level(vm, H) && vm.failure.None? && vm.pending.None?
    ensures Level(AdvanceInner(m, vm, slice).0, H)
    decreases slice
  {
    hide StepOp, Level, Flows;
    if slice > 0 {
      TickLevel(m, vm, H);
      var (vm1, step) := Tick(m, vm);
      if step.None? { AdvanceLevel(m, vm1, slice - 1, H); }
    }
  }

  lemma RespondLevel(vm: VmState, reply: Reply, H: seq<nat>)
    requires Level(vm, H)
    ensures Level(Respond(vm, reply), H)
  {
    if vm.failure.None? && vm.pending.Some? && Acknowledge(vm.pending.value, reply, vm.core.ledger).Accepted? {
      AcceptedExactly(vm.pending.value, reply, vm.core.ledger);
      AcceptedGives(vm.pending.value, reply, vm.core.ledger);
    }
  }

  lemma {:induction false} HandleAllLevel(m: Machine, h: History, slice: nat, requests: seq<Request>, H: seq<nat>)
    requires Flows(m.program.code, H, 0, |m.program.code|) && Level(h.vm, H)
    ensures Level(HandleAll(m, h, slice, requests).vm, H)
    decreases |requests|
  {
    hide AdvanceInner, Respond, Flows;
    if requests != [] {
      match requests[0] {
        case AdvanceRequest => if h.vm.failure.None? && h.vm.pending.None? { AdvanceLevel(m, h.vm, slice, H); }
        case ReplyRequest(reply) => RespondLevel(h.vm, reply, H);
        case MarkRequest(_) =>
      }
      HandleAllLevel(m, Handle(m, h, slice, requests[0]), slice, requests[1..], H);
    }
  }

  /** The heights of a program, its end included. */
  function ProgramHeights(program: seq<Statement>): seq<nat> {
    AllHeights(program) + [0]
  }

  lemma ProgramFlows(program: seq<Statement>, st: Statics, m: Machine)
    requires BracedAll(program) && CodeOf(program, st).Ok? && m.program == CodeOf(program, st).value
    ensures Flows(m.program.code, ProgramHeights(program), 0, |m.program.code|)
    ensures Zeros(ProgramHeights(program), StartsAll(program, 0)) && IsZero(ProgramHeights(program), |m.program.code|)
    ensures IsZero(ProgramHeights(program), 0)
  {
    hide CheckAll, GenAll, AllHeights, BracedAll, NoVoid, Flows;
    var H, code := ProgramHeights(program), m.program.code;
    NoneVoid();
    assert code[0..0 + |code|] == code && H[0..0 + |code|] == AllHeights(program);
    AllFlows(program, OUTERMOST, false, 0, NO_EXITS, m, H);
  }

  /** Whatever the driver does: while the machine has not failed, its program counter is inside the code
      or at its end, the number of its operands is the height of that address, counting the value that a
      pending effect will give, and at the beginning of a statement and at the end there are none. */
  lemma StackEmptyAtStatements(program: seq<Statement>, st: Statics, args: map<string, Value>,
                               prompts: map<string, string>,
                               slice: nat, requests: seq<Request>)
    requires BracedAll(program) && CodeOf(program, st).Ok?
    ensures var m := Machine(CodeOf(program, st).value, args, prompts);
            var vm := HandleAll(m, History(InitialVm(m), NO_EFFECTS), slice, requests).vm;
            vm.failure.None? ==>
              && vm.core.pc <= |m.program.code| && |vm.core.stack| + Owed(vm.pending) ==
                ProgramHeights(program)[vm.core.pc]
              && (vm.core.pc in StartsAll(program, 0) || vm.core.pc == |m.program.code| ==>
                  vm.core.stack == [] && Owed(vm.pending) == 0)
  {
    hide CheckAll, GenAll, AllHeights, BracedAll, Flows, HandleAll, StartsAll, Owed;
    var m := Machine(CodeOf(program, st).value, args, prompts);
    ProgramFlows(program, st, m);
    assert |ProgramHeights(program)| == |m.program.code| + 1;
    StartsLevel(m, ProgramHeights(program));
    HandleAllLevel(m, History(InitialVm(m), NO_EFFECTS), slice, requests, ProgramHeights(program));
  }

  lemma StartsLevel(m: Machine, H: seq<nat>)
    requires IsZero(H, 0)
    ensures Level(InitialVm(m), H)
  {
  }
}
