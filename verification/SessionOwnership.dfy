/** Ownership of Runs in the MCP session actor (crates/serial-mcp/src/session.rs): one lease and one
    owned Run a port, handles, pins, renewal and release, against whatever the daemon answers. */
module SessionOwnership {
  import opened Wrappers
  import opened SortedKeys

  datatype Result<+T> = Ok(value: T) | Err(error: SessionError) {
    predicate IsFailure() { Err? }

    function PropagateFailure<U>(): Result<U>
      requires Err?
    {
      Err(error)
    }

    function Extract(): T
      requires Ok?
    {
      value
    }
  }

  /** What the daemon may say against a request. */
  datatype RemoteError =
    | UserReadRequired | SequenceBoundary | OutcomeUncertain | ExpectedRunRejected | ControlLoss | PrewriteRejected
    | OtherRemote

  datatype SessionError =
    | ConnectFailed | SendFailed | TimedOut | TransportLost | Unreadable | Rejected(remote: RemoteError)
    | MalformedHandle | UnknownHandle | HandleExpired | TooManyUses | NoHandle
    | NotOwned | CapabilityMismatch | ConnectionLost | LeaseLost | UnexpectedResult
    | AlreadyOwned | CallerGone | ApprovalDeadline | MismatchedGrant | MismatchedApproval | ApprovalChanged
    | Denied | ApprovalTimedOut | ApprovalCancelled

  datatype Lease = Lease(id: nat, fence: nat)

  datatype Approval = Approval(id: nat, port: string, title: string, ttlMs: nat, requester: nat,
                               requesterIsAgent: bool, approverIsHuman: bool)

  datatype CommandResult =
    | ControlRenewed(lease: Lease)
    | ControlReleased
    | RunStartGranted(approvalId: nat, granted: Lease, runId: nat)
    | RunStartPending(approval: Approval)
    | RunStartDenied
    | RunStartTimedOut
    | RunStartCancelled(cancelled: nat)
    | RunEnded(ended: nat)
    | Accepted(eventSeq: nat)
    | MacroStarted(execution: nat)
    | MacroReported(execution: nat)
    | MacroCancelled(execution: nat)
    | ContextAcknowledged
    | CaptureRecorded
    | OtherResult

  datatype Request =
    | RenewControl(port: string, lease: Lease)
    | ReleaseControl(port: string, lease: Lease)
    | RequestRunStart(port: string, requestId: nat, title: string)
    | CancelRunStart(port: string, approvalId: nat)
    | EndRunRequest(port: string, lease: Lease, runId: nat)
    | Transmission(port: string, lease: Lease, runId: nat, data: seq<int>)
    | MacroStart(port: string, lease: Lease, runId: nat, script: string)
    | MacroStatus(port: string, execution: nat)
    | MacroCancel(port: string, lease: Lease, execution: nat)
    | AcknowledgeRunContext(port: string, runId: nat, revision: nat, throughSeq: nat)
    | RecordCommandCapture(port: string, report: string)

  /** One move of the network and the daemon. */
  datatype Answer =
    | NoConnection
    | Welcome(actor: nat)
    | SendFails
    | Silence
    | Replied(result: CommandResult)
    | Refused(error: RemoteError, looksLost: bool)
    | Garbled
    | Broken

  datatype OwnedRun = OwnedRun(id: nat, token: nat, handle: string, activeUses: nat, idleSince: nat)

  /** What the actor observes of its caller and its clocks around one poll of a pending start. */
  datatype Poll = Poll(callerGone: bool, deadlinePassed: bool, callerGoneAtGrant: bool, renewalDue: bool, now: nat)

  const LAST_POLL := Poll(false, true, false, false, 0)

  datatype Started = Started(runId: nat, handle: string)

  datatype Capability = Capability(port: string, runId: nat, token: nat)

  const LEASE_TTL_MS: nat := 60_000
  const RUN_HANDLE_CHARS: nat := 22
  const U32_MAX: nat := 0xFFFF_FFFF

  predicate WellShaped(handle: string) {
    && |handle| == RUN_HANDLE_CHARS
    && forall i :: 0 <= i < |handle| ==>
      'a' <= handle[i] <= 'z' || 'A' <= handle[i] <= 'Z' || '0' <= handle[i] <= '9' || handle[i] == '_'
      || handle[i] == '-'
  }

  /** Without a finite timeout no Run expires; a Run in use never does. */
  predicate IdleExpired(run: OwnedRun, now: nat, ttl: Option<nat>) {
    run.activeUses == 0 && ttl.Some? && (if now >= run.idleSince then now - run.idleSince else 0) >= ttl.value
  }

  /** A Run expires when it has not been in use for the whole of a finite timeout, to the instant. */
  lemma ExpiresExactly(run: OwnedRun, now: nat, ttl: Option<nat>)
    ensures run.activeUses > 0 || ttl.None? ==> !IdleExpired(run, now, ttl)
    ensures run.activeUses == 0 && ttl.Some? && run.idleSince <= now ==>
              (IdleExpired(run, now, ttl) <==> run.idleSince + ttl.value <= now)
    ensures run.activeUses == 0 && ttl.Some? && now < run.idleSince ==> (IdleExpired(run, now, ttl) <==> ttl.value == 0)
  {
  }

  predicate Grants(answer: Answer, id: nat) {
    answer.Replied? && answer.result.RunStartGranted? && answer.result.runId == id
  }

  /** The daemon has granted the Run identity, or has granted it twice, in the first `next` answers. */
  ghost predicate Granted(answers: seq<Answer>, next: nat, id: nat) {
    exists i :: 0 <= i < next && i < |answers| && Grants(answers[i], id)
  }

  ghost predicate GrantedTwice(answers: seq<Answer>, next: nat, id: nat) {
    exists i, j :: 0 <= i < j < next && j < |answers| && Grants(answers[i], id) && Grants(answers[j], id)
  }

  /** What a request is told by an answer to it. */
  function Heard(answer: Answer): Result<CommandResult> {
    match answer
    case Replied(result) => Ok(result)
    case Refused(error, _) => Err(Rejected(error))
    case Garbled => Err(Unreadable)
    case SendFails => Err(SendFailed)
    case Broken => Err(TransportLost)
    case _ => Err(TimedOut)
  }

  /** The connection outlives the answer. */
  predicate Lasts(answer: Answer) {
    answer.Replied? || answer.Garbled? || (answer.Refused? && !answer.looksLost)
  }

  /** The error a request ends with that was told something it had not asked for, or nothing. */
  function ErrorOf(heard: Result<CommandResult>): SessionError {
    if heard.Err? then heard.error else UnexpectedResult
  }

  /** A pending approval that is for this request of this actor, to be decided by a Human. */
  predicate Answers(approval: Approval, port: string, requestId: nat, title: string, actor: Option<nat>) {
    && approval.id == requestId && approval.port == port && approval.title == title && approval.ttlMs == LEASE_TTL_MS
    && actor == Some(approval.requester) && approval.requesterIsAgent && approval.approverIsHuman
  }

  /** What an answer makes of a start request; nothing yet, when its approval is still pending. */
  function Verdict(answer: Answer, port: string, requestId: nat, title: string, handle: string, actor: Option<nat>,
                   previous: Option<Approval>, gone: bool): Option<Result<Started>> {
    if !answer.Replied? then Some(Err(ErrorOf(Heard(answer)))) else
    match answer.result
    case RunStartGranted(approvalId, _, runId) =>
      Some(if approvalId != requestId then Err(MismatchedGrant) else if gone then Err(CallerGone)
           else Ok(Started(runId, handle)))
    case RunStartPending(approval) =>
      if !Answers(approval, port, requestId, title, actor) then Some(Err(MismatchedApproval))
      else if previous.Some? && previous.value != approval then Some(Err(ApprovalChanged))
      else None
    case RunStartDenied => Some(Err(Denied))
    case RunStartTimedOut => Some(Err(ApprovalTimedOut))
    case RunStartCancelled(_) => Some(Err(ApprovalCancelled))
    case _ => Some(Err(UnexpectedResult))
  }

  /** The errors that end a start without taking the connection. */
  predicate EndsStart(error: SessionError) {
    error in {AlreadyOwned, NoHandle, CallerGone, ApprovalDeadline, Denied, ApprovalTimedOut, ApprovalCancelled}
  }

  predicate Declines(answer: Answer, error: SessionError) {
    && answer.Replied?
    && match error
       case Denied => answer.result == RunStartDenied
       case ApprovalTimedOut => answer.result == RunStartTimedOut
       case _ => answer.result.RunStartCancelled?
  }

  function PollAt(polls: seq<Poll>, k: nat): Poll {
    if k < |polls| then polls[k] else LAST_POLL
  }

  predicate RenewedWith(answer: Answer) {
    answer.Replied? && answer.result.ControlRenewed?
  }

  // ---------- ownership, on values ----------

  type Runs = map<string, OwnedRun>

  /** A handle names one Run. */
  ghost predicate DistinctHandles(runs: Runs) {
    forall p, q | p in runs && q in runs && p != q :: runs[p].handle != runs[q].handle
  }

  function OneMoreUse(run: OwnedRun): OwnedRun {
    run.(activeUses := run.activeUses + 1)
  }

  /** Each owned Run counts exactly its own outstanding guards, unless its identity was granted again
      on its port while a guard of the earlier Run was out (`reused`). Owned Runs and guards have
      identities the daemon granted, and those in `reused` were granted twice. */
  ghost predicate Accounted(runs: Runs, guards: multiset<(string, nat)>, reused: set<(string, nat)>,
                            answers: seq<Answer>, next: nat) {
    && (forall p | p in runs :: runs[p].activeUses == guards[(p, runs[p].id)] || (p, runs[p].id) in reused)
    && (forall p | p in runs :: Granted(answers, next, runs[p].id))
    && (forall g | g in guards :: Granted(answers, next, g.1))
    && (forall g | g in reused :: GrantedTwice(answers, next, g.1))
  }

  lemma PinOne(runs: Runs, guards: multiset<(string, nat)>, reused: set<(string, nat)>, answers: seq<Answer>,
               next: nat, port: string)
    requires Accounted(runs, guards, reused, answers, next) && DistinctHandles(runs) && port in runs
    ensures var run := runs[port];
            var after := runs[port := OneMoreUse(run)];
            Accounted(after, guards + multiset{(port, run.id)}, reused, answers, next) && DistinctHandles(after)
  {
    hide Granted, GrantedTwice;
  }

  /** The Runs after a guard for Run `runId` on `port` is dropped. */
  function AfterUse(runs: Runs, port: string, runId: nat, now: nat): Runs {
    if port in runs && runs[port].id == runId && runs[port].activeUses > 0 then
      var run := runs[port];
      var idleSince := if run.activeUses == 1 then now else run.idleSince;
      runs[port := run.(activeUses := run.activeUses - 1, idleSince := idleSince)]
    else runs
  }

  /** Dropping a guard uncounts it at the Run it was made for, if that Run is still owned, and never
      touches another: not another port's, and not a newer Run on the same port. */
  lemma UseEnds(runs: Runs, guards: multiset<(string, nat)>, reused: set<(string, nat)>, answers: seq<Answer>,
                next: nat, port: string, runId: nat, now: nat)
    requires Accounted(runs, guards, reused, answers, next) && DistinctHandles(runs) && (port, runId) in guards
    ensures var after := AfterUse(runs, port, runId, now);
            && Accounted(after, guards - multiset{(port, runId)}, reused, answers, next) && DistinctHandles(after)
            && after.Keys == runs.Keys
            && (forall p | p in runs && !(p == port && runs[p].id == runId) :: after[p] == runs[p])
            && (port in runs && runs[port].id == runId && (port, runId) !in reused ==>
                after[port].activeUses == runs[port].activeUses - 1)
  {
    hide Granted, GrantedTwice;
    var left := guards - multiset{(port, runId)};
    assert forall g :: g != (port, runId) ==> left[g] == guards[g];
  }

  lemma RemovePort(runs: Runs, guards: multiset<(string, nat)>, reused: set<(string, nat)>, answers: seq<Answer>,
                   next: nat, port: string)
    requires Accounted(runs, guards, reused, answers, next) && DistinctHandles(runs)
    ensures Accounted(runs - {port}, guards, reused, answers, next) && DistinctHandles(runs - {port})
  {
    hide Granted, GrantedTwice;
  }

  /** What `reused` becomes when `port` is granted Run `runId`. */
  function ReusedBy(reused: set<(string, nat)>, guards: multiset<(string, nat)>, port: string,
                    runId: nat): set<(string, nat)> {
    if (port, runId) in guards then reused + {(port, runId)} else reused
  }

  /** A Run the daemon's last answer granted starts without uses: none of the guards is its own, unless
      the identity is granted again on a port where a guard of it is out. */
  lemma AddRun(runs: Runs, guards: multiset<(string, nat)>, reused: set<(string, nat)>, answers: seq<Answer>,
               next: nat, port: string, run: OwnedRun)
    requires Accounted(runs, guards, reused, answers, next) && DistinctHandles(runs)
    requires port !in runs && run.activeUses == 0 && forall p | p in runs :: runs[p].handle != run.handle
    requires 0 < next <= |answers| && Grants(answers[next - 1], run.id)
             && forall g | g in guards :: Granted(answers, next - 1, g.1)
    ensures DistinctHandles(runs[port := run])
    ensures Accounted(runs[port := run], guards, ReusedBy(reused, guards, port, run.id), answers, next)
  {
    if (port, run.id) in guards {
      assert Granted(answers, next - 1, run.id);
      assert GrantedTwice(answers, next, run.id);
    }
  }

  /** The Runs a renewal tick keeps while the connection lasts. */
  function Surviving(runs: Runs, now: nat, ttl: Option<nat>): Runs {
    map p | p in runs && !IdleExpired(runs[p], now, ttl) :: runs[p]
  }

  /** A plan for `ports`: each is either idle or renewed, once, under its own lease, in the order of names. */
  ghost predicate Plans(runs: Runs, leases: map<string, Lease>, ports: set<string>, idle: seq<string>,
                        targets: seq<(string, Lease)>, now: nat, ttl: Option<nat>) {
    && ports <= runs.Keys
    && (forall p :: p in idle <==> p in ports && IdleExpired(runs[p], now, ttl))
    && (forall t | t in targets ::
        t.0 in ports && t.0 in leases && leases[t.0] == t.1 && !IdleExpired(runs[t.0], now, ttl))
    && (forall p | p in ports && !IdleExpired(runs[p], now, ttl) :: p in leases && (p, leases[p]) in targets)
    && TargetsOrdered(targets)
    && (forall i, j | 0 <= i < j < |idle| :: Before(idle[i], idle[j]))
  }

  predicate TargetsOrdered(targets: seq<(string, Lease)>) {
    forall i, j | 0 <= i < j < |targets| :: Before(targets[i].0, targets[j].0)
  }

  lemma NoPlan(runs: Runs, leases: map<string, Lease>, now: nat, ttl: Option<nat>)
    ensures Plans(runs, leases, {}, [], [], now, ttl)
  {
  }

  lemma PlanStep(runs: Runs, leases: map<string, Lease>, ports: set<string>, idle: seq<string>,
                 targets: seq<(string, Lease)>, now: nat, ttl: Option<nat>, port: string)
    requires Plans(runs, leases, ports, idle, targets, now, ttl) && port in runs && port !in ports && port in leases
    requires forall p | p in ports :: Before(p, port)
    ensures IdleExpired(runs[port], now, ttl) ==> Plans(runs, leases, ports + {port}, idle + [port], targets, now, ttl)
    ensures !IdleExpired(runs[port], now, ttl) ==>
              Plans(runs, leases, ports + {port}, idle, targets + [(port, leases[port])], now, ttl)
  {
    hide IdleExpired, Before, Plans;
    if IdleExpired(runs[port], now, ttl) {
      IdleStep(runs, leases, ports, idle, targets, now, ttl, port);
    } else {
      TargetStep(runs, leases, ports, idle, targets, now, ttl, port);
    }
  }

  lemma IdleStep(runs: Runs, leases: map<string, Lease>, ports: set<string>, idle: seq<string>,
                 targets: seq<(string, Lease)>, now: nat, ttl: Option<nat>, port: string)
    requires Plans(runs, leases, ports, idle, targets, now, ttl) && port in runs && port !in ports
    requires IdleExpired(runs[port], now, ttl) && forall p | p in ports :: Before(p, port)
    ensures Plans(runs, leases, ports + {port}, idle + [port], targets, now, ttl)
  {
    hide IdleExpired, Before;
    var longer := idle + [port];
    forall i, j | 0 <= i < j < |longer| ensures Before(longer[i], longer[j]) {
      assert i < |idle| && longer[i] == idle[i] && idle[i] in idle;
    }
    forall p ensures p in longer <==> p in ports + {port} && IdleExpired(runs[p], now, ttl) {
      assert p in longer <==> p in idle || p == port;
    }
  }

  lemma TargetStep(runs: Runs, leases: map<string, Lease>, ports: set<string>, idle: seq<string>,
                   targets: seq<(string, Lease)>, now: nat, ttl: Option<nat>, port: string)
    requires Plans(runs, leases, ports, idle, targets, now, ttl) && port in runs && port !in ports && port in leases
    requires !IdleExpired(runs[port], now, ttl) && forall p | p in ports :: Before(p, port)
    ensures Plans(runs, leases, ports + {port}, idle, targets + [(port, leases[port])], now, ttl)
  {
    hide IdleExpired, Before, TargetsOrdered;
    var longer := targets + [(port, leases[port])];
    assert TargetsOrdered(longer) by { LastTarget(targets, (port, leases[port])); }
    var all := ports + {port};
    assert longer[|targets|] == (port, leases[port]) && forall t | t in targets :: t in longer;
    forall t | t in longer
      ensures t.0 in all && t.0 in leases && leases[t.0] == t.1 && !IdleExpired(runs[t.0], now, ttl)
    {
      assert t in targets || t == (port, leases[port]);
    }
    forall p | p in all && !IdleExpired(runs[p], now, ttl) ensures p in leases && (p, leases[p]) in longer {
      assert p in ports ==> (p, leases[p]) in targets;
    }
    assert forall p :: p in idle ==> p in ports;
  }

  lemma LastTarget(targets: seq<(string, Lease)>, target: (string, Lease))
    requires TargetsOrdered(targets) && forall t | t in targets :: Before(t.0, target.0)
    ensures TargetsOrdered(targets + [target])
  {
    hide Before;
    var longer := targets + [target];
    forall i, j | 0 <= i < j < |longer| ensures Before(longer[i].0, longer[j].0) {
      assert i < |targets| && longer[i] == targets[i] && targets[i] in targets;
    }
  }

  lemma NoneSurvive(now: nat, ttl: Option<nat>)
    ensures Surviving(map[], now, ttl) == map[]
  {
  }

  /** Carrying out the release half of a plan leaves the Runs that are not idle, and the targets among them. */
  lemma PlanSurvives(runs: Runs, leases: map<string, Lease>, idle: seq<string>, targets: seq<(string, Lease)>,
                     now: nat, ttl: Option<nat>)
    requires Plans(runs, leases, runs.Keys, idle, targets, now, ttl)
    ensures runs - (set p | p in idle) == Surviving(runs, now, ttl)
    ensures forall i | 0 <= i < |targets| ::
              targets[i].0 in Surviving(runs, now, ttl) && targets[i].0 !in idle && leases[targets[i].0] == targets[i].1
    ensures forall i | 0 <= i < |idle| :: idle[i] in runs
    ensures forall i, j | 0 <= i < j < |idle| :: idle[i] != idle[j]
    ensures forall i, j | 0 <= i < j < |targets| :: targets[i].0 != targets[j].0
  {
    hide IdleExpired, Before;
    assert forall i | 0 <= i < |targets| :: targets[i] in targets;
    assert forall i | 0 <= i < |idle| :: idle[i] in idle;
    forall i, j | 0 <= i < j < |idle| ensures idle[i] != idle[j] { BeforeDiffers(idle[i], idle[j]); }
    forall i, j | 0 <= i < j < |targets| ensures targets[i].0 != targets[j].0 {
      BeforeDiffers(targets[i].0, targets[j].0);
    }
  }

  lemma BeforeDiffers(a: string, b: string)
    requires Before(a, b)
    ensures a != b
  {
    BeforeIrreflexive(a);
  }

  /** The requests of a plan: the idle ports are released, the others renewed. */
  function Releases(idle: seq<string>, leases: map<string, Lease>): seq<Request>
    requires forall i | 0 <= i < |idle| :: idle[i] in leases
  {
    seq(|idle|, i requires 0 <= i < |idle| => ReleaseControl(idle[i], leases[idle[i]]))
  }

  function Renewals(targets: seq<(string, Lease)>): seq<Request> {
    seq(|targets|, i requires 0 <= i < |targets| => RenewControl(targets[i].0, targets[i].1))
  }

  /** The lease now held for each target is the one the answer to its request carried. */
  ghost predicate Renewed(targets: seq<(string, Lease)>, answers: seq<Answer>, first: nat, leases: map<string, Lease>) {
    forall i | 0 <= i < |targets| :: RenewedBy(targets[i].0, answers, first + i, leases)
  }

  predicate RenewedBy(port: string, answers: seq<Answer>, k: nat, leases: map<string, Lease>) {
    port in leases && k < |answers| && answers[k] == Replied(ControlRenewed(leases[port]))
  }

  /** `runs` came from `before` without adding or changing a Run or releasing one in use. */
  ghost predicate Kept(runs: Runs, before: Runs) {
    && (forall p | p in runs :: p in before && runs[p] == before[p])
    && (forall p | p in before && before[p].activeUses > 0 :: p in runs)
  }

  lemma TickKeeps(runs: Runs, before: Runs, now: nat, ttl: Option<nat>)
    requires Kept(runs, before)
    ensures Kept(Surviving(runs, now, ttl), before)
  {
  }

  lemma KeptNames(runs: Runs, before: Runs, port: string, handle: string)
    requires Kept(runs, before) && port !in before && (forall p | p in before :: before[p].handle != handle)
    ensures port !in runs && forall p | p in runs :: runs[p].handle != handle
  {
  }

  lemma Later(runs: Runs, guards: multiset<(string, nat)>, reused: set<(string, nat)>, answers: seq<Answer>, next: nat,
              later: nat)
    requires Accounted(runs, guards, reused, answers, next) && next <= later
    ensures Accounted(runs, guards, reused, answers, later) && Accounted(map[], guards, reused, answers, later)
  {
  }

  class SessionState {
    var connected: bool
    var actor: Option<nat>
    var leases: map<string, Lease>
    var ownedRuns: Runs
    var runIdleTtl: Option<nat>

    /** What the network and the daemon will answer and how far that has been read; the guards that tool
        calls hold; what was sent; and the pairs of a port and a Run identity that were granted while a
        guard for that very pair was out. */
    const answers: seq<Answer>
    var next: nat
    ghost var sent: seq<Request>
    var guards: multiset<(string, nat)>
    ghost var reused: set<(string, nat)>

    /** A port is owned exactly when it has a lease, nothing is owned without a connection, a handle
        names one Run, and each Run counts its own guards. */
    ghost predicate Owned()
      reads this
    {
      && ownedRuns.Keys == leases.Keys
      && (connected <==> actor.Some?)
      && (!connected ==> ownedRuns == map[] && leases == map[])
      && DistinctHandles(ownedRuns)
      && next <= |answers| && Accounted(ownedRuns, guards, reused, answers, next)
    }

    constructor (runIdleTtl: Option<nat>, answers: seq<Answer>)
      ensures Owned() && !connected && ownedRuns == map[] && this.answers == answers && next == 0
              && this.runIdleTtl == runIdleTtl
      ensures guards == multiset{} && reused == {} && sent == []
    {
      connected, actor := false, None;
      leases, ownedRuns := map[], map[];
      this.runIdleTtl, this.answers, next := runIdleTtl, answers, 0;
      sent, guards, reused := [], multiset{}, {};
    }

    // ---------- the connection ----------

    method Disconnect()
      requires Owned()
      modifies `connected, `actor, `leases, `ownedRuns
      ensures Owned() && !connected && ownedRuns == map[]
    {
      hide Accounted;
      Later(ownedRuns, guards, reused, answers, next, next);
      connected, actor := false, None;
      leases, ownedRuns := map[], map[];
    }

    method NextAnswer() returns (answer: Answer)
      requires next <= |answers|
      modifies `next
      ensures answer == if old(next) == |answers| then Silence else answers[old(next)]
      ensures next == if old(next) == |answers| then old(next) else old(next) + 1
    {
      if next == |answers| { return Silence; }
      answer := answers[next];
      next := next + 1;
    }

    /** The answer at `k`; when the daemon has said its last, silence. */
    function Reply(k: nat): Answer {
      if k < |answers| then answers[k] else Silence
    }

    predicate Reaches()
      reads this
    {
      connected || Reply(next).Welcome?
    }

    /** Where the answer to the next request is. */
    function CallAt(): nat
      reads this
    {
      if connected then next else next + 1
    }

    /** The actor the daemon knows when the next request reaches it. */
    function ActorThen(): Option<nat>
      reads this
    {
      if connected then actor else if Reply(next).Welcome? then Some(Reply(next).actor) else None
    }

    method Connect() returns (r: Result<()>)
      requires Owned()
      modifies `connected, `actor, `leases, `ownedRuns, `next
      ensures connected <==> old(Reaches())
      ensures connected ==> next == old(CallAt()) && actor == old(ActorThen())
      ensures (r.Ok? <==> connected) && (r.Err? ==> r.error == ConnectFailed)
      ensures Owned() && leases == old(leases) && ownedRuns == old(ownedRuns) && old(next) <= next
      ensures old(connected) ==> r.Ok? && next == old(next)
    {
      hide Accounted;
      if connected { return Ok(()); }
      leases, ownedRuns := map[], map[];
      actor := None;
      var answer := NextAnswer();
      Later(ownedRuns, guards, reused, answers, old(next), next);
      if !answer.Welcome? { return Err(ConnectFailed); }
      actor := Some(answer.actor);
      connected := true;
      return Ok(());
    }

    /** One request and its answer. A lost connection takes everything owned with it; otherwise a call
        changes nothing. A refusal whose text looks like a lost connection is taken for one. */
    method Call(request: Request) returns (r: Result<CommandResult>)
      requires Owned()
      modifies `connected, `actor, `leases, `ownedRuns, `next, `sent
      ensures Owned() && (connected ==> leases == old(leases) && ownedRuns == old(ownedRuns))
      ensures r.Ok? ==> connected && sent == old(sent) + [request]
      ensures r.Err? ==>
                r.error.Rejected? || r.error == Unreadable
                || (!connected && r.error in {ConnectFailed, SendFailed, TransportLost, TimedOut})
      ensures sent == old(sent) || sent == old(sent) + [request]
      ensures r.Ok? ==> next > 0 && answers[next - 1] == Replied(r.value)
      ensures old(connected) && connected ==> next == old(next) + 1 && sent == old(sent) + [request]
      ensures old(connected) ==> (r.Ok? <==> old(next) < |answers| && answers[old(next)].Replied?)
      ensures !old(Reaches()) ==> r == Err(ConnectFailed) && !connected && sent == old(sent)
      ensures old(Reaches()) ==>
                var answer := Reply(old(CallAt()));
                && r == Heard(answer) && (connected <==> Lasts(answer))
                && sent == if answer.SendFails? then old(sent) else old(sent) + [request]
      ensures old(Reaches()) && old(CallAt()) < |answers| ==> next == old(CallAt()) + 1
      ensures connected ==> actor == old(ActorThen())
      ensures r.Ok? && r.value.RunStartGranted? ==>
                next > 0 && Grants(answers[next - 1], r.value.runId)
                && forall g | g in guards :: Granted(answers, next - 1, g.1)
    {
      hide Accounted, Heard, Lasts;
      var _ :- Connect();
      r := Exchange(request);
      HeardOf(Reply(old(CallAt())));
    }

    lemma HeardOf(answer: Answer)
      ensures match Heard(answer)
              case Ok(result) => answer == Replied(result) && Lasts(answer)
              case Err(error) =>
                !answer.Replied?
                && (error.Rejected? || error == Unreadable
                    || (!Lasts(answer) && error in {SendFailed, TransportLost, TimedOut}))
      ensures answer.SendFails? || answer == Silence ==> !Lasts(answer)
    {
    }

    /** `call` over the connection there is. */
    method Exchange(request: Request) returns (r: Result<CommandResult>)
      requires Owned() && connected
      modifies `connected, `actor, `leases, `ownedRuns, `next, `sent
      ensures Owned() && (connected ==> leases == old(leases) && ownedRuns == old(ownedRuns))
      ensures var answer := Reply(old(next));
              && r == Heard(answer) && (connected <==> Lasts(answer))
              && sent == if answer.SendFails? then old(sent) else old(sent) + [request]
      ensures old(next) < |answers| ==> next == old(next) + 1
      ensures connected ==> actor == old(actor)
      ensures forall g | g in guards :: Granted(answers, old(next), g.1)
    {
      hide Accounted;
      ghost var before := next;
      var answer := NextAnswer();
      Later(ownedRuns, guards, reused, answers, before, next);
      GuardsGranted(before);
      if answer.SendFails? {
        Disconnect();
        return Err(SendFailed);
      }
      sent := sent + [request];
      if answer.Replied? { return Ok(answer.result); }
      if answer.Refused? {
        if answer.looksLost { Disconnect(); }
        return Err(Rejected(answer.error));
      }
      if answer.Garbled? { return Err(Unreadable); }
      Disconnect();
      return Err(if answer.Broken? then TransportLost else TimedOut);
    }

    lemma GuardsGranted(at: nat)
      requires Accounted(ownedRuns, guards, reused, answers, at)
      ensures forall g | g in guards :: Granted(answers, at, g.1)
    {
    }

    // ---------- pins ----------

    predicate HandleOf(port: string, handle: string)
      reads this
    {
      port in ownedRuns && ownedRuns[port].handle == handle
    }

    /** `resolve_run_handle`. */
    method ResolveRunHandle(handle: string) returns (r: Result<Capability>)
      requires Owned()
      ensures r.Ok? ==>
                HandleOf(r.value.port, handle) && r.value ==
                  Capability(r.value.port, ownedRuns[r.value.port].id, ownedRuns[r.value.port].token)
      ensures r.Err? ==> r.error == UnknownHandle && forall p :: !HandleOf(p, handle)
    {
      if port :| port in ownedRuns && ownedRuns[port].handle == handle {
        return Ok(Capability(port, ownedRuns[port].id, ownedRuns[port].token));
      }
      return Err(UnknownHandle);
    }

    predicate Pins(run: OwnedRun, capability: Capability, now: nat)
      reads this
    {
      capability.runId == run.id && capability.token == run.token && !IdleExpired(run, now, runIdleTtl)
    }

    /** A handle pins its Run: one more use, one more guard, nothing else. A Run past its idle limit is
        released instead. */
    method BeginRunUse(handle: string, now: nat) returns (r: Result<Capability>)
      requires Owned()
      modifies `connected, `actor, `leases, `ownedRuns, `next, `sent, `guards
      ensures Owned()
      ensures r.Ok? ==>
                var port := r.value.port;
                && port in old(ownedRuns) && old(HandleOf(port, handle))
                && Pins(old(ownedRuns)[port], r.value, now) && leases == old(leases) && connected == old(connected)
                && ownedRuns == old(ownedRuns)[port := OneMoreUse(old(ownedRuns)[port])]
                && guards == old(guards) + multiset{(port, old(ownedRuns)[port].id)}
      ensures r.Err? ==> guards == old(guards)
      ensures r.Err? && r.error == HandleExpired ==>
                exists p :: old(HandleOf(p, handle)) && old(IdleExpired(ownedRuns[p], now, runIdleTtl))
                            && p !in ownedRuns && p !in leases
                            && (connected ==> sent == old(sent) + [ReleaseControl(p, old(leases)[p])])
      ensures r.Err? && r.error != HandleExpired ==> ownedRuns == old(ownedRuns) && leases == old(leases)
      ensures r.Err? ==> r.error in {MalformedHandle, UnknownHandle, HandleExpired, TooManyUses}
      ensures r == Err(MalformedHandle) <==> !WellShaped(handle)
      ensures r == Err(UnknownHandle) <==> WellShaped(handle) && forall p :: !old(HandleOf(p, handle))
      ensures r == Err(TooManyUses) ==> exists p :: old(HandleOf(p, handle)) && old(ownedRuns)[p].activeUses >= U32_MAX
    {
      hide Accounted, DistinctHandles, WellShaped;
      if !WellShaped(handle) { return Err(MalformedHandle); }
      var resolved := ResolveRunHandle(handle);
      assert forall p :: HandleOf(p, handle) <==> old(HandleOf(p, handle));
      var capability :- resolved;
      var port := capability.port;
      var run := ownedRuns[port];
      assert old(HandleOf(port, handle));
      if IdleExpired(run, now, runIdleTtl) {
        BestEffortRelease(port);
        return Err(HandleExpired);
      }
      if run.activeUses >= U32_MAX { return Err(TooManyUses); }
      PinOne(ownedRuns, guards, reused, answers, next, port);
      ownedRuns := ownedRuns[port := OneMoreUse(run)];
      guards := guards + multiset{(port, run.id)};
      return Ok(capability);
    }

    /** A dropped guard unpins the Run it was made for, and no other. */
    method EndRunUse(port: string, runId: nat, now: nat)
      requires Owned() && (port, runId) in guards
      modifies `ownedRuns, `guards
      ensures Owned() && guards == old(guards) - multiset{(port, runId)}
      ensures ownedRuns == AfterUse(old(ownedRuns), port, runId, now)
    {
      hide Accounted, DistinctHandles;
      UseEnds(ownedRuns, guards, reused, answers, next, port, runId, now);
      guards := guards - multiset{(port, runId)};
      if port !in ownedRuns { return; }
      var run := ownedRuns[port];
      if run.id != runId || run.activeUses == 0 { return; }
      run := run.(activeUses := run.activeUses - 1);
      if run.activeUses == 0 { run := run.(idleSince := now); }
      ownedRuns := ownedRuns[port := run];
    }

    // ---------- release ----------

    /** Locally, the port is given up at once, whatever the daemon answers. */
    method BestEffortRelease(port: string)
      requires OwnedExcept(port)
      modifies `connected, `actor, `leases, `ownedRuns, `next, `sent
      ensures Owned() && port !in ownedRuns
      ensures connected ==> ownedRuns == old(ownedRuns) - {port} && leases == old(leases) - {port}
      ensures old(connected) && port in old(leases) ==>
                if connected then sent == old(sent) + [ReleaseControl(port, old(leases)[port])] && next == old(next) + 1
                else sent == old(sent) || sent == old(sent) + [ReleaseControl(port, old(leases)[port])]
      ensures !old(connected) || port !in old(leases) ==>
                sent == old(sent) && next == old(next) && connected == old(connected)
      ensures old(connected) && port in old(leases) ==> (connected <==> Lasts(Reply(old(next))))
    {
      hide Accounted, DistinctHandles;
      RemovePort(ownedRuns, guards, reused, answers, next, port);
      ownedRuns := ownedRuns - {port};
      if port !in leases { return; }
      var lease := leases[port];
      leases := leases - {port};
      if !connected { return; }
      var _ := Call(ReleaseControl(port, lease));
    }

    /** `Owned`, but `port` may have lost its Run and kept its lease, as in the middle of `end_run`. */
    ghost predicate OwnedExcept(port: string)
      reads this
    {
      && ownedRuns.Keys <= leases.Keys <= ownedRuns.Keys + {port}
      && (connected <==> actor.Some?)
      && (!connected ==> ownedRuns == map[] && leases == map[])
      && DistinctHandles(ownedRuns)
      && next <= |answers| && Accounted(ownedRuns, guards, reused, answers, next)
    }

    // ---------- renewal ----------

    predicate Capable(port: string, runId: nat, token: nat)
      reads this
    {
      port in ownedRuns && ownedRuns[port].id == runId && ownedRuns[port].token == token
    }

    /** `RunOwnership`. */
    method RunOwnership(port: string, runId: nat, token: nat) returns (retained: bool)
      requires Owned()
      ensures retained <==> Capable(port, runId, token)
    {
      retained := connected && port in leases && port in ownedRuns && ownedRuns[port].id == runId
                  && ownedRuns[port].token == token;
    }

    /** `renew_owned_run_control`: a fresh lease for a Run the caller may use, or nothing is trusted any more. */
    method RenewOwnedRunControl(port: string, runId: nat, token: nat) returns (r: Result<Lease>)
      requires Owned()
      modifies `connected, `actor, `leases, `ownedRuns, `next, `sent
      ensures Owned()
      ensures !old(Capable(port, runId, token)) ==>
                r.Err? && r.error in {NotOwned, CapabilityMismatch} && sent == old(sent) && ownedRuns == old(ownedRuns)
                && leases == old(leases)
      ensures old(Capable(port, runId, token)) ==>
                sent == old(sent) || sent == old(sent) + [RenewControl(port, old(leases)[port])]
      ensures old(Capable(port, runId, token)) && r.Err? ==> !connected
      ensures old(Capable(port, runId, token)) ==>
                (r.Ok? <==> RenewedWith(Reply(old(next))))
                && (r.Err? ==> r.error == ErrorOf(Heard(Reply(old(next)))))
      ensures r.Ok? ==>
                old(Capable(port, runId, token)) && connected && ownedRuns == old(ownedRuns)
                && leases == old(leases)[port := r.value]
                && sent == old(sent) + [RenewControl(port, old(leases)[port])]
                && next == old(next) + 1 <= |answers| && answers[old(next)] == Replied(ControlRenewed(r.value))
    {
      hide Accounted, DistinctHandles;
      if port !in ownedRuns { return Err(NotOwned); }
      if ownedRuns[port].id != runId || ownedRuns[port].token != token { return Err(CapabilityMismatch); }
      var lease := leases[port];
      var result := Call(RenewControl(port, lease));
      if result.Ok? && result.value.ControlRenewed? {
        leases := leases[port := result.value.lease];
        return Ok(result.value.lease);
      }
      Disconnect();
      return Err(if result.Err? then result.error else UnexpectedResult);
    }

    /** The daemon's answer at `k` renews control under this lease. */
    predicate LeaseAt(k: nat, lease: Lease)
      reads this
    {
      k < |answers| && answers[k] == Replied(ControlRenewed(lease))
    }

    /** `write` and `send_break`: bytes leave only under control renewed in the same request, for the
        Run the caller holds, under the lease that renewal returned. */
    method Transmit(port: string, runId: nat, token: nat, data: seq<int>) returns (r: Result<nat>)
      requires Owned()
      modifies `connected, `actor, `leases, `ownedRuns, `next, `sent
      ensures Owned()
      ensures !old(Capable(port, runId, token)) ==> r.Err? && sent == old(sent) && ownedRuns == old(ownedRuns)
      ensures old(Capable(port, runId, token)) ==>
                var renewal := RenewControl(port, old(leases)[port]);
                || sent == old(sent) || sent == old(sent) + [renewal]
                || exists lease ::
                  LeaseAt(old(next), lease) && sent == old(sent) + [renewal, Transmission(port, lease, runId, data)]
      ensures r.Ok? ==> connected && ownedRuns == old(ownedRuns) && |sent| == |old(sent)| + 2
                        && next == old(next) + 2 && answers[old(next) + 1] == Replied(Accepted(r.value))
                        && answers[old(next)] == Replied(ControlRenewed(leases[port]))
                        && leases == old(leases)[port := leases[port]]
      ensures r.Err? ==> !connected || ownedRuns == old(ownedRuns)
      ensures r.Err? && r.error in {Rejected(ExpectedRunRejected), Rejected(ControlLoss), TimedOut, TransportLost} ==>
                !connected
      ensures old(Capable(port, runId, token)) && !RenewedWith(Reply(old(next))) ==>
                r == Err(ErrorOf(Heard(Reply(old(next))))) && !connected
      ensures old(Capable(port, runId, token)) && RenewedWith(Reply(old(next))) ==>
                var answer := Reply(old(next) + 1);
                && (connected <==>
                    Lasts(answer) && Heard(answer) !in {Err(Rejected(ExpectedRunRejected)), Err(Rejected(ControlLoss))})
                && (if answer.Replied? && answer.result.Accepted? then r == Ok(answer.result.eventSeq)
                    else r == Err(ErrorOf(Heard(answer))))
    {
      hide Accounted, DistinctHandles, Heard, Lasts;
      HeardOf(Reply(next));
      HeardOf(Reply(next + 1));
      var lease :- RenewOwnedRunControl(port, runId, token);
      assert sent + [Transmission(port, lease, runId, data)] ==
               old(sent) + [RenewControl(port, old(leases)[port]), Transmission(port, lease, runId, data)];
      var result := Call(Transmission(port, lease, runId, data));
      match result
      case Ok(Accepted(eventSeq)) => return Ok(eventSeq);
      case Ok(_) => return Err(UnexpectedResult);
      case Err(error) =>
        if error in {Rejected(ExpectedRunRejected), Rejected(ControlLoss)} { Disconnect(); }
        return Err(error);
    }

    method RenewalPlan(now: nat) returns (idle: seq<string>, targets: seq<(string, Lease)>)
      requires Owned()
      ensures Plans(ownedRuns, leases, ownedRuns.Keys, idle, targets, now, runIdleTtl)
    {
      hide Plans, IdleExpired, DistinctHandles, Before;
      idle, targets := [], [];
      var left := ownedRuns.Keys;
      ghost var done: set<string> := {};
      NoPlan(ownedRuns, leases, now, runIdleTtl);
      while left != {}
        invariant left <= ownedRuns.Keys && done == ownedRuns.Keys - left
        invariant Plans(ownedRuns, leases, done, idle, targets, now, runIdleTtl)
        invariant forall p, q | p in done && q in left :: Before(p, q)
        decreases |left|
      {
        var port := First(left);
        FirstIsBefore(port, left);
        PlanStep(ownedRuns, leases, done, idle, targets, now, runIdleTtl, port);
        left, done := left - {port}, done + {port};
        if IdleExpired(ownedRuns[port], now, runIdleTtl) {
          idle := idle + [port];
        } else {
          targets := targets + [(port, leases[port])];
        }
      }
      assert done == ownedRuns.Keys;
    }

    /** `renew_all`: while the connection holds, exactly the idle-expired Runs are released, so never one
        that a tool call pins, and every other is renewed: one request each, in the order of port names,
        and the lease held afterwards is the one the daemon's answer carried. Otherwise nothing is owned
        any more. */
    method RenewAll(now: nat)
      requires Owned()
      modifies `connected, `actor, `leases, `ownedRuns, `next, `sent
      ensures Owned()
      ensures if connected then ownedRuns == Surviving(old(ownedRuns), now, runIdleTtl) else ownedRuns == map[]
      ensures !old(connected) ==> !connected && sent == old(sent)
      ensures old(connected) ==> exists idle, targets ::
                && Plans(old(ownedRuns), old(leases), old(ownedRuns).Keys, idle, targets, now, runIdleTtl)
                && (connected <==> Favoured(idle, targets, old(next)))
                && (connected ==> CarriedOut(idle, targets, old(leases), old(sent), old(next)))
    {
      hide Accounted, DistinctHandles, Plans, Surviving, IdleExpired, Renewed, Lasts, RenewedWith;
      hide SessionState.CarriedOut;
      NoneSurvive(now, runIdleTtl);
      if ownedRuns.Keys == {} {
        assert ownedRuns == map[];
        NothingPlanned(leases, now);
        return;
      }
      var idle, targets := RenewalPlan(now);
      PlanSurvives(ownedRuns, leases, idle, targets, now, runIdleTtl);
      assert Plans(old(ownedRuns), old(leases), old(ownedRuns).Keys, idle, targets, now, runIdleTtl);
      ReleaseIdle(idle);
      if !connected {
        assert !Favoured(idle, targets, old(next));
        return;
      }
      ghost var first, released := next, sent;
      RenewTargets(targets);
      assert connected <==> Favoured(idle, targets, old(next));
      if connected { AllCarriedOut(idle, targets, old(leases), old(sent), old(next)); }
    }

    /** No answer to a release takes the connection, and each to a renewal renews. */
    predicate Favoured(idle: seq<string>, targets: seq<(string, Lease)>, first: nat) {
      && (forall k | first <= k < first + |idle| :: Lasts(Reply(k)))
      && (forall k | first + |idle| <= k < first + |idle| + |targets| :: RenewedWith(Reply(k)))
    }

    /** The plan's requests have been sent, one after the other, and its answers taken. */
    ghost predicate CarriedOut(idle: seq<string>, targets: seq<(string, Lease)>, before: map<string, Lease>,
                               sentBefore: seq<Request>, first: nat)
      reads `leases, `sent, `next
    {
      && (forall i | 0 <= i < |idle| :: idle[i] in before)
      && sent == sentBefore + Releases(idle, before) + Renewals(targets) && next == first + |idle| + |targets|
      && Renewed(targets, answers, first + |idle|, leases)
    }

    lemma AllCarriedOut(idle: seq<string>, targets: seq<(string, Lease)>, before: map<string, Lease>,
                        sentBefore: seq<Request>, first: nat)
      requires forall i | 0 <= i < |idle| :: idle[i] in before
      requires sent == sentBefore + Releases(idle, before) + Renewals(targets) && next == first + |idle| + |targets|
      requires Renewed(targets, answers, first + |idle|, leases)
      ensures CarriedOut(idle, targets, before, sentBefore, first)
    {
    }

    lemma NothingPlanned(before: map<string, Lease>, now: nat)
      requires ownedRuns == map[]
      ensures Plans(ownedRuns, before, ownedRuns.Keys, [], [], now, runIdleTtl)
      ensures CarriedOut([], [], before, sent, next) && Favoured([], [], next)
    {
      NoPlan(ownedRuns, before, now, runIdleTtl);
      assert sent + [] + [] == sent;
    }

    method ReleaseIdle(idle: seq<string>)
      requires Owned() && connected && (forall i | 0 <= i < |idle| :: idle[i] in ownedRuns)
      requires forall i, j | 0 <= i < j < |idle| :: idle[i] != idle[j]
      modifies `connected, `actor, `leases, `ownedRuns, `next, `sent
      ensures Owned()
      ensures connected ==>
                && ownedRuns == old(ownedRuns) - (set p | p in idle) && next == old(next) + |idle|
                && sent == old(sent) + Releases(idle, old(leases)) && leases == old(leases) - (set p | p in idle)
      ensures connected <==> forall k | old(next) <= k < old(next) + |idle| :: Lasts(Reply(k))
    {
      hide Accounted, DistinctHandles;
      for i := 0 to |idle|
        invariant Owned() && connected && next == old(next) + i
        invariant ownedRuns == old(ownedRuns) - (set p | p in idle[..i])
                  && leases == old(leases) - (set p | p in idle[..i])
        invariant sent == old(sent) + Releases(idle[..i], old(leases))
        invariant forall k | old(next) <= k < old(next) + i :: Lasts(Reply(k))
      {
        assert idle[i] !in idle[..i];
        BestEffortRelease(idle[i]);
        assert idle[..i + 1] == idle[..i] + [idle[i]];
        if !connected { return; }
        assert Releases(idle[..i + 1], old(leases)) ==
                 Releases(idle[..i], old(leases)) + [ReleaseControl(idle[i], old(leases)[idle[i]])];
      }
      assert idle[..|idle|] == idle;
    }

    method RenewTargets(targets: seq<(string, Lease)>)
      requires Owned() && connected && forall i | 0 <= i < |targets| :: targets[i].0 in ownedRuns
      requires forall i, j | 0 <= i < j < |targets| :: targets[i].0 != targets[j].0
      modifies `connected, `actor, `leases, `ownedRuns, `next, `sent
      ensures Owned() && (!connected ==> ownedRuns == map[])
      ensures connected ==>
                && ownedRuns == old(ownedRuns) && next == old(next) + |targets| && sent == old(sent) + Renewals(targets)
                && Renewed(targets, answers, old(next), leases)
      ensures connected <==> forall k | old(next) <= k < old(next) + |targets| :: RenewedWith(Reply(k))
    {
      hide Accounted, DistinctHandles;
      for i := 0 to |targets|
        invariant Owned() && connected && ownedRuns == old(ownedRuns) && next == old(next) + i
        invariant sent == old(sent) + Renewals(targets[..i]) && Renewed(targets[..i], answers, old(next), leases)
        invariant forall k | old(next) <= k < old(next) + i :: RenewedWith(Reply(k))
      {
        var (port, lease) := targets[i];
        ghost var before := leases;
        var result := Call(RenewControl(port, lease));
        if result.Err? || !result.value.ControlRenewed? {
          Disconnect();
          return;
        }
        leases := leases[port := result.value.lease];
        RenewedNext(targets, i, before, result.value.lease, old(next));
      }
      assert targets[..|targets|] == targets;
    }

    lemma RenewedNext(targets: seq<(string, Lease)>, i: nat, before: map<string, Lease>, lease: Lease, first: nat)
      requires i < |targets| && (forall k | 0 <= k < i :: targets[k].0 != targets[i].0)
      requires Renewed(targets[..i], answers, first, before) && first + i < |answers|
               && answers[first + i] == Replied(ControlRenewed(lease))
      ensures Renewed(targets[..i + 1], answers, first, before[targets[i].0 := lease])
      ensures Renewals(targets[..i + 1]) == Renewals(targets[..i]) + [RenewControl(targets[i].0, targets[i].1)]
    {
      var more := targets[..i + 1];
      assert more == targets[..i] + [targets[i]];
      forall k | 0 <= k < |more| ensures RenewedBy(more[k].0, answers, first + k, before[targets[i].0 := lease]) {
        if k < i { assert targets[..i][k] == more[k] && RenewedBy(targets[..i][k].0, answers, first + k, before); }
      }
    }

    // ---------- starting, ending and aborting a Run ----------

    method CancelStart(port: string, approvalId: nat) returns (r: Result<()>)
      requires Owned()
      modifies `connected, `actor, `leases, `ownedRuns, `next, `sent
      ensures Owned()
      ensures connected ==> ownedRuns == old(ownedRuns) && leases == old(leases)
      ensures r.Ok? ==> connected && sent == old(sent) + [CancelRunStart(port, approvalId)]
      ensures old(connected) ==> (r.Ok? <==> Reply(old(next)) == Replied(RunStartCancelled(approvalId)))
      ensures r.Err? ==>
                !connected && ownedRuns == map[] && !EndsStart(r.error)
    {
      hide Accounted, DistinctHandles;
      var result := Call(CancelRunStart(port, approvalId));
      if result == Ok(RunStartCancelled(approvalId)) { return Ok(()); }
      Disconnect();
      return Err(if result.Err? then result.error else UnexpectedResult);
    }

    /** The first candidate that names no owned Run; the generator may fail. */
    method NewHandle(candidates: seq<string>) returns (r: Result<string>)
      ensures r.Ok? ==> r.value in candidates && forall p | p in ownedRuns :: ownedRuns[p].handle != r.value
      ensures r.Err? ==>
                r.error == NoHandle && forall c | c in candidates ::
                  exists p :: p in ownedRuns && ownedRuns[p].handle == c
    {
      for i := 0 to |candidates|
        invariant forall j | 0 <= j < i :: exists p :: p in ownedRuns && ownedRuns[p].handle == candidates[j]
      {
        if forall p | p in ownedRuns :: ownedRuns[p].handle != candidates[i] { return Ok(candidates[i]); }
      }
      return Err(NoHandle);
    }

    /** Nobody waits any more: a pending approval is cancelled first. */
    method GiveUp(port: string, pendingApproval: Option<Approval>, why: SessionError) returns (error: SessionError)
      requires Owned() && port !in ownedRuns && why in {CallerGone, ApprovalDeadline}
      modifies `connected, `actor, `leases, `ownedRuns, `next, `sent
      ensures Owned() && port !in ownedRuns && (error == why || (!connected && !EndsStart(error)))
      ensures connected ==> ownedRuns == old(ownedRuns) && (old(connected) || pendingApproval.Some?)
      ensures pendingApproval.None? ==> error == why && connected == old(connected) && sent == old(sent)
      ensures pendingApproval.Some? && error == why ==>
                sent == old(sent) + [CancelRunStart(port, pendingApproval.value.id)]
      ensures old(connected) && pendingApproval.Some? ==>
                (error == why <==> Reply(old(next)) == Replied(RunStartCancelled(pendingApproval.value.id)))
    {
      hide Accounted, DistinctHandles;
      if pendingApproval.Some? {
        var cancelled := CancelStart(port, pendingApproval.value.id);
        if cancelled.Err? { return cancelled.error; }
      }
      return why;
    }

    /** A start that has been asked for `k` times and is still pending. */
    ghost predicate Polling(before: Runs, sentBefore: seq<Request>, base: nat, start: Request, k: nat,
                            approval: Option<Approval>)
      reads this
    {
      && Owned() && Kept(ownedRuns, before) && |sentBefore| <= |sent| && Waited(sent, |sentBefore|, base, start)
      && multiset(sent)[start] == multiset(sentBefore)[start] + k
      && if k == 0 then approval.None? && sent == sentBefore && CallAt() == base
         else connected && next == base + |sent| - |sentBefore|
    }

    /** The request was sent once more than the `k` times it was answered by a pending approval, and nothing since. */
    ghost predicate AskedLast(sentBefore: seq<Request>, base: nat, start: Request, k: nat)
      reads `sent, `next
    {
      && sent != [] && sent[|sent| - 1] == start && Waited(sent[..|sent| - 1], |sentBefore|, base, start)
      && multiset(sent)[start] == multiset(sentBefore)[start] + k + 1 && next > 0
    }

    /** The end of a start in its poll number `k`: owned if the last answer granted it, and otherwise not, with
        the reason. Polling ends without an answer only when nobody waits any more or time is up. */
    ghost predicate StartEnded(before: Runs, sentBefore: seq<Request>, base: nat, start: Request, k: nat, poll: Poll,
                               token: nat, handle: string, r: Result<Started>)
      requires start.RequestRunStart?
      reads this
    {
      var port := start.port;
      && (r.Ok? ==>
            && connected && r.value.handle == handle && port in ownedRuns && port in leases
            && ownedRuns[port] == OwnedRun(r.value.runId, token, handle, 0, poll.now)
            && Kept(ownedRuns - {port}, before) && AskedLast(sentBefore, base, start, k)
            && Reply(next - 1) == Replied(RunStartGranted(start.requestId, leases[port], r.value.runId)))
      && (r.Err? ==>
            && port !in ownedRuns && r.error !in {AlreadyOwned, NoHandle}
            && (connected ==> Kept(ownedRuns, before) && EndsStart(r.error))
            && (r.error in {Denied, ApprovalTimedOut, ApprovalCancelled} ==>
                  connected && AskedLast(sentBefore, base, start, k) && Declines(Reply(next - 1), r.error))
            && (r.error == CallerGone ==> poll.callerGone || poll.callerGoneAtGrant)
            && (r.error == ApprovalDeadline ==>
                  poll.deadlinePassed && multiset(sent)[start] == multiset(sentBefore)[start] + k))
    }

    /** One poll of a start request: what the answer means is what comes of it. */
    method AskStart(port: string, title: string, requestId: nat, token: nat, handle: string, poll: Poll,
                    previous: Option<Approval>)
        returns (done: Option<Result<Started>>, approval: Option<Approval>)
      requires Owned() && port !in ownedRuns && forall p | p in ownedRuns :: ownedRuns[p].handle != handle
      modifies `connected, `actor, `leases, `ownedRuns, `next, `sent, `reused
      ensures Owned()
      ensures !old(Reaches()) ==> done == Some(Err(ConnectFailed)) && !connected
      ensures old(Reaches()) ==>
                done == Verdict(Reply(old(CallAt())), port, requestId, title, handle, old(ActorThen()), previous,
                                poll.callerGoneAtGrant)
      ensures done.None? || done.value.Ok? || done.value.error in {Denied, ApprovalTimedOut, ApprovalCancelled} ==>
                && old(Reaches()) && connected && next == old(CallAt()) + 1
                && sent == old(sent) + [RequestRunStart(port, requestId, title)]
      ensures done.None? ==>
                && ownedRuns == old(ownedRuns) && approval.Some?
                && Reply(old(CallAt())) == Replied(RunStartPending(approval.value))
      ensures done.Some? && done.value.Ok? ==>
                && ownedRuns == old(ownedRuns)[port := OwnedRun(done.value.value.runId, token, handle, 0, poll.now)]
                && port in leases
                && Reply(next - 1) == Replied(RunStartGranted(requestId, leases[port], done.value.value.runId))
      ensures done.Some? && done.value.Err? ==>
                && port !in ownedRuns && (connected ==> ownedRuns == old(ownedRuns) && EndsStart(done.value.error))
    {
      hide Accounted, DistinctHandles, Granted, Grants, ReusedBy, Answers, Heard, Lasts, SessionState.Owned;
      approval := None;
      HeardOf(Reply(CallAt()));
      var result := Call(RequestRunStart(port, requestId, title));
      match result {
        case Ok(RunStartGranted(approvalId, lease, runId)) =>
          var r := Grant(port, requestId, approvalId, lease, runId, token, handle, poll);
          done := Some(r);
        case Ok(RunStartPending(pending)) =>
          if !Answers(pending, port, requestId, title, actor) {
            Disconnect();
            return Some(Err(MismatchedApproval)), None;
          }
          if previous.Some? && previous.value != pending {
            Disconnect();
            return Some(Err(ApprovalChanged)), None;
          }
          return None, Some(pending);
        case Ok(RunStartDenied) => done := Some(Err(Denied));
        case Ok(RunStartTimedOut) => done := Some(Err(ApprovalTimedOut));
        case Ok(RunStartCancelled(_)) => done := Some(Err(ApprovalCancelled));
        case Ok(_) =>
          Disconnect();
          done := Some(Err(UnexpectedResult));
        case Err(error) =>
          Disconnect();
          done := Some(Err(error));
      }
    }

    lemma VerdictSays(answer: Answer, port: string, requestId: nat, title: string, handle: string, actor: Option<nat>,
                      previous: Option<Approval>, gone: bool)
      ensures var done := Verdict(answer, port, requestId, title, handle, actor, previous, gone);
              && (done.Some? && done.value.Ok? ==> done.value.value.handle == handle)
              && (done.Some? && done.value.Err? ==>
                    && done.value.error !in {AlreadyOwned, NoHandle, ApprovalDeadline}
                    && (done.value.error == CallerGone ==> gone)
                    && (done.value.error in {Denied, ApprovalTimedOut, ApprovalCancelled} ==>
                          Declines(answer, done.value.error)))
    {
      hide Answers;
    }

    /** One turn of the loop of `start_run_with_policy`. */
    method PollStart(port: string, title: string, requestId: nat, token: nat, handle: string, poll: Poll,
                     previous: Option<Approval>, ghost before: Runs, ghost sentBefore: seq<Request>, ghost base: nat,
                     ghost k: nat)
        returns (done: Option<Result<Started>>, approval: Option<Approval>)
      requires Polling(before, sentBefore, base, RequestRunStart(port, requestId, title), k, previous)
      requires port !in before && forall p | p in before :: before[p].handle != handle
      modifies `connected, `actor, `leases, `ownedRuns, `next, `sent, `reused
      ensures Owned()
      ensures done.None? ==>
                && !poll.callerGone && !poll.deadlinePassed
                && Polling(before, sentBefore, base, RequestRunStart(port, requestId, title), k + 1, approval)
      ensures done.Some? ==>
                StartEnded(before, sentBefore, base, RequestRunStart(port, requestId, title), k, poll, token, handle,
                           done.value)
    {
      hide Verdict, Kept, Declines, Surviving, IdleExpired;
      hide SessionState.Owned, SessionState.Waited, SessionState.StartEnded, SessionState.AskedLast;
      KeptNames(ownedRuns, before, port, handle);
      if poll.callerGone || poll.deadlinePassed {
        var error := GiveUp(port, previous, if poll.callerGone then CallerGone else ApprovalDeadline);
        GaveUp(before, sentBefore, base, RequestRunStart(port, requestId, title), k, poll, token, handle, error);
        return Some(Err(error)), None;
      }
      ghost var runs, asked, start := ownedRuns, sent, RequestRunStart(port, requestId, title);
      VerdictSays(Reply(CallAt()), port, requestId, title, handle, ActorThen(), previous, poll.callerGoneAtGrant);
      done, approval := AskStart(port, title, requestId, token, handle, poll, previous);
      if done.Some? {
        AskedEnds(before, sentBefore, base, start, k, poll, token, handle, done.value, runs, asked);
        return;
      }
      WaitedMore(asked, |sentBefore|, base, start);
      if poll.renewalDue {
        RenewWaiting(poll.now, before, sentBefore, base, start, k + 1, approval);
        if !connected {
          GaveUp(before, sentBefore, base, start, k, poll, token, handle, ConnectionLost);
          return Some(Err(ConnectionLost)), None;
        }
      }
    }

    /** A start that ends without an answer to it. */
    lemma GaveUp(before: Runs, sentBefore: seq<Request>, base: nat, start: Request, k: nat, poll: Poll, token: nat,
                 handle: string, error: SessionError)
      requires start.RequestRunStart? && start.port !in ownedRuns && (connected ==> Kept(ownedRuns, before))
      requires if error == CallerGone then poll.callerGone
               else if error == ApprovalDeadline then
                 poll.deadlinePassed && multiset(sent)[start] == multiset(sentBefore)[start] + k
               else !connected && !EndsStart(error)
      ensures StartEnded(before, sentBefore, base, start, k, poll, token, handle, Err(error))
    {
      hide Kept, SessionState.AskedLast;
    }

    lemma AskedEnds(before: Runs, sentBefore: seq<Request>, base: nat, start: Request, k: nat, poll: Poll, token: nat,
                    handle: string, r: Result<Started>, runs: Runs, asked: seq<Request>)
      requires start.RequestRunStart? && start.port !in runs && Kept(runs, before)
      requires |sentBefore| <= |asked| && Waited(asked, |sentBefore|, base, start)
               && multiset(asked)[start] == multiset(sentBefore)[start] + k
      requires r.Ok? || r.error in {Denied, ApprovalTimedOut, ApprovalCancelled} ==>
                 connected && 0 < next && sent == asked + [start]
      requires r.Ok? ==>
                 && r.value.handle == handle && start.port in leases
                 && ownedRuns == runs[start.port := OwnedRun(r.value.runId, token, handle, 0, poll.now)]
                 && Reply(next - 1) == Replied(RunStartGranted(start.requestId, leases[start.port], r.value.runId))
      requires r.Err? ==>
                 && start.port !in ownedRuns && (connected ==> ownedRuns == runs && EndsStart(r.error))
                 && r.error !in {AlreadyOwned, NoHandle, ApprovalDeadline}
                 && (r.error == CallerGone ==> poll.callerGoneAtGrant)
                 && (r.error in {Denied, ApprovalTimedOut, ApprovalCancelled} ==> Declines(Reply(next - 1), r.error))
      ensures StartEnded(before, sentBefore, base, start, k, poll, token, handle, r)
    {
      hide Kept, SessionState.Waited;
      if r.Ok? { assert ownedRuns - {start.port} == runs; }
      if sent == asked + [start] { assert sent[..|sent| - 1] == asked; }
    }

    /** The renewal of all other Runs while a start is pending. */
    method RenewWaiting(now: nat, ghost before: Runs, ghost sentBefore: seq<Request>, ghost base: nat,
                        ghost start: Request, ghost k: nat, ghost approval: Option<Approval>)
      requires Polling(before, sentBefore, base, start, k, approval) && connected && k > 0 && start.RequestRunStart?
      modifies `connected, `actor, `leases, `ownedRuns, `next, `sent
      ensures Owned() && if connected then Polling(before, sentBefore, base, start, k, approval) else ownedRuns == map[]
    {
      hide Kept, Surviving, Plans, SessionState.Owned, SessionState.CarriedOut, SessionState.Waited;
      TickKeeps(ownedRuns, before, now, runIdleTtl);
      ghost var first, held, asked := next, leases, sent;
      RenewAll(now);
      if connected { TickWaited(asked, |sentBefore|, base, start, held, first); }
    }

    /** `start_run_with_policy`: poll one request until it is granted, refused, cancelled or too late. */
    method StartRun(port: string, title: string, requestId: nat, token: nat, candidates: seq<string>, polls: seq<Poll>)
        returns (r: Result<Started>, ghost polled: nat)
      requires Owned()
      modifies `connected, `actor, `leases, `ownedRuns, `next, `sent, `reused
      ensures Owned()
      ensures r == Err(AlreadyOwned) <==> port in old(ownedRuns)
      ensures r == Err(AlreadyOwned) ==> ownedRuns == old(ownedRuns) && sent == old(sent)
      ensures r == Err(NoHandle) ==>
                && port !in ownedRuns && ownedRuns == old(ownedRuns) && sent == old(sent)
                && forall c | c in candidates :: exists p :: p in old(ownedRuns) && old(ownedRuns)[p].handle == c
      ensures r.Ok? ==> r.value.handle in candidates
      // the polls before the last found somebody waiting with time left
      ensures polled <= |polls| && forall k | 0 <= k < polled :: !polls[k].callerGone && !polls[k].deadlinePassed
      ensures r !in {Err(AlreadyOwned), Err(NoHandle)} ==>
                StartEnded(old(ownedRuns), old(sent), old(CallAt()), RequestRunStart(port, requestId, title), polled,
                           PollAt(polls, polled), token, if r.Ok? then r.value.handle else "", r)
    {
      hide Kept, SessionState.Owned, SessionState.Polling, SessionState.StartEnded;
      polled := 0;
      if port in ownedRuns { return Err(AlreadyOwned), 0; }
      var handle :- NewHandle(candidates);
      var pendingApproval: Option<Approval> := None;
      var k := 0;
      StartPolling(RequestRunStart(port, requestId, title));
      while true
        invariant k == polled <= |polls|
        invariant forall j | 0 <= j < k :: !polls[j].callerGone && !polls[j].deadlinePassed
        invariant Polling(old(ownedRuns), old(sent), old(CallAt()), RequestRunStart(port, requestId, title), k,
                          pendingApproval)
        decreases |polls| - k
      {
        var done, approval := PollStart(port, title, requestId, token, handle, PollAt(polls, k), pendingApproval,
                                        old(ownedRuns), old(sent), old(CallAt()), k);
        if done.Some? {
          EndHandle(old(ownedRuns), old(sent), old(CallAt()), RequestRunStart(port, requestId, title), k,
                    PollAt(polls, k), token, handle, done.value);
          return done.value, k;
        }
        k, polled, pendingApproval := k + 1, polled + 1, approval;
      }
    }

    lemma StartPolling(start: Request)
      requires Owned()
      ensures Polling(ownedRuns, sent, CallAt(), start, 0, None)
    {
      hide SessionState.Owned;
    }

    lemma EndHandle(before: Runs, sentBefore: seq<Request>, base: nat, start: Request, k: nat, poll: Poll, token: nat,
                    handle: string, r: Result<Started>)
      requires start.RequestRunStart? && StartEnded(before, sentBefore, base, start, k, poll, token, handle, r)
      ensures r.Ok? ==> r.value.handle == handle
      ensures r.Err? ==>
                r.error !in {AlreadyOwned, NoHandle}
                && StartEnded(before, sentBefore, base, start, k, poll, token, "", r)
    {
      hide Kept;
    }

    /** Every start request from `n` on has been answered by a pending approval. */
    ghost predicate Waited(asked: seq<Request>, n: nat, base: nat, start: Request) {
      forall j | n <= j < |asked| && asked[j] == start ::
        Reply(base + j - n).Replied? && Reply(base + j - n).result.RunStartPending?
    }

    lemma WaitedMore(asked: seq<Request>, n: nat, base: nat, start: Request)
      requires n <= |asked| && Waited(asked, n, base, start)
      requires Reply(base + |asked| - n).Replied? && Reply(base + |asked| - n).result.RunStartPending?
      ensures Waited(asked + [start], n, base, start)
    {
    }

    lemma WaitedRenewal(asked: seq<Request>, n: nat, base: nat, start: Request, idle: seq<string>,
                        targets: seq<(string, Lease)>, before: map<string, Lease>)
      requires n <= |asked| && Waited(asked, n, base, start) && start.RequestRunStart?
      requires forall i | 0 <= i < |idle| :: idle[i] in before
      ensures var more := Releases(idle, before) + Renewals(targets);
              && Waited(asked + more, n, base, start) && |more| == |idle| + |targets|
              && multiset(asked + more)[start] == multiset(asked)[start]
    {
      var more := Releases(idle, before) + Renewals(targets);
      assert forall j | 0 <= j < |more| :: !more[j].RequestRunStart?;
      assert start !in more;
    }

    /** What a renewal tick leaves of `Waited`. */
    lemma TickWaited(asked: seq<Request>, n: nat, base: nat, start: Request, before: map<string, Lease>, first: nat)
      requires n <= |asked| && Waited(asked, n, base, start) && start.RequestRunStart?
      requires exists idle, targets :: CarriedOut(idle, targets, before, asked, first)
      ensures Waited(sent, n, base, start) && |sent| >= |asked| && next == first + |sent| - |asked|
      ensures multiset(sent)[start] == multiset(asked)[start]
    {
      hide SessionState.Waited, Renewed;
      var idle, targets :| CarriedOut(idle, targets, before, asked, first);
      WaitedRenewal(asked, n, base, start, idle, targets, before);
      assert asked + Releases(idle, before) + Renewals(targets) ==
               asked + (Releases(idle, before) + Renewals(targets));
    }

    /** A grant for this very request makes the Run ours, unless nobody waits for it any more. */
    method Grant(port: string, requestId: nat, approvalId: nat, lease: Lease, runId: nat, token: nat, handle: string,
                 poll: Poll) returns (r: Result<Started>)
      requires Owned() && connected && port !in ownedRuns && forall p | p in ownedRuns :: ownedRuns[p].handle != handle
      requires 0 < next && Grants(answers[next - 1], runId) && forall g | g in guards :: Granted(answers, next - 1, g.1)
      modifies `connected, `actor, `leases, `ownedRuns, `next, `sent, `reused
      ensures Owned() && reused == if approvalId == requestId then ReusedBy(old(reused), guards, port, runId)
                                   else old(reused)
      ensures r.Ok? <==> approvalId == requestId && !poll.callerGoneAtGrant
      ensures r.Err? ==> r.error == if approvalId != requestId then MismatchedGrant else CallerGone
      ensures approvalId != requestId ==> !connected
      ensures r.Ok? ==>
                connected && r.value == Started(runId, handle)
                && ownedRuns == old(ownedRuns)[port := OwnedRun(runId, token, handle, 0, poll.now)]
                && leases == old(leases)[port := lease] && sent == old(sent) && next == old(next)
      ensures r.Err? && connected && approvalId == requestId ==> sent == old(sent) + [ReleaseControl(port, lease)]
      ensures r.Err? ==> r.error != AlreadyOwned && port !in ownedRuns && (connected ==> ownedRuns == old(ownedRuns))
    {
      hide Accounted, DistinctHandles, Granted, Grants, ReusedBy;
      if approvalId != requestId {
        Disconnect();
        return Err(MismatchedGrant);
      }
      var run := OwnedRun(runId, token, handle, 0, poll.now);
      AddRun(ownedRuns, guards, reused, answers, next, port, run);
      reused := ReusedBy(reused, guards, port, runId);
      leases, ownedRuns := leases[port := lease], ownedRuns[port := run];
      if poll.callerGoneAtGrant {
        BestEffortRelease(port);
        assert old(ownedRuns)[port := run] - {port} == old(ownedRuns);
        return Err(CallerGone);
      }
      return Ok(Started(runId, handle));
    }

    predicate EndedAt(k: nat, runId: nat)
      reads this
    {
      k < |answers| && answers[k] == Replied(RunEnded(runId))
    }

    predicate EndedAny(k: nat)
      reads this
    {
      k < |answers| && answers[k].Replied? && answers[k].result.RunEnded?
    }

    /** `end_run`: the Run and its lease go together; control is renewed, the end asked for under that
        lease and, once confirmed, the lease released. */
    method EndRun(port: string, runId: nat, token: nat) returns (r: Result<nat>)
      requires Owned()
      modifies `connected, `actor, `leases, `ownedRuns, `next, `sent
      ensures Owned()
      ensures r.Ok? ==>
                old(Capable(port, runId, token)) && port !in ownedRuns && port !in leases
                && (connected ==> ownedRuns == old(ownedRuns) - {port})
                && EndedAt(old(next) + 1, r.value)
                && exists lease ::
                  LeaseAt(old(next), lease) && EndSent(port, runId, lease,
                                                       old(sent) + [RenewControl(port, old(leases)[port])])
      ensures r.Err? ==> !connected || ownedRuns == old(ownedRuns)
      ensures !old(Capable(port, runId, token)) ==>
                r.Err? && r.error in {NotOwned, CapabilityMismatch} && sent == old(sent) && ownedRuns == old(ownedRuns)
      ensures old(Capable(port, runId, token)) && !RenewedWith(Reply(old(next))) ==>
                r == Err(ErrorOf(Heard(Reply(old(next))))) && !connected
      ensures old(Capable(port, runId, token)) && RenewedWith(Reply(old(next))) ==>
                var answer := Reply(old(next) + 1);
                if EndedAny(old(next) + 1) then r.Ok? && (connected <==> Lasts(Reply(old(next) + 2)))
                else r == Err(ErrorOf(Heard(answer))) && (connected <==> answer.Replied?)
      ensures r.Err? && r.error == UnexpectedResult && connected ==>
                |sent| == |old(sent)| + 2 && sent[|old(sent)| + 1].EndRunRequest? && !EndedAny(old(next) + 1)
    {
      hide Accounted, DistinctHandles;
      if port !in ownedRuns { return Err(NotOwned); }
      if ownedRuns[port].id != runId || ownedRuns[port].token != token { return Err(CapabilityMismatch); }
      var lease :- RenewOwnedRunControl(port, runId, token);
      r := FinishRun(port, runId, lease);
    }

    /** The end was asked for under `lease` behind `before`, and the lease released, unless the connection
        was lost on the way. */
    ghost predicate EndSent(port: string, runId: nat, lease: Lease, before: seq<Request>)
      reads `sent, `connected
    {
      || sent == before + [EndRunRequest(port, lease, runId), ReleaseControl(port, lease)]
      || (!connected && sent == before + [EndRunRequest(port, lease, runId)])
    }

    method FinishRun(port: string, runId: nat, lease: Lease) returns (r: Result<nat>)
      requires Owned() && connected && port in leases && leases[port] == lease
      modifies `connected, `actor, `leases, `ownedRuns, `next, `sent
      ensures Owned()
      ensures r.Ok? ==>
                port !in ownedRuns && port !in leases && (connected ==> ownedRuns == old(ownedRuns) - {port})
                && EndedAt(old(next), r.value) && EndSent(port, runId, lease, old(sent))
                && (connected <==> Lasts(Reply(old(next) + 1)))
      ensures (r.Ok? <==> EndedAny(old(next))) && (r.Err? ==> r.error == ErrorOf(Heard(Reply(old(next)))))
      ensures r.Err? ==> (connected <==> Reply(old(next)).Replied?)
      ensures r.Err? && connected ==>
                ownedRuns == old(ownedRuns) && r.error == UnexpectedResult
                && sent == old(sent) + [EndRunRequest(port, lease, runId)] && !EndedAny(old(next))
    {
      hide Accounted, DistinctHandles;
      var result := Call(EndRunRequest(port, lease, runId));
      match result
      case Ok(RunEnded(ended)) =>
        RemovePort(ownedRuns, guards, reused, answers, next, port);
        ownedRuns := ownedRuns - {port};
        BestEffortRelease(port);
        assert old(sent) + [EndRunRequest(port, lease, runId)] + [ReleaseControl(port, lease)] ==
                 old(sent) + [EndRunRequest(port, lease, runId), ReleaseControl(port, lease)];
        return Ok(ended);
      case Ok(_) => return Err(UnexpectedResult);
      case Err(error) =>
        Disconnect();
        return Err(error);
    }

    /** `abort_run`: once the release is sent, nothing of the Run is kept whatever comes back. */
    method AbortRun(port: string, runId: nat, token: nat) returns (r: Result<()>)
      requires Owned()
      modifies `connected, `actor, `leases, `ownedRuns, `next, `sent
      ensures Owned()
      ensures !old(Capable(port, runId, token)) ==> r.Err? && ownedRuns == old(ownedRuns) && sent == old(sent)
      ensures old(Capable(port, runId, token)) ==>
                port !in ownedRuns && port !in leases && (connected ==> ownedRuns == old(ownedRuns) - {port})
      ensures old(Capable(port, runId, token)) ==>
                sent == old(sent) + [ReleaseControl(port, old(leases)[port])] || (!connected && sent == old(sent))
      ensures r.Ok? <==>
                old(Capable(port, runId, token)) && old(next) < |answers|
                && answers[old(next)] == Replied(ControlReleased)
      ensures old(Capable(port, runId, token)) ==>
                (connected <==> Lasts(Reply(old(next))))
                && (r.Err? ==> r.error == ErrorOf(Heard(Reply(old(next)))))
    {
      hide Accounted, DistinctHandles;
      if port !in leases {
        RemovePort(ownedRuns, guards, reused, answers, next, port);
        assert ownedRuns - {port} == ownedRuns;
        ownedRuns := ownedRuns - {port};
        return Err(LeaseLost);
      }
      if ownedRuns[port].id != runId || ownedRuns[port].token != token { return Err(CapabilityMismatch); }
      var result := Call(ReleaseControl(port, leases[port]));
      RemovePort(ownedRuns, guards, reused, answers, next, port);
      leases, ownedRuns := leases - {port}, ownedRuns - {port};
      match result
      case Ok(ControlReleased) => return Ok(());
      case Ok(_) => return Err(UnexpectedResult);
      case Err(error) => return Err(error);
    }

    /** `UpdateRunIdleTtl`: the new limit applies at once. */
    method UpdateRunIdleTtl(ttl: Option<nat>, now: nat)
      requires Owned()
      modifies `connected, `actor, `leases, `ownedRuns, `next, `sent, `runIdleTtl
      ensures Owned() && runIdleTtl == ttl
      ensures connected ==>
                forall p :: p in ownedRuns <==> p in old(ownedRuns) && !IdleExpired(old(ownedRuns)[p], now, ttl)
      ensures old(connected) ==> exists idle, targets ::
                && Plans(old(ownedRuns), old(leases), old(ownedRuns).Keys, idle, targets, now, ttl)
                && (connected <==> Favoured(idle, targets, old(next)))
                && (connected ==> CarriedOut(idle, targets, old(leases), old(sent), old(next)))
      ensures !old(connected) ==> !connected && sent == old(sent)
    {
      hide Accounted, DistinctHandles;
      runIdleTtl := ttl;
      RenewAll(now);
    }

    // ---------- macros, context and captures ----------

    /** A macro is started under control renewed in the same request, and sent at most once whatever is
        answered, so that no script is replayed. */
    method StartMacro(port: string, runId: nat, token: nat, script: string) returns (r: Result<nat>)
      requires Owned()
      modifies `connected, `actor, `leases, `ownedRuns, `next, `sent
      ensures Owned()
      ensures !old(Capable(port, runId, token)) ==> r.Err? && sent == old(sent) && ownedRuns == old(ownedRuns)
      ensures old(Capable(port, runId, token)) ==>
                var renewal := RenewControl(port, old(leases)[port]);
                || sent == old(sent) || sent == old(sent) + [renewal]
                || exists lease ::
                  LeaseAt(old(next), lease) && sent == old(sent) + [renewal, MacroStart(port, lease, runId, script)]
      ensures r.Ok? ==> connected && ownedRuns == old(ownedRuns) && |sent| == |old(sent)| + 2
                        && next == old(next) + 2 && answers[old(next) + 1] == Replied(MacroStarted(r.value))
                        && answers[old(next)] == Replied(ControlRenewed(leases[port]))
                        && leases == old(leases)[port := leases[port]]
      ensures r.Err? ==> !connected || ownedRuns == old(ownedRuns)
      ensures r.Err? && r.error in {Rejected(ControlLoss), TimedOut, TransportLost} ==> !connected
      ensures old(Capable(port, runId, token)) && !RenewedWith(Reply(old(next))) ==>
                r == Err(ErrorOf(Heard(Reply(old(next))))) && !connected
      ensures old(Capable(port, runId, token)) && RenewedWith(Reply(old(next))) ==>
                var answer := Reply(old(next) + 1);
                && (connected <==> Lasts(answer) && Heard(answer) != Err(Rejected(ControlLoss)))
                && (if answer.Replied? && answer.result.MacroStarted? then r == Ok(answer.result.execution)
                    else r == Err(ErrorOf(Heard(answer))))
    {
      hide Accounted, DistinctHandles, Heard, Lasts;
      HeardOf(Reply(next));
      HeardOf(Reply(next + 1));
      var lease :- RenewOwnedRunControl(port, runId, token);
      assert sent + [MacroStart(port, lease, runId, script)] ==
               old(sent) + [RenewControl(port, old(leases)[port]), MacroStart(port, lease, runId, script)];
      var result := Call(MacroStart(port, lease, runId, script));
      match result
      case Ok(MacroStarted(execution)) => return Ok(execution);
      case Ok(_) => return Err(UnexpectedResult);
      case Err(error) =>
        if error == Rejected(ControlLoss) { Disconnect(); }
        return Err(error);
    }

    /** Only the status may be asked again, once, after a lost connection; then nothing is owned any more.
        `textLost` says that another error's text looks like a lost connection. */
    method MacroStatusOf(port: string, execution: nat, textLost: bool) returns (r: Result<nat>)
      requires Owned()
      modifies `connected, `actor, `leases, `ownedRuns, `next, `sent
      ensures Owned() && (connected ==>
                          (ownedRuns == old(ownedRuns) && leases == old(leases))
                          || (ownedRuns == map[] && leases == map[]))
      ensures sent == old(sent) || sent == old(sent) + [MacroStatus(port, execution)]
              || sent == old(sent) + [MacroStatus(port, execution), MacroStatus(port, execution)]
      // a first answer that is no lost connection is final
      ensures old(Reaches()) ==>
                var answer := Reply(old(CallAt()));
                Heard(answer) in {Err(TransportLost), Err(TimedOut)} || (Heard(answer).Err? && textLost)
                || r == if answer.Replied? && answer.result.MacroReported? then Ok(answer.result.execution)
                        else Err(ErrorOf(Heard(answer)))
      // another is asked for once more, over a new connection if need be
      ensures old(Reaches()) ==>
                var answer, again := Reply(old(CallAt())),
                    Reply(old(CallAt()) + if Lasts(Reply(old(CallAt()))) then 1 else 2);
                Heard(answer).Err? && (Heard(answer).error in {TransportLost, TimedOut} || textLost)
                && (Lasts(answer) || Reply(old(CallAt()) + 1).Welcome?) ==>
                  r == if again.Replied? && again.result.MacroReported? then Ok(again.result.execution)
                       else Err(ErrorOf(Heard(again)))
    {
      hide Accounted, DistinctHandles, Heard, Lasts;
      HeardOf(Reply(CallAt()));
      HeardOf(Reply(CallAt() + 1));
      HeardOf(Reply(CallAt() + 2));
      var request := MacroStatus(port, execution);
      var result := Call(request);
      if result.Err? && (result.error in {TransportLost, TimedOut} || textLost) {
        result := Call(request);
        assert old(sent) + [request] + [request] == old(sent) + [request, request];
      }
      var answer :- result;
      return if answer.MacroReported? then Ok(answer.execution) else Err(UnexpectedResult);
    }

    /** A macro is cancelled under control renewed in the same request. */
    method CancelMacro(port: string, execution: nat, runId: nat, token: nat) returns (r: Result<nat>)
      requires Owned()
      modifies `connected, `actor, `leases, `ownedRuns, `next, `sent
      ensures Owned() && (connected ==> ownedRuns == old(ownedRuns))
      ensures !old(Capable(port, runId, token)) ==> r.Err? && sent == old(sent)
      ensures old(Capable(port, runId, token)) ==>
                var renewal := RenewControl(port, old(leases)[port]);
                || sent == old(sent) || sent == old(sent) + [renewal]
                || exists lease ::
                  LeaseAt(old(next), lease) && sent == old(sent) + [renewal, MacroCancel(port, lease, execution)]
      ensures old(Capable(port, runId, token)) && !RenewedWith(Reply(old(next))) ==>
                r == Err(ErrorOf(Heard(Reply(old(next))))) && !connected
      ensures old(Capable(port, runId, token)) && RenewedWith(Reply(old(next))) ==>
                var answer := Reply(old(next) + 1);
                && (connected <==> Lasts(answer))
                && (if answer.Replied? && answer.result.MacroCancelled? then r == Ok(answer.result.execution)
                    else r == Err(ErrorOf(Heard(answer))))
    {
      hide Accounted, DistinctHandles, Heard, Lasts;
      HeardOf(Reply(next));
      HeardOf(Reply(next + 1));
      var lease :- RenewOwnedRunControl(port, runId, token);
      assert sent + [MacroCancel(port, lease, execution)] ==
               old(sent) + [RenewControl(port, old(leases)[port]), MacroCancel(port, lease, execution)];
      var answer :- Call(MacroCancel(port, lease, execution));
      return if answer.MacroCancelled? then Ok(answer.execution) else Err(UnexpectedResult);
    }

    /** `acknowledge_run_context` and `record_command_capture`: one call that needs no control. */
    method Report(request: Request) returns (r: Result<()>)
      requires Owned() && (request.AcknowledgeRunContext? || request.RecordCommandCapture?)
      modifies `connected, `actor, `leases, `ownedRuns, `next, `sent
      ensures Owned() && (connected ==> ownedRuns == old(ownedRuns) && leases == old(leases))
      ensures sent == old(sent) || sent == old(sent) + [request]
      ensures old(Reaches()) ==>
                var answer := Reply(old(CallAt()));
                && sent == (if answer.SendFails? then old(sent) else old(sent) + [request])
                && (connected <==> Lasts(answer))
                && r == if answer == Replied(if request.RecordCommandCapture? then CaptureRecorded
                                             else ContextAcknowledged)
                        then Ok(()) else Err(ErrorOf(Heard(answer)))
    {
      var answer :- Call(request);
      return if (if request.RecordCommandCapture? then answer.CaptureRecorded? else answer.ContextAcknowledged?) then
               Ok(()) else Err(UnexpectedResult);
    }

    // ---------- whole sessions ----------

    /** One turn of the actor. */
    method Handle(action: Action)
      requires Owned()
      modifies this
      ensures Owned()
    {
      hide Accounted, DistinctHandles;
      match action
      case Begin(handle, now) => var _ := BeginRunUse(handle, now);
      case Drop(port, runId, now) => if (port, runId) in guards { EndRunUse(port, runId, now); }
      case Send(port, runId, token, data) => var _ := Transmit(port, runId, token, data);
      case Start(port, title, requestId, token, candidates, polls) =>
        var _, _ := StartRun(port, title, requestId, token, candidates, polls);
      case End(port, runId, token) => var _ := EndRun(port, runId, token);
      case Abort(port, runId, token) => var _ := AbortRun(port, runId, token);
      case Holds(port, runId, token) => var _ := RunOwnership(port, runId, token);
      case Limit(ttl, now) => UpdateRunIdleTtl(ttl, now);
      case Tick(now) => RenewAll(now);
      case Run(port, runId, token, script) => var _ := StartMacro(port, runId, token, script);
      case Ask(port, execution, textLost) => var _ := MacroStatusOf(port, execution, textLost);
      case Cancel(port, execution, runId, token) => var _ := CancelMacro(port, execution, runId, token);
      case Acknowledge(port, runId, revision, throughSeq) =>
        var _ := Report(AcknowledgeRunContext(port, runId, revision, throughSeq));
      case Record(port, report) => var _ := Report(RecordCommandCapture(port, report));
    }
  }

  datatype Action =
    | Begin(handle: string, now: nat)
    | Drop(port: string, runId: nat, now: nat)
    | Send(port: string, runId: nat, token: nat, data: seq<int>)
    | Start(port: string, title: string, requestId: nat, token: nat, candidates: seq<string>, polls: seq<Poll>)
    | End(port: string, runId: nat, token: nat)
    | Abort(port: string, runId: nat, token: nat)
    | Holds(port: string, runId: nat, token: nat)
    | Limit(ttl: Option<nat>, now: nat)
    | Tick(now: nat)
    | Run(port: string, runId: nat, token: nat, script: string)
    | Ask(port: string, execution: nat, textLost: bool)
    | Cancel(port: string, execution: nat, runId: nat, token: nat)
    | Acknowledge(port: string, runId: nat, revision: nat, throughSeq: nat)
    | Record(port: string, report: string)

  /** Whatever is asked and whatever the network and the daemon do, the maps agree at the end and every
      owned Run counts its own guards, except where the daemon granted a Run identity again on the port
      where a guard of it was out: `reused`, see `Grant`. */
  method Serve(ttl: Option<nat>, answers: seq<Answer>, actions: seq<Action>)
    returns (connected: bool, runs: Runs, leases: map<string, Lease>, guards: multiset<(string, nat)>,
             ghost reused: set<(string, nat)>)
    ensures runs.Keys == leases.Keys && DistinctHandles(runs) && (!connected ==> runs == map[])
    ensures forall p | p in runs :: runs[p].activeUses == guards[(p, runs[p].id)] || (p, runs[p].id) in reused
    ensures forall g | g in reused :: GrantedTwice(answers, |answers|, g.1)
  {
    hide DistinctHandles;
    var state := new SessionState(ttl, answers);
    for i := 0 to |actions|
      invariant fresh(state) && state.Owned() && state.answers == answers
    {
      state.Handle(actions[i]);
    }
    return state.connected, state.ownedRuns, state.leases, state.guards, state.reused;
  }
}
