/** The bounded-research lifecycle: registration, owner decisions, materialised assignments,
    revocation and expiry, as changes of the ledger tables (src/server.js and the store, authority,
    lifecycle-decision and materializer modules under src/runtime).

    Authorities form a chain: authority `a` supersedes authority `a - 1`. Hashes are opaque; the
    latest event hash of a log is represented by the log's length. */
module ResearchLifecycle {

  type AuthorityId = nat
  type TemplateId = nat

  datatype Authority = Authority(expiresAt: nat, templates: seq<TemplateId>)

  type Chain = seq<Authority>

  datatype Kind = Proposed | Accepted | Activated | Completed | Revoked | Expired | Revised | Superseded

  /** An owner approval belongs to one authority and one of the two approved steps. */
  datatype Key = Key(authority: AuthorityId, kind: Kind)

  datatype Approval = Approval(status: ApprovalStatus, consumed: bool)
  datatype ApprovalStatus = Pending | Approved | Rejected | Cancelled | Lapsed

  datatype Event = Event(kind: Kind, approval: ApprovalRef)
  datatype ApprovalRef = NoApproval | By(key: Key)

  datatype TaskStatus =
    | Planned | Queued | Blocked | WaitingApproval
    | Running | Done | Skipped | NeedsAttention | Failed | Stopped

  datatype Task = Task(status: TaskStatus, attemptRunning: bool, callInFlight: bool)

  /** `frozen` holds the authorities with an unknown provider or cost outcome, `held` those with a terminal
      custody record. */
  datatype Tables = Tables(
    now: nat,
    log: map<AuthorityId, seq<Event>>,
    approvals: map<Key, Approval>,
    assignments: map<AuthorityId, seq<TemplateId>>,
    tasks: map<(AuthorityId, TemplateId), Task>,
    frozen: set<AuthorityId>,
    held: set<AuthorityId>,
    scheduler: bool)

  /** The tables a transaction leaves, or a throw, which leaves them as they were. */
  datatype Try = Threw | Ok(tables: Tables) {
    predicate IsFailure() { Threw? }
    function PropagateFailure(): Try
      requires Threw?
    {
      Threw
    }
    function Extract(): Tables
      requires Ok?
    {
      tables
    }
  }

  // ---------------------------------------------------------------- reading the tables

  predicate IsTerminal(k: Kind) {
    k in {Completed, Revoked, Expired, Revised, Superseded}
  }

  /** A renewal may follow only these; revised and superseded authorities already bind a successor. */
  predicate AdmitsRenewal(k: Kind) {
    k in {Completed, Revoked, Expired}
  }

  predicate MayFollow(before: Kind, after: Kind) {
    match before
    case Proposed => after in {Accepted, Revoked, Expired, Revised, Superseded}
    case Accepted => after in {Activated, Revoked, Expired, Revised, Superseded}
    case Activated => after in {Completed, Revoked, Expired, Revised, Superseded}
    case _ => false
  }

  predicate Registered(t: Tables, a: AuthorityId) {
    a in t.log && t.log[a] != []
  }

  function Latest(t: Tables, a: AuthorityId): Kind
    requires Registered(t, a)
  {
    t.log[a][|t.log[a]| - 1].kind
  }

  /** The lifecycle state read at the clock's time: an open authority past its deadline reads as expired. */
  function Effective(chain: Chain, t: Tables, a: AuthorityId): Kind
    requires a < |chain| && Registered(t, a)
  {
    if !IsTerminal(Latest(t, a)) && t.now >= chain[a].expiresAt then Expired else Latest(t, a)
  }

  predicate DispatchAllowed(chain: Chain, t: Tables, a: AuthorityId)
    requires a < |chain|
  {
    Registered(t, a) && Effective(chain, t, a) == Activated && a !in t.frozen && a !in t.held
  }

  /** `preventurePredecessorTerminality`. */
  predicate PredecessorTerminal(t: Tables, a: AuthorityId) {
    a == 0 || (Registered(t, a - 1) && AdmitsRenewal(Latest(t, a - 1)))
  }

  predicate Unstarted(s: TaskStatus) {
    s in {Planned, Queued, Blocked, WaitingApproval}
  }

  predicate Active(task: Task) {
    task.status == Running || task.attemptRunning || task.callInFlight
  }

  predicate IsFinished(task: Task) {
    task.status in {Done, Skipped}
  }

  function Assigned(t: Tables, a: AuthorityId): seq<TemplateId> {
    if a in t.assignments then t.assignments[a] else []
  }

  predicate IsOpen(t: Tables, a: AuthorityId, id: TemplateId) {
    (a, id) in t.tasks && t.tasks[(a, id)].status in {Blocked, Queued}
  }

  /** The bridge reports some assignment ready to prepare or to run: the authority is the candidate and may
      dispatch, the task is blocked or queued, and `local`, the assignments whose request and transport are
      in order on this machine, has it. */
  predicate RunnerReady(chain: Chain, candidate: AuthorityId, t: Tables, a: AuthorityId, local: set<TemplateId>)
    requires a < |chain|
  {
    && a == candidate && DispatchAllowed(chain, t, a)
    && exists id :: id in local && id in Assigned(t, a) && IsOpen(t, a, id)
  }

  // ---------------------------------------------------------------- store operations

  /** `appendLifecycle`: the candidate and predecessor gates, the transition table, the deadline, and
      the single-use approval. Completion is written elsewhere. */
  function Append(chain: Chain, candidate: AuthorityId, t: Tables, a: AuthorityId, e: Event): Try
    requires a < |chain|
  {
    if a !in t.log then Threw
    else if e.kind in {Accepted, Activated} && a != candidate then Threw
    else if e.kind in {Proposed, Accepted, Activated} && !PredecessorTerminal(t, a) then Threw
    else if t.log[a] == [] && e.kind != Proposed then Threw
    else if t.log[a] != [] && !MayFollow(Latest(t, a), e.kind) then Threw
    else if (e.kind == Expired) != (t.now >= chain[a].expiresAt) then Threw
    else if e.kind in {Accepted, Activated} then
      if e.approval != By(Key(a, e.kind)) || Key(a, e.kind) !in t.approvals
         || t.approvals[Key(a, e.kind)] != Approval(Approved, false) then Threw
      else Ok(t.(log := t.log[a := t.log[a] + [e]],
        approvals := t.approvals[Key(a, e.kind) := Approval(Approved, true)]))
    else if e.approval != NoApproval then Threw
    else Ok(t.(log := t.log[a := t.log[a] + [e]]))
  }

  /** Another authority is open, by its effective state. */
  predicate Competing(chain: Chain, t: Tables, a: AuthorityId) {
    exists b :: b in t.log && b != a && b < |chain| && Registered(t, b) && !IsTerminal(Effective(chain, t, b))
  }

  /** `registerPreventureResearchProposal` for an authority not yet recorded. */
  function Register(chain: Chain, candidate: AuthorityId, t: Tables, a: AuthorityId): Try
    requires a < |chain|
  {
    if Competing(chain, t, a) || t.now >= chain[a].expiresAt then Threw
    else Append(chain, candidate, t.(log := t.log[a := []]), a, Event(Proposed, NoApproval))
  }

  function PriorOf(k: Kind): Kind
    requires k in {Accepted, Activated}
  {
    if k == Accepted then Proposed else Accepted
  }

  /** `createPreventureLifecycleApproval`: the pending approval of this step, or a new one. */
  function RequestApproval(chain: Chain, t: Tables, key: Key): Try
    requires key.authority < |chain| && key.kind in {Accepted, Activated}
  {
    if !Registered(t, key.authority) || Effective(chain, t, key.authority) != PriorOf(key.kind) then Threw
    else if key !in t.approvals then Ok(t.(approvals := t.approvals[key := Approval(Pending, false)]))
    else if t.approvals[key].status == Pending then Ok(t)
    else Threw
  }

  function PlannedTasks(a: AuthorityId, templates: seq<TemplateId>): map<(AuthorityId, TemplateId), Task> {
    map id | id in templates :: (a, id) := Task(Blocked, false, false)
  }

  /** The assignments of `ids` that are missing are added one by one, in order. */
  function Filled(existing: seq<TemplateId>, ids: seq<TemplateId>): seq<TemplateId> {
    if ids == [] then existing
    else
      var before, last := Filled(existing, ids[..|ids| - 1]), ids[|ids| - 1];
      if last in before then before else before + [last]
  }

  /** `materializePreventureResearchAssignments`: every planned task exists and is blocked, every stored
      assignment is planned, the missing ones are created, and then the set must be complete. */
  function Materialize(chain: Chain, candidate: AuthorityId, t: Tables, a: AuthorityId): Try
    requires a < |chain|
  {
    var templates, existing := chain[a].templates, Assigned(t, a);
    if a != candidate || !DispatchAllowed(chain, t, a) || templates == [] then Threw
    else if exists id :: id in templates && (a, id) in t.tasks && t.tasks[(a, id)].status != Blocked then Threw
    else if exists id :: id in existing && id !in templates then Threw
    else if |Filled(existing, templates)| != |templates| then Threw
    else Ok(t.(tasks := PlannedTasks(a, templates) + t.tasks,
               assignments := t.assignments[a := Filled(existing, templates)]))
  }

  /** `UPDATE tasks SET status = 'cancelled'` for the authority's unstarted tasks. */
  function CancelUnstarted(t: Tables, a: AuthorityId): Tables {
    t.(tasks := map id | id in t.tasks ::
         if id.0 == a && a in t.assignments && id.1 in t.assignments[a] && Unstarted(t.tasks[id].status)
         then t.tasks[id].(status := Stopped) else t.tasks[id])
  }

  /** `markEmergencyStopUnknown` for the authority's tasks in flight. */
  function StopInFlight(t: Tables, a: AuthorityId): Tables {
    t.(tasks := map id | id in t.tasks ::
         if id.0 == a && a in t.assignments && id.1 in t.assignments[a] && Active(t.tasks[id])
         then Task(NeedsAttention, false, false) else t.tasks[id])
  }

  /** `UPDATE approvals SET status = ...` for the authority's pending approvals. */
  function ClosePending(t: Tables, a: AuthorityId, status: ApprovalStatus): Tables {
    t.(approvals := map key | key in t.approvals ::
         if key.authority == a && t.approvals[key].status == Pending
         then t.approvals[key].(status := status) else t.approvals[key])
  }

  predicate AnyActive(t: Tables, a: AuthorityId) {
    a in t.assignments && exists id :: id in t.assignments[a] && TaskOutcomeOpen(t, a, id)
  }

  predicate TaskOutcomeOpen(t: Tables, a: AuthorityId, id: TemplateId) {
    (a, id) in t.tasks && (t.tasks[(a, id)].status == Running || t.tasks[(a, id)].attemptRunning)
  }

  // ---------------------------------------------------------------- terminal custody

  /** Assignment `k` was dispatched, all before it are completed and none after it was touched. */
  predicate CustodyFits(t: Tables, a: AuthorityId, k: nat) {
    && k < |Assigned(t, a)|
    && (forall j :: 0 <= j < |Assigned(t, a)| ==> (a, Assigned(t, a)[j]) in t.tasks)
    && (forall j :: 0 <= j < k ==> t.tasks[(a, Assigned(t, a)[j])].status == Done)
    && t.tasks[(a, Assigned(t, a)[k])].status in {Running, NeedsAttention}
    && forall j :: k < j < |Assigned(t, a)| ==> t.tasks[(a, Assigned(t, a)[j])] == Task(Blocked, false, false)
  }

  /** The dispatched task needs attention; the untouched ones are cancelled. */
  function HoldTasks(t: Tables, a: AuthorityId): Tables {
    t.(tasks := map id | id in t.tasks ::
         if id.0 == a && id.1 in Assigned(t, a) && t.tasks[id].status != Done then Held(t.tasks[id]) else t.tasks[id])
  }

  function Held(task: Task): Task {
    Task(if task.status == Blocked then Stopped else NeedsAttention, false, false)
  }

  /** `commitTerminalRetainedRecovery`, with the retained response in order; `stopped` says that an emergency
      stop is on record. An activated authority past its deadline is expired on the way. */
  function HoldCustody(chain: Chain, candidate: AuthorityId, t: Tables, a: AuthorityId, k: nat, stopped: bool): Try
    requires a < |chain|
  {
    if !Registered(t, a) then Threw
    else if a in t.held then Ok(t)
    else
      var t1 :- if Latest(t, a) == Activated && t.now >= chain[a].expiresAt
                then Append(chain, candidate, t, a, Event(Expired, NoApproval)) else Ok(t);
      if !stopped && Latest(t1, a) !in {Revoked, Expired} then Threw
      else if !CustodyFits(t1, a, k) then Threw
      else Ok(HoldTasks(t1, a).(held := t1.held + {a}))
  }

  function Scheduler(t: Tables, on: bool): Tables {
    t.(scheduler := on)
  }

  predicate HasAssignments(t: Tables, a: AuthorityId) {
    a in t.assignments && t.assignments[a] != []
  }

  // ---------------------------------------------------------------- the server's transactions

  /** `sealExpiredPreventureResearchFromServer`. */
  function SealExpired(chain: Chain, candidate: AuthorityId, t: Tables, a: AuthorityId): Try
    requires a < |chain|
  {
    if !Registered(t, a) || Latest(t, a) == Expired || Effective(chain, t, a) != Expired then Ok(t)
    else if AnyActive(t, a) then Ok(t)
    else
      var t1 :- Append(chain, candidate, t, a, Event(Expired, NoApproval));
      Ok(Scheduler(ClosePending(CancelUnstarted(t1, a), a, Lapsed), false))
  }

  /** `ensurePreventureResearchFoundation`. */
  function StartUp(chain: Chain, candidate: AuthorityId, t: Tables, a: AuthorityId, local: set<TemplateId>): Try
    requires a < |chain|
  {
    if a != candidate || !PredecessorTerminal(t, a) then Ok(Scheduler(t, false))
    else
      var t1 :- if Registered(t, a) then Ok(t) else Register(chain, candidate, t, a);
      if !Registered(t1, a) then Threw
      else
        var state := Effective(chain, t1, a);
        if state == Expired && Latest(t1, a) != Expired then SealExpired(chain, candidate, t1, a)
        else
          var t2 :- if state == Proposed then RequestApproval(chain, t1, Key(a, Accepted))
                    else if state == Accepted then RequestApproval(chain, t1, Key(a, Activated))
                    else if state == Activated && !HasAssignments(t1, a) then Materialize(chain, candidate, t1, a)
                    else if state == Activated && |t1.assignments[a]| != |chain[a].templates| then Threw
                    else Ok(t1);
          Ok(Scheduler(t2, Effective(chain, t2, a) == Activated && RunnerReady(chain, candidate, t2, a, local)))
  }

  /** The effect of `decidePreventureLifecycleApproval` on a pending approval. */
  function Resolve(chain: Chain, candidate: AuthorityId, t: Tables, key: Key, approve: bool): Try
    requires key.authority < |chain| && key in t.approvals && key.kind in {Accepted, Activated}
  {
    var a := key.authority;
    if t.approvals[key].consumed then Threw
    else if !Registered(t, a) || Effective(chain, t, a) != PriorOf(key.kind) then Threw
    else
      var status := if approve then Approved else Rejected;
      var t1 := t.(approvals := t.approvals[key := t.approvals[key].(status := status)]);
      if approve then Append(chain, candidate, t1, a, Event(key.kind, By(key)))
      else Append(chain, candidate, t1, a, Event(Revoked, NoApproval))
  }

  /** `decidePreventureLifecycleFromServer`. `exact` says that the owner session and the scope hash
      are in order. A decision already recorded the same way is replayed without a lifecycle change. */
  function Decide(chain: Chain, candidate: AuthorityId, t: Tables, a: AuthorityId, key: Key,
                  approve: bool, exact: bool, local: set<TemplateId>): Try
    requires a < |chain|
  {
    if a != candidate || !PredecessorTerminal(t, a) || key !in t.approvals
       || key.authority != a || key.kind !in {Accepted, Activated} || !exact then Threw
    else
      var pending := t.approvals[key].status == Pending;
      if !pending && t.approvals[key].status != (if approve then Approved else Rejected) then Threw
      else if !pending && approve && !t.approvals[key].consumed then Threw
      else
        var t1 :- if pending then Resolve(chain, candidate, t, key, approve) else Ok(t);
        var t2 :- if approve && key.kind == Accepted then RequestApproval(chain, t1, Key(a, Activated))
                  else if approve && pending then Materialize(chain, candidate, t1, a)
                  else Ok(t1);
        Ok(Scheduler(t2, approve && key.kind == Activated && RunnerReady(chain, candidate, t2, a, local)))
  }

  /** `revokePreventureResearchFromServer`; `seen` is the log length the owner acted on. */
  function Revoke(chain: Chain, candidate: AuthorityId, t: Tables, a: AuthorityId, seen: nat): Try
    requires a < |chain|
  {
    if !Registered(t, a) then Threw
    else if seen != |t.log[a]| then Threw
    else if Latest(t, a) == Revoked then Ok(t)
    else
      var t1 :- Append(chain, candidate, t, a, Event(Revoked, NoApproval));
      Ok(Scheduler(ClosePending(CancelUnstarted(StopInFlight(t1, a), a), a, Cancelled), false))
  }
}
