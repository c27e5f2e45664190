/** What holds over every run of the bounded-research lifecycle. */
module ResearchRuns {
  import opened ResearchLifecycle

  // ---------------------------------------------------------------- runs

  /** One event of a run: a server transaction (for whichever authority the registry names as candidate
      at that time), the passing of time, a step of the execution bridge, or the recovery of a claim that went
      stale, whose attempt may have reached the provider or not. */
  datatype Step =
    | StartUpStep(candidate: AuthorityId, a: AuthorityId, local: set<TemplateId>)
    | DecideStep(candidate: AuthorityId, a: AuthorityId, key: Key, approve: bool, exact: bool, local: set<TemplateId>)
    | RevokeStep(candidate: AuthorityId, a: AuthorityId, seen: nat)
    | SealStep(candidate: AuthorityId, a: AuthorityId)
    | TimePasses(ticks: nat)
    | TruthUnknown(a: AuthorityId)
    | TruthReconciled(a: AuthorityId)
    | BridgeMoves(a: AuthorityId, id: TemplateId, task: Task)
    | RecoverStep(a: AuthorityId, id: TemplateId, reached: bool)
    | CustodyStep(candidate: AuthorityId, a: AuthorityId, k: nat, stopped: bool)
    | Finalized(a: AuthorityId)

  function OrUnchanged(t: Tables, r: Try): Tables {
    if r.Ok? then r.tables else t
  }

  /** The bridge may change the row of an existing task in any way, except back to unstarted; it sets running
      only a task it claims from the queue, a task it finishes has nothing in flight, and a finished task stays
      as it is. */
  predicate BridgeMay(t: Tables, a: AuthorityId, id: TemplateId, task: Task) {
    && (a, id) in t.tasks && (Unstarted(task.status) ==> Unstarted(t.tasks[(a, id)].status))
    && (task.status == Running ==> t.tasks[(a, id)].status in {Queued, Running})
    && (IsFinished(task) ==> !Active(task))
    && (IsFinished(t.tasks[(a, id)]) ==> task == t.tasks[(a, id)])
  }

  /** `recoverStaleTaskClaims` for one running task: back to the queue for a retry, or, if its attempt may
      have reached the provider, to the owner. The attempt is closed; the call is left as it is. */
  function RecoverClaim(t: Tables, a: AuthorityId, id: TemplateId, reached: bool): Tables {
    if (a, id) in t.tasks && t.tasks[(a, id)].status == Running then
      var task := Task(if reached then NeedsAttention else Queued, false, t.tasks[(a, id)].callInFlight);
      t.(tasks := t.tasks[(a, id) := task])
    else t
  }

  /** A throw rolls its transaction back. */
  function Next(chain: Chain, t: Tables, s: Step): Tables {
    match s
    case StartUpStep(c, a, local) => if a < |chain| then OrUnchanged(t, StartUp(chain, c, t, a, local)) else t
    case DecideStep(c, a, key, approve, exact, local) =>
      if a < |chain| then OrUnchanged(t, Decide(chain, c, t, a, key, approve, exact, local)) else t
    case RevokeStep(c, a, seen) => if a < |chain| then OrUnchanged(t, Revoke(chain, c, t, a, seen)) else t
    case SealStep(c, a) => if a < |chain| then OrUnchanged(t, SealExpired(chain, c, t, a)) else t
    case TimePasses(ticks) => t.(now := t.now + ticks)
    case TruthUnknown(a) => t.(frozen := t.frozen + {a})
    case TruthReconciled(a) => t.(frozen := t.frozen - {a})
    case BridgeMoves(a, id, task) => if BridgeMay(t, a, id, task) then t.(tasks := t.tasks[(a, id) := task]) else t
    case RecoverStep(a, id, reached) => RecoverClaim(t, a, id, reached)
    case CustodyStep(c, a, k, stopped) =>
      if a < |chain| then OrUnchanged(t, HoldCustody(chain, c, t, a, k, stopped)) else t
    case Finalized(a) =>
      if a < |chain| && Registered(t, a) && Latest(t, a) == Activated && t.now < chain[a].expiresAt
      then t.(log := t.log[a := t.log[a] + [Event(Completed, NoApproval)]]) else t
  }

  function Run(chain: Chain, t: Tables, steps: seq<Step>): Tables {
    if steps == [] then t else Next(chain, Run(chain, t, steps[..|steps| - 1]), steps[|steps| - 1])
  }

  const EMPTY := Tables(0, map[], map[], map[], map[], {}, {}, false)

  // ---------------------------------------------------------------- the invariant

  ghost predicate LogOk(log: seq<Event>, a: AuthorityId) {
    && log != [] && log[0].kind == Proposed
    && (forall i :: 0 < i < |log| ==> MayFollow(log[i - 1].kind, log[i].kind))
    && forall i :: 0 <= i < |log| ==>
         log[i].approval == if log[i].kind in {Accepted, Activated} then By(Key(a, log[i].kind)) else NoApproval
  }

  /** Proposed, accepted and activated were logged, in that order. */
  ghost predicate WasActivated(log: seq<Event>) {
    |log| >= 3 && log[0].kind == Proposed && log[1].kind == Accepted && log[2].kind == Activated
  }

  /** The log of `a` is well formed, its predecessor is finished, and the approvals it names were approved and used. */
  ghost predicate LedgerOk(chain: Chain, t: Tables, a: AuthorityId) {
    a in t.log ==>
      && a < |chain| && LogOk(t.log[a], a) && PredecessorTerminal(t, a)
      && forall i :: 0 <= i < |t.log[a]| && t.log[a][i].approval.By? ==>
           t.log[a][i].approval.key in t.approvals && t.approvals[t.log[a][i].approval.key] == Approval(Approved, true)
  }

  ghost predicate ApprovalOk(t: Tables, a: AuthorityId, kind: Kind) {
    Key(a, kind) in t.approvals ==>
      && kind in {Accepted, Activated} && Registered(t, a)
      && (t.approvals[Key(a, kind)].status == Pending ==> Latest(t, a) == PriorOf(kind))
  }

  ghost predicate ApprovalsOk(t: Tables, a: AuthorityId) {
    forall kind :: ApprovalOk(t, a, kind)
  }

  ghost predicate AssignedOk(chain: Chain, t: Tables, a: AuthorityId) {
    && (a in t.assignments <==> a in t.log && WasActivated(t.log[a]))
    && (a in t.assignments ==> a < |chain| && t.assignments[a] == chain[a].templates)
    && forall id :: (a, id) in t.tasks <==> a in t.assignments && id in t.assignments[a]
  }

  /** No task waits to be started and none runs. */
  ghost predicate NothingGoesOn(t: Tables, a: AuthorityId) {
    forall id :: (a, id) in t.tasks ==> !Unstarted(t.tasks[(a, id)].status) && t.tasks[(a, id)].status != Running
  }

  ghost predicate NothingRuns(t: Tables, a: AuthorityId) {
    forall id :: (a, id) in t.tasks ==> t.tasks[(a, id)].status != Running
  }

  ghost predicate StoppedOk(t: Tables, a: AuthorityId) {
    Registered(t, a) && Latest(t, a) in {Revoked, Expired} ==> NothingGoesOn(t, a)
  }

  ghost predicate FinishedOk(t: Tables, a: AuthorityId) {
    forall id :: (a, id) in t.tasks && IsFinished(t.tasks[(a, id)]) ==> !Active(t.tasks[(a, id)])
  }

  ghost predicate AuthorityOk(chain: Chain, t: Tables, a: AuthorityId) {
    LedgerOk(chain, t, a) && ApprovalsOk(t, a) && AssignedOk(chain, t, a) && StoppedOk(t, a) && FinishedOk(t, a)
  }

  ghost predicate Inv(chain: Chain, t: Tables) {
    forall a :: AuthorityOk(chain, t, a)
  }

  // ---------------------------------------------------------------- what one operation touches

  ghost predicate Untouched(t: Tables, u: Tables, a: AuthorityId) {
    && (a in t.log <==> a in u.log) && (a in t.log ==> u.log[a] == t.log[a])
    && (forall kind :: Key(a, kind) in t.approvals <==> Key(a, kind) in u.approvals)
    && (forall kind :: Key(a, kind) in t.approvals ==> u.approvals[Key(a, kind)] == t.approvals[Key(a, kind)])
    && (a in t.assignments <==> a in u.assignments) && (a in t.assignments ==> u.assignments[a] == t.assignments[a])
    && (forall id :: (a, id) in t.tasks <==> (a, id) in u.tasks)
    && (forall id :: (a, id) in t.tasks ==> u.tasks[(a, id)] == t.tasks[(a, id)])
  }

  /** Logs grow only at their end, and never after a terminal event. */
  ghost predicate LogGrows(t: Tables, u: Tables, a: AuthorityId) {
    a in t.log ==>
      && a in u.log && t.log[a] <= u.log[a]
      && (Registered(t, a) && IsTerminal(Latest(t, a)) ==> u.log[a] == t.log[a])
  }

  /** Completed and skipped tasks stay as they are. */
  ghost predicate FinishedKept(t: Tables, u: Tables, a: AuthorityId) {
    forall id :: (a, id) in t.tasks && IsFinished(t.tasks[(a, id)]) ==>
      (a, id) in u.tasks && u.tasks[(a, id)] == t.tasks[(a, id)]
  }

  ghost predicate OnlyTouches(t: Tables, u: Tables, a: AuthorityId) {
    LogGrows(t, u, a) && FinishedKept(t, u, a) && forall b :: b != a ==> Untouched(t, u, b)
  }

  /** If an operation touches only `a` and leaves it in order, everything stays in order. */
  lemma OneAuthorityAtATime(chain: Chain, t: Tables, u: Tables, a: AuthorityId)
    requires Inv(chain, t) && OnlyTouches(t, u, a) && AuthorityOk(chain, u, a)
    ensures Inv(chain, u)
  {
    forall b: nat | b != a ensures AuthorityOk(chain, u, b) {
      assert AuthorityOk(chain, t, b);
      assert Untouched(t, u, b);
      if b == a + 1 && b in t.log {
        assert AuthorityOk(chain, t, a);
      } else if b > 0 && b - 1 != a {
        assert Untouched(t, u, b - 1);
      }
      forall kind ensures ApprovalOk(u, b, kind) {
        assert ApprovalOk(t, b, kind);
      }
    }
  }

  lemma ActivatedLogShape(log: seq<Event>, a: AuthorityId)
    requires LogOk(log, a)
    ensures log[|log| - 1].kind == Proposed ==> |log| == 1
    ensures log[|log| - 1].kind == Accepted ==> |log| == 2
    ensures log[|log| - 1].kind == Activated ==> |log| == 3 && WasActivated(log)
    ensures WasActivated(log) <==> |log| >= 3 && log[2].kind == Activated
  {
    if |log| >= 2 { assert MayFollow(log[0].kind, log[1].kind); }
    if |log| >= 3 { assert MayFollow(log[1].kind, log[2].kind); }
    if |log| >= 4 { assert MayFollow(log[2].kind, log[3].kind); }
    var n := |log| - 1;
    if n >= 1 { assert MayFollow(log[n - 1].kind, log[n].kind); }
    if n >= 2 { assert MayFollow(log[n - 2].kind, log[n - 1].kind); }
    if n >= 3 { assert MayFollow(log[n - 3].kind, log[n - 2].kind); }
  }

  // ---------------------------------------------------------------- the operations keep it

  /** A successful append extends the log of `a` by a permitted event and touches nothing else but the
      approval it uses. */
  lemma AppendEffect(chain: Chain, c: AuthorityId, t: Tables, a: AuthorityId, e: Event)
    requires a < |chain| && a in t.log && (t.log[a] == [] || LedgerOk(chain, t, a))
    requires t.log[a] == [] ==> PredecessorTerminal(t, a)
    requires Append(chain, c, t, a, e).Ok?
    ensures var u := Append(chain, c, t, a, e).tables;
      && u.log == t.log[a := t.log[a] + [e]] && LedgerOk(chain, u, a)
      && (t.log[a] != [] ==> MayFollow(Latest(t, a), e.kind))
      && (t.log[a] == [] ==> e.kind == Proposed)
      && u.assignments == t.assignments && u.tasks == t.tasks && u.now == t.now && u.frozen == t.frozen
      && u.approvals ==
          (if e.kind in {Accepted, Activated} then t.approvals[Key(a, e.kind) := Approval(Approved, true)]
            else t.approvals)
      && OnlyTouches(t, u, a)
  {
    LogOkGrows(t.log[a], a, e);
  }

  lemma LogOkGrows(log: seq<Event>, a: AuthorityId, e: Event)
    requires log == [] || LogOk(log, a)
    requires if log == [] then e.kind == Proposed else MayFollow(log[|log| - 1].kind, e.kind)
    requires e.approval == if e.kind in {Accepted, Activated} then By(Key(a, e.kind)) else NoApproval
    ensures LogOk(log + [e], a)
  {
    var longer := log + [e];
    forall i | 0 < i < |longer| ensures MayFollow(longer[i - 1].kind, longer[i].kind) {}
  }

  lemma RegisterKeepsInv(chain: Chain, c: AuthorityId, t: Tables, a: AuthorityId)
    requires Inv(chain, t) && a < |chain| && a !in t.log && PredecessorTerminal(t, a)
    requires Register(chain, c, t, a).Ok?
    ensures var u := Register(chain, c, t, a).tables;
      Inv(chain, u) && OnlyTouches(t, u, a) && Registered(u, a) && Latest(u, a) == Proposed
  {
    var blank := t.(log := t.log[a := []]);
    var u := Register(chain, c, t, a).tables;
    assert AuthorityOk(chain, t, a);
    AppendEffect(chain, c, blank, a, Event(Proposed, NoApproval));
    forall kind ensures ApprovalOk(u, a, kind) { assert ApprovalOk(t, a, kind); }
    forall b: nat | b != a ensures Untouched(t, u, b) { assert Untouched(blank, u, b); }
    OneAuthorityAtATime(chain, t, u, a);
  }

  lemma RequestKeepsInv(chain: Chain, t: Tables, key: Key)
    requires Inv(chain, t) && key.authority < |chain| && key.kind in {Accepted, Activated}
    requires RequestApproval(chain, t, key).Ok?
    ensures var u := RequestApproval(chain, t, key).tables;
      Inv(chain, u) && OnlyTouches(t, u, key.authority)
  {
    var a := key.authority;
    var u := RequestApproval(chain, t, key).tables;
    assert AuthorityOk(chain, t, a);
    forall kind ensures ApprovalOk(u, a, kind) { assert ApprovalOk(t, a, kind); }
    OneAuthorityAtATime(chain, t, u, a);
  }

  /** Starting from nothing, a set of full size is the planned one, in order. */
  lemma {:induction false} FilledFromNothing(ids: seq<TemplateId>)
    ensures |Filled([], ids)| <= |ids|
    ensures |Filled([], ids)| == |ids| ==> Filled([], ids) == ids
  {
    if ids != [] {
      FilledFromNothing(ids[..|ids| - 1]);
      assert ids == ids[..|ids| - 1] + [ids[|ids| - 1]];
    }
  }

  lemma {:induction false} FilledAlready(existing: seq<TemplateId>, ids: seq<TemplateId>)
    requires forall id :: id in ids ==> id in existing
    ensures Filled(existing, ids) == existing
  {
    if ids != [] {
      assert ids[|ids| - 1] in ids;
      FilledAlready(existing, ids[..|ids| - 1]);
    }
  }

  /** Materialisation from nothing, or of what is already complete, leaves the planned set. */
  lemma MaterializeShape(chain: Chain, c: AuthorityId, t: Tables, a: AuthorityId)
    requires a < |chain| && Materialize(chain, c, t, a).Ok?
    requires Assigned(t, a) == [] || Assigned(t, a) == chain[a].templates
    ensures var templates := chain[a].templates;
      && Materialize(chain, c, t, a).tables
         == t.(tasks := PlannedTasks(a, templates) + t.tasks, assignments := t.assignments[a := templates])
      && DispatchAllowed(chain, t, a)
      && forall id :: id in templates && (a, id) in t.tasks ==> t.tasks[(a, id)].status == Blocked
  {
    FilledFromNothing(chain[a].templates);
    FilledAlready(chain[a].templates, chain[a].templates);
  }

  lemma PlannedEffect(t: Tables, a: AuthorityId, templates: seq<TemplateId>)
    requires forall id :: (a, id) in t.tasks ==> id in templates && t.tasks[(a, id)].status == Blocked
    ensures var tasks := PlannedTasks(a, templates) + t.tasks;
      && (forall id :: (a, id) in tasks <==> id in templates)
      && (forall id :: (a, id) in tasks ==> tasks[(a, id)].status == Blocked)
      && forall id: (AuthorityId, TemplateId) :: id.0 != a ==>
           (id in tasks <==> id in t.tasks) && (id in t.tasks ==> tasks[id] == t.tasks[id])
  {
  }

  /** Materialisation completes an activated authority's assignments and touches nothing else. */
  lemma MaterializeEffect(chain: Chain, c: AuthorityId, t: Tables, a: AuthorityId)
    requires a < |chain| && LedgerOk(chain, t, a) && ApprovalsOk(t, a)
    requires Assigned(t, a) == [] || Assigned(t, a) == chain[a].templates
    requires forall id :: (a, id) in t.tasks ==> id in chain[a].templates
    requires Materialize(chain, c, t, a).Ok?
    ensures var u := Materialize(chain, c, t, a).tables;
      AuthorityOk(chain, u, a) && OnlyTouches(t, u, a) && u.log == t.log && u.approvals == t.approvals
  {
    MaterializeShape(chain, c, t, a);
    PlannedEffect(t, a, chain[a].templates);
    var u := Materialize(chain, c, t, a).tables;
    ActivatedLogShape(t.log[a], a);
    forall kind ensures ApprovalOk(u, a, kind) { assert ApprovalOk(t, a, kind); }
    assert AssignedOk(chain, u, a) && FinishedOk(u, a) && FinishedKept(t, u, a);
    forall b: nat | b != a ensures Untouched(t, u, b) {}
  }

  /** `u` is `t` with the work of `a` at an end: nothing goes on, nothing pending, finished tasks kept. */
  ghost predicate Closed(t: Tables, u: Tables, a: AuthorityId) {
    && u.log == t.log && u.assignments == t.assignments
    && u.tasks.Keys == t.tasks.Keys && u.approvals.Keys == t.approvals.Keys
    && (forall id :: id in t.tasks && id.0 != a ==> u.tasks[id] == t.tasks[id])
    && OthersKept(t, u, a) && NonePending(u, a)
    && NothingGoesOn(u, a) && FinishedKept(t, u, a) && FinishedOk(u, a)
  }

  /** Approvals of other authorities, and those not pending, are as they were. */
  ghost predicate OthersKept(t: Tables, u: Tables, a: AuthorityId) {
    forall key :: key in t.approvals && (key.authority != a || t.approvals[key].status != Pending) ==>
      key in u.approvals && u.approvals[key] == t.approvals[key]
  }

  ghost predicate NonePending(t: Tables, a: AuthorityId) {
    forall key :: key in t.approvals && key.authority == a ==> t.approvals[key].status != Pending
  }

  lemma StoppingCloses(t: Tables, a: AuthorityId, status: ApprovalStatus, inFlight: bool)
    requires status != Pending && FinishedOk(t, a) && (inFlight || NothingRuns(t, a))
    requires forall id :: (a, id) in t.tasks ==> a in t.assignments && id in t.assignments[a]
    ensures var halted := if inFlight then StopInFlight(t, a) else t;
      Closed(t, Scheduler(ClosePending(CancelUnstarted(halted, a), a, status), false), a)
  {
    var halted := if inFlight then StopInFlight(t, a) else t;
    HaltEffect(t, a);
    CancelEffect(halted, a);
    var cancelled := CancelUnstarted(halted, a);
    CloseEffect(cancelled, a, status);
  }

  lemma CloseEffect(t: Tables, a: AuthorityId, status: ApprovalStatus)
    requires status != Pending
    ensures var u := ClosePending(t, a, status);
      u == t.(approvals := u.approvals) && u.approvals.Keys == t.approvals.Keys && OthersKept(t, u, a)
        && NonePending(u, a)
  {
  }

  lemma HaltEffect(t: Tables, a: AuthorityId)
    requires FinishedOk(t, a)
    requires forall id :: (a, id) in t.tasks ==> a in t.assignments && id in t.assignments[a]
    ensures var u := StopInFlight(t, a);
      && u == t.(tasks := u.tasks) && u.tasks.Keys == t.tasks.Keys
      && (forall id :: id in t.tasks && id.0 != a ==> u.tasks[id] == t.tasks[id])
      && FinishedKept(t, u, a) && FinishedOk(u, a) && NothingRuns(u, a)
  {
  }

  lemma CancelEffect(t: Tables, a: AuthorityId)
    requires FinishedOk(t, a) && NothingRuns(t, a)
    requires forall id :: (a, id) in t.tasks ==> a in t.assignments && id in t.assignments[a]
    ensures var u := CancelUnstarted(t, a);
      && u == t.(tasks := u.tasks) && u.tasks.Keys == t.tasks.Keys
      && (forall id :: id in t.tasks && id.0 != a ==> u.tasks[id] == t.tasks[id])
      && NothingGoesOn(u, a) && FinishedKept(t, u, a) && FinishedOk(u, a)
  {
  }

  /** Ending an authority's log and closing its work puts everything in order. */
  lemma StoppingKeepsInv(chain: Chain, t: Tables, ended: Tables, u: Tables, a: AuthorityId, kind: Kind)
    requires Inv(chain, t) && a < |chain| && Registered(t, a) && kind in {Revoked, Expired}
    requires ended.log == t.log[a := t.log[a] + [Event(kind, NoApproval)]] && LedgerOk(chain, ended, a)
    requires MayFollow(Latest(t, a), kind)
    requires ended.approvals == t.approvals && ended.assignments == t.assignments && ended.tasks == t.tasks
    requires Closed(ended, u, a)
    ensures Inv(chain, u) && OnlyTouches(t, u, a) && Latest(u, a) == kind
  {
    assert AuthorityOk(chain, t, a);
    assert LedgerOk(chain, u, a);
    forall k ensures ApprovalOk(u, a, k) { assert ApprovalOk(t, a, k); }
    EndingKeepsActivation(t.log[a], u.log[a], a, kind);
    assert AssignedOk(chain, u, a);
    forall b: nat | b != a ensures Untouched(t, u, b) {}
    OneAuthorityAtATime(chain, t, u, a);
  }

  lemma EndingKeepsActivation(before: seq<Event>, after: seq<Event>, a: AuthorityId, kind: Kind)
    requires LogOk(before, a) && LogOk(after, a) && after == before + [Event(kind, NoApproval)] && kind != Activated
    ensures WasActivated(before) <==> WasActivated(after)
  {
    ActivatedLogShape(before, a);
    ActivatedLogShape(after, a);
    if |after| >= 3 && |before| < 3 { assert after[2].kind == kind; }
  }

  lemma SealKeepsInv(chain: Chain, c: AuthorityId, t: Tables, a: AuthorityId)
    requires Inv(chain, t) && a < |chain| && SealExpired(chain, c, t, a).Ok?
    ensures var u := SealExpired(chain, c, t, a).tables;
      && Inv(chain, u) && OnlyTouches(t, u, a)
      && (u != t ==> Registered(u, a) && Latest(u, a) == Expired && !u.scheduler)
  {
    var u := SealExpired(chain, c, t, a).tables;
    if u != t {
      assert AuthorityOk(chain, t, a);
      AppendEffect(chain, c, t, a, Event(Expired, NoApproval));
      var ended := Append(chain, c, t, a, Event(Expired, NoApproval)).tables;
      StoppingCloses(ended, a, Lapsed, false);
      StoppingKeepsInv(chain, t, ended, u, a, Expired);
    }
  }

  lemma RevokeKeepsInv(chain: Chain, c: AuthorityId, t: Tables, a: AuthorityId, seen: nat)
    requires Inv(chain, t) && a < |chain| && Revoke(chain, c, t, a, seen).Ok?
    ensures var u := Revoke(chain, c, t, a, seen).tables;
      && Inv(chain, u) && OnlyTouches(t, u, a)
      && Registered(u, a) && Latest(u, a) == Revoked && (u != t ==> !u.scheduler)
  {
    var u := Revoke(chain, c, t, a, seen).tables;
    if Latest(t, a) != Revoked {
      assert AuthorityOk(chain, t, a);
      AppendEffect(chain, c, t, a, Event(Revoked, NoApproval));
      var ended := Append(chain, c, t, a, Event(Revoked, NoApproval)).tables;
      StoppingCloses(ended, a, Cancelled, true);
      StoppingKeepsInv(chain, t, ended, u, a, Revoked);
    }
  }

  /** Holding custody ends the work on the dispatched assignment and on everything after it. */
  lemma HoldEffect(t: Tables, a: AuthorityId, k: nat)
    requires CustodyFits(t, a, k) && FinishedOk(t, a)
    requires forall id :: (a, id) in t.tasks ==> id in Assigned(t, a)
    ensures var u := HoldTasks(t, a);
      && u == t.(tasks := u.tasks) && u.tasks.Keys == t.tasks.Keys
      && (forall id :: id in t.tasks && id.0 != a ==> u.tasks[id] == t.tasks[id])
      && NothingGoesOn(u, a) && FinishedKept(t, u, a) && FinishedOk(u, a)
  {
    forall id | (a, id) in t.tasks ensures t.tasks[(a, id)].status in {Done, Running, NeedsAttention, Blocked} {
      FittingStatus(t, a, k, id);
    }
  }

  lemma FittingStatus(t: Tables, a: AuthorityId, k: nat, id: TemplateId)
    requires CustodyFits(t, a, k) && id in Assigned(t, a)
    ensures (a, id) in t.tasks && t.tasks[(a, id)].status in {Done, Running, NeedsAttention, Blocked}
  {
    var j :| 0 <= j < |Assigned(t, a)| && Assigned(t, a)[j] == id;
  }

  lemma CustodyKeepsInv(chain: Chain, c: AuthorityId, t: Tables, a: AuthorityId, k: nat, stopped: bool)
    requires Inv(chain, t) && a < |chain| && HoldCustody(chain, c, t, a, k, stopped).Ok?
    ensures var u := HoldCustody(chain, c, t, a, k, stopped).tables;
      && Inv(chain, u) && OnlyTouches(t, u, a)
      && (a !in t.held ==> a in u.held && NothingGoesOn(u, a))
  {
    var u := HoldCustody(chain, c, t, a, k, stopped).tables;
    assert AuthorityOk(chain, t, a);
    if a !in t.held {
      if Latest(t, a) == Activated && t.now >= chain[a].expiresAt {
        AppendEffect(chain, c, t, a, Event(Expired, NoApproval));
        HoldingExpiredKeepsInv(chain, t, Append(chain, c, t, a, Event(Expired, NoApproval)).tables, a, k);
      } else {
        HoldingKeepsInv(chain, t, a, k);
      }
    }
  }

  lemma HoldingExpiredKeepsInv(chain: Chain, t: Tables, ended: Tables, a: AuthorityId, k: nat)
    requires Inv(chain, t) && a < |chain| && Registered(t, a) && Latest(t, a) == Activated
    requires ended.log == t.log[a := t.log[a] + [Event(Expired, NoApproval)]] && LedgerOk(chain, ended, a)
    requires ended.approvals == t.approvals && ended.assignments == t.assignments && ended.tasks == t.tasks
    requires CustodyFits(ended, a, k)
    ensures var u := HoldTasks(ended, a).(held := ended.held + {a});
      Inv(chain, u) && OnlyTouches(t, u, a) && NothingGoesOn(u, a)
  {
    assert AuthorityOk(chain, t, a);
    HoldEffect(ended, a, k);
    NoneAwaitsWhenActivated(t, a);
    StoppingKeepsInv(chain, t, ended, HoldTasks(ended, a).(held := ended.held + {a}), a, Expired);
  }

  lemma HoldingKeepsInv(chain: Chain, t: Tables, a: AuthorityId, k: nat)
    requires Inv(chain, t) && CustodyFits(t, a, k)
    ensures var u := HoldTasks(t, a).(held := t.held + {a});
      Inv(chain, u) && OnlyTouches(t, u, a) && NothingGoesOn(u, a)
  {
    var u := HoldTasks(t, a).(held := t.held + {a});
    assert AuthorityOk(chain, t, a);
    HoldEffect(t, a, k);
    forall kind ensures ApprovalOk(u, a, kind) { assert ApprovalOk(t, a, kind); }
    OneAuthorityAtATime(chain, t, u, a);
  }

  lemma NoneAwaitsWhenActivated(t: Tables, a: AuthorityId)
    requires ApprovalsOk(t, a) && Registered(t, a) && Latest(t, a) == Activated
    ensures NonePending(t, a)
  {
    forall key | key in t.approvals && key.authority == a ensures t.approvals[key].status != Pending {
      assert ApprovalOk(t, a, key.kind);
    }
  }

  /** A log waiting for an approval does not name it yet. */
  lemma NextApprovalIsUnused(log: seq<Event>, a: AuthorityId, kind: Kind)
    requires LogOk(log, a) && kind in {Accepted, Activated} && log[|log| - 1].kind == PriorOf(kind)
    ensures |log| <= 2 && forall i :: 0 <= i < |log| ==> log[i].approval != By(Key(a, kind))
    ensures !WasActivated(log)
  {
    ActivatedLogShape(log, a);
  }

  /** A resolved decision: accepted and activated extend the log by the owner's approval, a rejection
      revokes. Activation leaves only the assignments to be materialised. */
  lemma ResolveEffect(chain: Chain, c: AuthorityId, t: Tables, key: Key, approve: bool)
    requires Inv(chain, t) && key.authority < |chain| && key in t.approvals && key.kind in {Accepted, Activated}
    requires t.approvals[key].status == Pending && Resolve(chain, c, t, key, approve).Ok?
    ensures var u := Resolve(chain, c, t, key, approve).tables; var a := key.authority;
      && OnlyTouches(t, u, a) && LedgerOk(chain, u, a) && ApprovalsOk(u, a)
      && Registered(u, a) && Latest(u, a) == (if approve then key.kind else Revoked)
      && a !in u.assignments && (forall id :: (a, id) !in u.tasks)
      && (!approve || key.kind == Accepted ==> AuthorityOk(chain, u, a))
  {
    var a := key.authority;
    assert AuthorityOk(chain, t, a) && ApprovalOk(t, a, key.kind);
    var t1 := t.(approvals := t.approvals[key := t.approvals[key].(status := if approve then Approved else Rejected)]);
    var e := if approve then Event(key.kind, By(key)) else Event(Revoked, NoApproval);
    assert t.log[a][|t.log[a]| - 1].kind == PriorOf(key.kind);
    NextApprovalIsUnused(t.log[a], a, key.kind);
    assert LedgerOk(chain, t1, a);
    AppendEffect(chain, c, t1, a, e);
    var u := Append(chain, c, t1, a, e).tables;
    ActivatedLogShape(u.log[a], a);
    forall kind ensures ApprovalOk(u, a, kind) { assert ApprovalOk(t, a, kind); }
    assert a !in t.assignments;
    forall b: nat | b != a ensures Untouched(t, u, b) { assert Untouched(t1, u, b); }
  }

  lemma DecideKeepsInv(chain: Chain, c: AuthorityId, t: Tables, a: AuthorityId, key: Key, approve: bool, exact: bool,
                       local: set<TemplateId>)
    requires Inv(chain, t) && a < |chain| && Decide(chain, c, t, a, key, approve, exact, local).Ok?
    ensures var u := Decide(chain, c, t, a, key, approve, exact, local).tables;
      Inv(chain, u) && OnlyTouches(t, u, a)
  {
    var u := Decide(chain, c, t, a, key, approve, exact, local).tables;
    var pending := t.approvals[key].status == Pending;
    var t1 := if pending then Resolve(chain, c, t, key, approve).tables else t;
    if pending { ResolveEffect(chain, c, t, key, approve); }
    if approve && key.kind == Activated && pending {
      MaterializeEffect(chain, c, t1, a);
      var t2 := Materialize(chain, c, t1, a).tables;
      TouchTwice(t, t1, t2, a);
      OneAuthorityAtATime(chain, t, t2, a);
      SchedulerKeepsInv(chain, t, t2, u, a);
    } else {
      if pending { OneAuthorityAtATime(chain, t, t1, a); }
      if approve && key.kind == Accepted {
        RequestKeepsInv(chain, t1, Key(a, Activated));
        var t2 := RequestApproval(chain, t1, Key(a, Activated)).tables;
        TouchTwice(t, t1, t2, a);
        SchedulerKeepsInv(chain, t, t2, u, a);
      } else {
        SchedulerKeepsInv(chain, t, t1, u, a);
      }
    }
  }

  lemma TouchTwice(t: Tables, u: Tables, v: Tables, a: AuthorityId)
    requires OnlyTouches(t, u, a) && OnlyTouches(u, v, a)
    ensures OnlyTouches(t, v, a)
  {
    forall b: nat | b != a ensures Untouched(t, v, b) { assert Untouched(t, u, b) && Untouched(u, v, b); }
  }

  /** The scheduler's status plays no part in the invariant. */
  lemma SchedulerKeepsInv(chain: Chain, t: Tables, u: Tables, v: Tables, a: AuthorityId)
    requires Inv(chain, u) && OnlyTouches(t, u, a) && v == Scheduler(u, v.scheduler)
    ensures Inv(chain, v) && OnlyTouches(t, v, a)
  {
    forall b: nat ensures AuthorityOk(chain, v, b) {
      assert AuthorityOk(chain, u, b);
      forall kind ensures ApprovalOk(v, b, kind) { assert ApprovalOk(u, b, kind); }
    }
    forall b: nat | b != a ensures Untouched(t, v, b) { assert Untouched(t, u, b); }
  }

  lemma StartUpKeepsInv(chain: Chain, c: AuthorityId, t: Tables, a: AuthorityId, local: set<TemplateId>)
    requires Inv(chain, t) && a < |chain| && StartUp(chain, c, t, a, local).Ok?
    ensures var u := StartUp(chain, c, t, a, local).tables;
      Inv(chain, u) && OnlyTouches(t, u, a)
  {
    var u := StartUp(chain, c, t, a, local).tables;
    assert AuthorityOk(chain, t, a);
    if a != c || !PredecessorTerminal(t, a) {
      SchedulerKeepsInv(chain, t, t, u, a);
    } else {
      var t1 := if Registered(t, a) then t else Register(chain, c, t, a).tables;
      if !Registered(t, a) { RegisterKeepsInv(chain, c, t, a); }
      StartUpRegistered(chain, c, t, t1, a, local);
    }
  }

  lemma StartUpRegistered(chain: Chain, c: AuthorityId, t: Tables, t1: Tables, a: AuthorityId, local: set<TemplateId>)
    requires Inv(chain, t1) && OnlyTouches(t, t1, a) && a < |chain| && a == c && Registered(t1, a)
    requires PredecessorTerminal(t1, a) && StartUp(chain, c, t1, a, local).Ok?
    ensures var u := StartUp(chain, c, t1, a, local).tables;
      Inv(chain, u) && OnlyTouches(t, u, a)
  {
    var u := StartUp(chain, c, t1, a, local).tables;
    assert AuthorityOk(chain, t1, a);
    var state := Effective(chain, t1, a);
    if state == Expired && Latest(t1, a) != Expired {
      SealKeepsInv(chain, c, t1, a);
      TouchTwice(t, t1, u, a);
    } else if state in {Proposed, Accepted} {
      var key := Key(a, if state == Proposed then Accepted else Activated);
      RequestKeepsInv(chain, t1, key);
      var t2 := RequestApproval(chain, t1, key).tables;
      TouchTwice(t, t1, t2, a);
      SchedulerKeepsInv(chain, t, t2, u, a);
    } else if state == Activated && !HasAssignments(t1, a) {
      MaterializeEffect(chain, c, t1, a);
      var t2 := Materialize(chain, c, t1, a).tables;
      OneAuthorityAtATime(chain, t1, t2, a);
      TouchTwice(t, t1, t2, a);
      SchedulerKeepsInv(chain, t, t2, u, a);
    } else {
      SchedulerKeepsInv(chain, t, t1, u, a);
    }
  }

  // ---------------------------------------------------------------- every step, every run

  lemma FinalizedKeepsInv(chain: Chain, t: Tables, a: AuthorityId)
    requires Inv(chain, t)
    ensures Inv(chain, Next(chain, t, Finalized(a))) && OnlyTouches(t, Next(chain, t, Finalized(a)), a)
  {
    var u := Next(chain, t, Finalized(a));
    if u != t {
      assert AuthorityOk(chain, t, a);
      CompletedIsOk(chain, t, u, a);
      OneAuthorityAtATime(chain, t, u, a);
    }
  }

  lemma CompletedIsOk(chain: Chain, t: Tables, u: Tables, a: AuthorityId)
    requires AuthorityOk(chain, t, a) && Registered(t, a) && Latest(t, a) == Activated
    requires u == t.(log := t.log[a := t.log[a] + [Event(Completed, NoApproval)]])
    ensures AuthorityOk(chain, u, a)
  {
    assert LedgerOk(chain, u, a);
    EndingKeepsActivation(t.log[a], u.log[a], a, Completed);
    forall kind ensures ApprovalOk(u, a, kind) { assert ApprovalOk(t, a, kind); }
  }

  lemma BridgeKeepsInv(chain: Chain, t: Tables, a: AuthorityId, id: TemplateId, task: Task)
    requires Inv(chain, t)
    ensures var u := Next(chain, t, BridgeMoves(a, id, task)); Inv(chain, u) && OnlyTouches(t, u, a)
  {
    var u := Next(chain, t, BridgeMoves(a, id, task));
    if u != t {
      assert AuthorityOk(chain, t, a);
      forall kind ensures ApprovalOk(u, a, kind) { assert ApprovalOk(t, a, kind); }
      OneAuthorityAtATime(chain, t, u, a);
    }
  }

  lemma RecoveryKeepsInv(chain: Chain, t: Tables, a: AuthorityId, id: TemplateId, reached: bool)
    requires Inv(chain, t)
    ensures var u := RecoverClaim(t, a, id, reached); Inv(chain, u) && OnlyTouches(t, u, a)
  {
    var u := RecoverClaim(t, a, id, reached);
    if u != t {
      assert AuthorityOk(chain, t, a);
      forall kind ensures ApprovalOk(u, a, kind) { assert ApprovalOk(t, a, kind); }
      OneAuthorityAtATime(chain, t, u, a);
    }
  }

  /** Only the clock, the frozen set and the scheduler differ. */
  lemma AsideKeepsInv(chain: Chain, t: Tables, u: Tables)
    requires Inv(chain, t) && u == t.(now := u.now, frozen := u.frozen, scheduler := u.scheduler)
    ensures Inv(chain, u)
  {
    forall b: nat ensures AuthorityOk(chain, u, b) {
      assert AuthorityOk(chain, t, b);
      forall kind ensures ApprovalOk(u, b, kind) { assert ApprovalOk(t, b, kind); }
    }
  }

  ghost predicate HistoryKept(t: Tables, u: Tables) {
    forall a: nat :: LogGrows(t, u, a) && FinishedKept(t, u, a)
  }

  predicate IsTransaction(s: Step) {
    s.StartUpStep? || s.DecideStep? || s.RevokeStep? || s.SealStep? || s.CustodyStep?
  }

  lemma TransactionKeepsInv(chain: Chain, t: Tables, s: Step)
    requires Inv(chain, t) && IsTransaction(s)
    ensures Inv(chain, Next(chain, t, s)) && HistoryKept(t, Next(chain, t, s))
  {
    var u := Next(chain, t, s);
    var touched := 0;
    match s {
      case StartUpStep(c, a, local) =>
        if a < |chain| && StartUp(chain, c, t, a, local).Ok? { StartUpKeepsInv(chain, c, t, a, local); touched := a; }
      case DecideStep(c, a, key, approve, exact, local) =>
        if a < |chain| && Decide(chain, c, t, a, key, approve, exact, local).Ok? {
          DecideKeepsInv(chain, c, t, a, key, approve, exact, local); touched := a;
        }
      case RevokeStep(c, a, seen) =>
        if a < |chain| && Revoke(chain, c, t, a, seen).Ok? { RevokeKeepsInv(chain, c, t, a, seen); touched := a; }
      case SealStep(c, a) =>
        if a < |chain| && SealExpired(chain, c, t, a).Ok? { SealKeepsInv(chain, c, t, a); touched := a; }
      case CustodyStep(c, a, k, stopped) =>
        if a < |chain| && HoldCustody(chain, c, t, a, k, stopped).Ok? {
          CustodyKeepsInv(chain, c, t, a, k, stopped); touched := a;
        }
    }
    TouchingKeepsHistory(t, u, touched);
  }

  /** Every step keeps the invariant, and no step rewrites a log, extends a finished one or changes a finished
      task. */
  lemma StepKeepsInv(chain: Chain, t: Tables, s: Step)
    requires Inv(chain, t)
    ensures Inv(chain, Next(chain, t, s)) && HistoryKept(t, Next(chain, t, s))
  {
    if IsTransaction(s) {
      TransactionKeepsInv(chain, t, s);
      return;
    }
    var u := Next(chain, t, s);
    var touched := 0;
    match s {
      case BridgeMoves(a, id, task) => BridgeKeepsInv(chain, t, a, id, task); touched := a;
      case RecoverStep(a, id, reached) => RecoveryKeepsInv(chain, t, a, id, reached); touched := a;
      case Finalized(a) => FinalizedKeepsInv(chain, t, a); touched := a;
      case _ => AsideKeepsInv(chain, t, u);
    }
    TouchingKeepsHistory(t, u, touched);
  }

  lemma TouchingKeepsHistory(t: Tables, u: Tables, a: AuthorityId)
    requires OnlyTouches(t, u, a)
    ensures HistoryKept(t, u)
  {
    forall b: nat ensures LogGrows(t, u, b) && FinishedKept(t, u, b) {
      if b != a { assert Untouched(t, u, b); }
    }
  }

  lemma HistoryKeptTwice(t: Tables, u: Tables, v: Tables)
    requires HistoryKept(t, u) && HistoryKept(u, v)
    ensures HistoryKept(t, v)
  {
    forall a: nat ensures LogGrows(t, v, a) && FinishedKept(t, v, a) {
      assert LogGrows(t, u, a) && LogGrows(u, v, a) && FinishedKept(t, u, a) && FinishedKept(u, v, a);
    }
  }

  lemma {:induction false} RunKeepsInv(chain: Chain, t: Tables, steps: seq<Step>)
    requires Inv(chain, t)
    ensures Inv(chain, Run(chain, t, steps)) && HistoryKept(t, Run(chain, t, steps))
  {
    if steps != [] {
      var n := |steps| - 1;
      RunKeepsInv(chain, t, steps[..n]);
      StepKeepsInv(chain, Run(chain, t, steps[..n]), steps[n]);
      HistoryKeptTwice(t, Run(chain, t, steps[..n]), Run(chain, t, steps));
    } else {
      TouchingKeepsHistory(t, t, 0);
    }
  }

  lemma EmptyIsInOrder(chain: Chain)
    ensures Inv(chain, EMPTY)
  {
    forall a: nat ensures AuthorityOk(chain, EMPTY, a) {
      forall kind ensures ApprovalOk(EMPTY, a, kind) {}
    }
  }

  // ---------------------------------------------------------------- the guarantees

  lemma {:induction false} EarlierAuthoritiesAreFinished(chain: Chain, t: Tables, a: AuthorityId, b: AuthorityId)
    requires Inv(chain, t) && a < b && b in t.log
    ensures Registered(t, a) && AdmitsRenewal(Latest(t, a))
    decreases b
  {
    assert AuthorityOk(chain, t, b);
    if a < b - 1 { EarlierAuthoritiesAreFinished(chain, t, a, b - 1); }
  }

  ghost predicate HasNotEnded(t: Tables, a: AuthorityId) {
    Registered(t, a) && !IsTerminal(Latest(t, a))
  }

  /** In every reachable state at most one authority is open: all before the last registered one ended
      completed, revoked or expired. */
  lemma AtMostOneOpenAuthority(chain: Chain, steps: seq<Step>)
    ensures var t := Run(chain, EMPTY, steps);
      && (forall a, b :: a in t.log && b in t.log && a < b ==> Registered(t, a) && AdmitsRenewal(Latest(t, a)))
      && forall a, b :: HasNotEnded(t, a) && HasNotEnded(t, b) ==> a == b
  {
    var t := Run(chain, EMPTY, steps);
    EmptyIsInOrder(chain);
    RunKeepsInv(chain, EMPTY, steps);
    forall a: nat, b: nat | a in t.log && b in t.log && a < b ensures Registered(t, a) && AdmitsRenewal(Latest(t, a)) {
      EarlierAuthoritiesAreFinished(chain, t, a, b);
    }
  }

  /** Assignments exist exactly for authorities whose log starts proposed, accepted, activated; accepted
      and activated each used up its own approved approval; and the assignments are the complete set. */
  lemma AssignmentsFollowTwoApprovals(chain: Chain, steps: seq<Step>, a: AuthorityId)
    ensures var t := Run(chain, EMPTY, steps);
      && (a in t.assignments <==> a in t.log && WasActivated(t.log[a]))
      && (a in t.assignments ==>
            && a < |chain| && t.assignments[a] == chain[a].templates
            && t.log[a][1].approval == By(Key(a, Accepted)) && t.log[a][2].approval == By(Key(a, Activated))
            && Key(a, Accepted) in t.approvals && t.approvals[Key(a, Accepted)] == Approval(Approved, true)
            && Key(a, Activated) in t.approvals && t.approvals[Key(a, Activated)] == Approval(Approved, true))
      && forall id :: (a, id) in t.tasks <==> a in t.assignments && id in t.assignments[a]
  {
    EmptyIsInOrder(chain);
    RunKeepsInv(chain, EMPTY, steps);
    assert AuthorityOk(chain, Run(chain, EMPTY, steps), a);
  }

  /** Later steps of a run never change materialised assignments, never rewrite a log, and never extend
      a finished one. */
  lemma AssignmentsAreMaterialisedOnce(chain: Chain, steps: seq<Step>, more: seq<Step>, a: AuthorityId)
    ensures var t := Run(chain, EMPTY, steps); var u := Run(chain, t, more);
      && LogGrows(t, u, a)
      && (a in t.assignments ==> a in u.assignments && u.assignments[a] == t.assignments[a])
  {
    var t := Run(chain, EMPTY, steps);
    EmptyIsInOrder(chain);
    RunKeepsInv(chain, EMPTY, steps);
    RunKeepsInv(chain, t, more);
    var u := Run(chain, t, more);
    assert AuthorityOk(chain, t, a) && AuthorityOk(chain, u, a) && LogGrows(t, u, a);
  }

  /** After a revocation or a sealed expiry, none of the authority's tasks is planned, queued, blocked,
      waiting or running, and none of its approvals is pending, for the rest of the run. */
  lemma StoppedAuthorityHasNoOpenWork(chain: Chain, steps: seq<Step>, a: AuthorityId)
    ensures var t := Run(chain, EMPTY, steps);
      Registered(t, a) && Latest(t, a) in {Revoked, Expired} ==>
        && (forall id :: (a, id) in t.tasks ==>
              !Unstarted(t.tasks[(a, id)].status) && t.tasks[(a, id)].status != Running)
        && forall key :: key in t.approvals && key.authority == a ==> t.approvals[key].status != Pending
  {
    var t := Run(chain, EMPTY, steps);
    EmptyIsInOrder(chain);
    RunKeepsInv(chain, EMPTY, steps);
    assert AuthorityOk(chain, t, a);
    forall key | key in t.approvals && key.authority == a && Registered(t, a) && Latest(t, a) in {Revoked, Expired}
      ensures t.approvals[key].status != Pending
    {
      assert ApprovalOk(t, a, key.kind);
    }
  }

  /** A revocation that goes through ends the authority and switches the scheduler off; before the
      deadline it goes through exactly for an open authority whose latest event the owner has seen. */
  lemma RevokeGoesThrough(chain: Chain, c: AuthorityId, t: Tables, a: AuthorityId, seen: nat)
    requires Inv(chain, t) && a < |chain| && Registered(t, a) && Latest(t, a) != Revoked
    ensures Revoke(chain, c, t, a, seen).Ok? <==>
              seen == |t.log[a]| && !IsTerminal(Latest(t, a)) && t.now < chain[a].expiresAt
    ensures Revoke(chain, c, t, a, seen).Ok? ==>
              var u := Revoke(chain, c, t, a, seen).tables; Latest(u, a) == Revoked && !u.scheduler
  {
    assert AuthorityOk(chain, t, a);
    if Revoke(chain, c, t, a, seen).Ok? { RevokeKeepsInv(chain, c, t, a, seen); }
  }

  /** Authority 0 has reached `kind` before its deadline, nothing is assigned yet, and the approval of the
      next step waits for the owner. */
  ghost predicate Awaiting(chain: Chain, t: Tables, kind: Kind, next: Kind) {
    && 0 < |chain| && t.now < chain[0].expiresAt && 0 !in t.frozen && 0 !in t.held
    && 0 in t.log && t.log[0] != [] && Latest(t, 0) == kind
    && Key(0, next) in t.approvals && t.approvals[Key(0, next)] == Approval(Pending, false)
    && (next == Accepted ==> Key(0, Activated) !in t.approvals)
    && t.assignments == map[] && t.tasks == map[]
  }

  ghost predicate DistinctTemplates(ids: seq<TemplateId>) {
    forall i, j :: 0 <= i < j < |ids| ==> ids[i] != ids[j]
  }

  lemma {:induction false} DistinctAreAllFilled(ids: seq<TemplateId>)
    requires DistinctTemplates(ids)
    ensures Filled([], ids) == ids
  {
    if ids != [] {
      DistinctAreAllFilled(ids[..|ids| - 1]);
      assert ids == ids[..|ids| - 1] + [ids[|ids| - 1]];
    }
  }

  lemma StartUpProposes(chain: Chain, local: set<TemplateId>)
    requires chain != [] && chain[0].expiresAt > 0
    ensures Awaiting(chain, Next(chain, EMPTY, StartUpStep(0, 0, local)), Proposed, Accepted)
  {
    var blank := EMPTY.(log := EMPTY.log[0 := []]);
    assert blank.log[0] == [];
    assert Append(chain, 0, blank, 0, Event(Proposed, NoApproval)).Ok?;
    assert Register(chain, 0, EMPTY, 0).Ok?;
  }

  lemma AcceptanceAwaitsActivation(chain: Chain, t: Tables, local: set<TemplateId>)
    requires Awaiting(chain, t, Proposed, Accepted)
    ensures Awaiting(chain, Next(chain, t, DecideStep(0, 0, Key(0, Accepted), true, true, local)), Accepted, Activated)
  {
    assert Resolve(chain, 0, t, Key(0, Accepted), true).Ok?;
  }

  /** A freshly assigned round: every planned task is blocked, and work may be dispatched. */
  ghost predicate Started(chain: Chain, t: Tables) {
    && 0 < |chain| && 0 in t.assignments && t.assignments[0] == chain[0].templates && DispatchAllowed(chain, t, 0)
    && forall id :: id in chain[0].templates ==> (0, id) in t.tasks && t.tasks[(0, id)] == Task(Blocked, false, false)
  }

  lemma ActivationAssigns(chain: Chain, t: Tables, local: set<TemplateId>)
    requires Awaiting(chain, t, Accepted, Activated) && chain[0].templates != []
        && DistinctTemplates(chain[0].templates)
    ensures var u := Next(chain, t, DecideStep(0, 0, Key(0, Activated), true, true, local));
      Started(chain, u) && (u.scheduler <==> exists id :: id in local && id in chain[0].templates)
  {
    var t1 := Resolve(chain, 0, t, Key(0, Activated), true).tables;
    ActivationResolves(chain, t);
    MaterializationStarts(chain, t1);
    StartedIsReady(chain, Materialize(chain, 0, t1, 0).tables, local);
  }

  lemma ActivationResolves(chain: Chain, t: Tables)
    requires Awaiting(chain, t, Accepted, Activated)
    ensures var r := Resolve(chain, 0, t, Key(0, Activated), true);
      r.Ok? && DispatchAllowed(chain, r.tables, 0) && r.tables.assignments == map[] && r.tables.tasks == map[]
  {
  }

  lemma MaterializationStarts(chain: Chain, t: Tables)
    requires chain != [] && DispatchAllowed(chain, t, 0) && t.assignments == map[] && t.tasks == map[]
    requires chain[0].templates != [] && DistinctTemplates(chain[0].templates)
    ensures Materialize(chain, 0, t, 0).Ok? && Started(chain, Materialize(chain, 0, t, 0).tables)
  {
    DistinctAreAllFilled(chain[0].templates);
  }

  lemma StartedIsReady(chain: Chain, t: Tables, local: set<TemplateId>)
    requires Started(chain, t)
    ensures RunnerReady(chain, 0, t, 0, local) <==> exists id :: id in local && id in chain[0].templates
  {
    if id :| id in local && id in chain[0].templates {
      assert id in Assigned(t, 0) && IsOpen(t, 0, id);
    }
  }

  lemma RunOneMore(chain: Chain, t: Tables, steps: seq<Step>, s: Step)
    ensures Run(chain, t, steps + [s]) == Next(chain, Run(chain, t, steps), s)
  {
    assert (steps + [s])[..|steps|] == steps;
  }

  lemma RunOfThree(chain: Chain, t: Tables, s0: Step, s1: Step, s2: Step)
    ensures Run(chain, t, [s0, s1, s2]) == Next(chain, Next(chain, Next(chain, t, s0), s1), s2)
  {
    RunOneMore(chain, t, [], s0);
    RunOneMore(chain, t, [s0], s1);
    RunOneMore(chain, t, [s0, s1], s2);
    assert [] + [s0] == [s0] && [s0] + [s1] == [s0, s1] && [s0, s1] + [s2] == [s0, s1, s2];
  }

  /** Start-up and the two owner approvals of authority 0. */
  function OpeningSteps(local: set<TemplateId>): seq<Step> {
    [StartUpStep(0, 0, local), DecideStep(0, 0, Key(0, Accepted), true, true, local),
     DecideStep(0, 0, Key(0, Activated), true, true, local)]
  }

  /** The lifecycle can be completed: before the deadline, a start-up and the two owner approvals lead to
      the complete set of assignments, every task blocked, with the scheduler on exactly if this machine can
      run one of them. */
  lemma TwoApprovalsStartTheRound(chain: Chain, local: set<TemplateId>)
    requires chain != [] && chain[0].expiresAt > 0 && chain[0].templates != [] && DistinctTemplates(chain[0].templates)
    ensures var t := Run(chain, EMPTY, OpeningSteps(local));
      Started(chain, t) && (t.scheduler <==> exists id :: id in local && id in chain[0].templates)
  {
    var start, accept := StartUpStep(0, 0, local), DecideStep(0, 0, Key(0, Accepted), true, true, local);
    var activate := DecideStep(0, 0, Key(0, Activated), true, true, local);
    StartUpProposes(chain, local);
    AcceptanceAwaitsActivation(chain, Next(chain, EMPTY, start), local);
    ActivationAssigns(chain, Next(chain, Next(chain, EMPTY, start), accept), local);
    RunOfThree(chain, EMPTY, start, accept, activate);
  }
}
