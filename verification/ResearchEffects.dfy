/** What each lifecycle transaction does, row by row, and exactly when it goes through (src/server.js). The
    conditions and effects are read off the tables, not off the transactions' own tests. */
module ResearchEffects {
  import opened ResearchLifecycle
  import opened ResearchRuns

  // ---------------------------------------------------------------- reading and comparing rows

  predicate Waits(task: Task) {
    task.status in {Planned, Queued, Blocked, WaitingApproval}
  }

  /** Registered, not ended, and the deadline has not passed. */
  predicate OpenInTime(chain: Chain, t: Tables, a: AuthorityId)
    requires a < |chain|
  {
    a in t.log && t.log[a] != [] && Latest(t, a) in {Proposed, Accepted, Activated} && t.now < chain[a].expiresAt
  }

  /** Registered, not ended, and past its deadline. */
  predicate Overdue(chain: Chain, t: Tables, a: AuthorityId)
    requires a < |chain|
  {
    a in t.log && t.log[a] != [] && Latest(t, a) in {Proposed, Accepted, Activated} && t.now >= chain[a].expiresAt
  }

  /** The authority before `a` is done, if there is one. */
  predicate ComesNext(t: Tables, a: AuthorityId) {
    a == 0 || (a - 1 in t.log && t.log[a - 1] != [] && Latest(t, a - 1) in {Completed, Revoked, Expired})
  }

  /** No assigned task runs, nor any attempt at one. */
  ghost predicate NothingUnderWay(t: Tables, a: AuthorityId) {
    forall id :: (a, id) in t.tasks ==> t.tasks[(a, id)].status != Running && !t.tasks[(a, id)].attemptRunning
  }

  /** Candidate, activated, in time, with no unknown outcome and no custody, and this machine can run an
      assigned task that is blocked or queued. */
  ghost predicate CanStart(chain: Chain, c: AuthorityId, t: Tables, a: AuthorityId, local: set<TemplateId>)
    requires a < |chain|
  {
    && a == c && a in t.log && t.log[a] != [] && Latest(t, a) == Activated && t.now < chain[a].expiresAt
    && a !in t.frozen && a !in t.held && a in t.assignments
    && exists id :: id in local && id in t.assignments[a] && (a, id) in t.tasks
         && t.tasks[(a, id)].status in {Blocked, Queued}
  }

  /** The logs with one more event of `a`. */
  function Logged(t: Tables, a: AuthorityId, e: Event): map<AuthorityId, seq<Event>> {
    t.log[a := (if a in t.log then t.log[a] else []) + [e]]
  }

  ghost predicate OneMoreEvent(t: Tables, u: Tables, a: AuthorityId, e: Event) {
    a in t.log && u.log == Logged(t, a, e)
  }

  /** Clock, assignments, and the marks of unknown outcomes and custody are as before. */
  ghost predicate RestIsKept(t: Tables, u: Tables) {
    u.now == t.now && u.assignments == t.assignments && u.frozen == t.frozen && u.held == t.held
  }

  /** Pending approvals of `a` get the status, all others stay. */
  ghost predicate PendingBecome(t: Tables, u: Tables, a: AuthorityId, status: ApprovalStatus) {
    && u.approvals.Keys == t.approvals.Keys
    && forall key :: key in t.approvals ==>
         u.approvals[key] == if key.authority == a && t.approvals[key].status == Pending
                             then Approval(status, t.approvals[key].consumed) else t.approvals[key]
  }

  /** Waiting tasks of `a` are cancelled, all others stay. */
  ghost predicate WaitingAreStopped(t: Tables, u: Tables, a: AuthorityId) {
    && u.tasks.Keys == t.tasks.Keys
    && forall id :: id in t.tasks ==>
         u.tasks[id] == if id.0 == a && Waits(t.tasks[id]) then t.tasks[id].(status := Stopped) else t.tasks[id]
  }

  // ---------------------------------------------------------------- sealing a deadline

  /** The log gains `Expired` exactly if the authority is overdue and nothing of it is under way. Then what
      waits is cancelled, pending approvals lapse and the scheduler is off; otherwise nothing changes. */
  lemma SealsIffNothingUnderWay(chain: Chain, c: AuthorityId, t: Tables, a: AuthorityId)
    requires Inv(chain, t) && a < |chain|
    ensures var r := SealExpired(chain, c, t, a);
      && r.Ok?
      && (if Overdue(chain, t, a) && NothingUnderWay(t, a) then
            && OneMoreEvent(t, r.tables, a, Event(Expired, NoApproval))
            && WaitingAreStopped(t, r.tables, a) && PendingBecome(t, r.tables, a, Lapsed)
            && !r.tables.scheduler && RestIsKept(t, r.tables)
          else r.tables == t)
  {
    assert AuthorityOk(chain, t, a);
    if Overdue(chain, t, a) {
      WhatIsUnderWay(chain, t, a);
      if NothingUnderWay(t, a) { StoppedRows(Append(chain, c, t, a, Event(Expired, NoApproval)).tables, a); }
    }
  }

  lemma WhatIsUnderWay(chain: Chain, t: Tables, a: AuthorityId)
    requires AuthorityOk(chain, t, a)
    ensures AnyActive(t, a) <==> !NothingUnderWay(t, a)
  {
    if AnyActive(t, a) {
      var id :| id in t.assignments[a] && TaskOutcomeOpen(t, a, id);
      assert (a, id) in t.tasks;
    }
    if !NothingUnderWay(t, a) {
      var id :| (a, id) in t.tasks && (t.tasks[(a, id)].status == Running || t.tasks[(a, id)].attemptRunning);
      assert id in t.assignments[a] && TaskOutcomeOpen(t, a, id);
    }
  }

  lemma StoppedRows(t: Tables, a: AuthorityId)
    requires forall id :: (a, id) in t.tasks ==> a in t.assignments && id in t.assignments[a]
    ensures WaitingAreStopped(t, CancelUnstarted(t, a), a)
  {
  }

  // ---------------------------------------------------------------- revocation

  /** What the owner's revocation makes of a task. */
  function Halted(task: Task): Task {
    if task.status == Running || task.attemptRunning || task.callInFlight then Task(NeedsAttention, false, false)
    else if Waits(task) then task.(status := Stopped)
    else task
  }

  /** A revocation goes through exactly for an authority revoked before, which changes nothing, or open and in
      time, if the owner has seen its whole log. Tasks in flight then need attention, what waits is cancelled,
      pending approvals are cancelled and the scheduler is off. */
  lemma RevocationOnRows(chain: Chain, c: AuthorityId, t: Tables, a: AuthorityId, seen: nat)
    requires Inv(chain, t) && a < |chain|
    ensures var r := Revoke(chain, c, t, a, seen);
      && (r.Ok? <==> Registered(t, a) && seen == |t.log[a]| && (Latest(t, a) == Revoked || OpenInTime(chain, t, a)))
      && (r.Ok? && Latest(t, a) == Revoked ==> r.tables == t)
      && (r.Ok? && Latest(t, a) != Revoked ==>
            && OneMoreEvent(t, r.tables, a, Event(Revoked, NoApproval))
            && r.tables.tasks.Keys == t.tasks.Keys
            && (forall id :: id in t.tasks ==>
                  r.tables.tasks[id] == if id.0 == a then Halted(t.tasks[id]) else t.tasks[id])
            && PendingBecome(t, r.tables, a, Cancelled)
            && !r.tables.scheduler && RestIsKept(t, r.tables))
  {
    assert AuthorityOk(chain, t, a);
    if Registered(t, a) && Latest(t, a) != Revoked && Revoke(chain, c, t, a, seen).Ok? {
      HaltedRows(Append(chain, c, t, a, Event(Revoked, NoApproval)).tables, a);
    }
  }

  lemma HaltedRows(t: Tables, a: AuthorityId)
    requires forall id :: (a, id) in t.tasks ==> a in t.assignments && id in t.assignments[a]
    ensures var u := CancelUnstarted(StopInFlight(t, a), a);
      && u.tasks.Keys == t.tasks.Keys
      && forall id :: id in t.tasks ==> u.tasks[id] == if id.0 == a then Halted(t.tasks[id]) else t.tasks[id]
  {
  }

  // ---------------------------------------------------------------- start-up

  /** The pending approval of a step is there, or can be asked for. */
  predicate CanAsk(t: Tables, key: Key) {
    key in t.approvals ==> t.approvals[key].status == Pending
  }

  function Asked(t: Tables, key: Key): map<Key, Approval> {
    if key in t.approvals then t.approvals else t.approvals[key := Approval(Pending, false)]
  }

  /** Start-up of an authority that is not the candidate, or whose turn has not come, only switches the
      scheduler off. */
  lemma StartUpElsewhere(chain: Chain, c: AuthorityId, t: Tables, a: AuthorityId, local: set<TemplateId>)
    requires a < |chain| && (a != c || !ComesNext(t, a))
    ensures StartUp(chain, c, t, a, local) == Ok(t.(scheduler := false))
  {
  }

  /** An authority whose turn has come is proposed, with a pending approval, exactly before its deadline. */
  lemma StartUpProposesIffInTime(chain: Chain, c: AuthorityId, t: Tables, a: AuthorityId, local: set<TemplateId>)
    requires Inv(chain, t) && a < |chain| && a == c && ComesNext(t, a) && a !in t.log
    ensures StartUp(chain, c, t, a, local) ==
              if t.now >= chain[a].expiresAt then Threw
              else Ok(t.(log := t.log[a := [Event(Proposed, NoApproval)]],
                         approvals := t.approvals[Key(a, Accepted) := Approval(Pending, false)],
                         scheduler := false))
  {
    assert AuthorityOk(chain, t, a) && ApprovalOk(t, a, Accepted);
    NobodyCompetes(chain, t, a);
    var blank := t.(log := t.log[a := []]);
    assert blank.log[a] == [] && [] + [Event(Proposed, NoApproval)] == [Event(Proposed, NoApproval)];
    assert blank.log[a := [Event(Proposed, NoApproval)]] == t.log[a := [Event(Proposed, NoApproval)]];
  }

  /** While the turn of `a` has come and it is not registered, no other authority is open. */
  lemma NobodyCompetes(chain: Chain, t: Tables, a: AuthorityId)
    requires Inv(chain, t) && a < |chain| && ComesNext(t, a) && a !in t.log
    ensures !Competing(chain, t, a)
  {
    forall b: nat | b in t.log && b != a && b < |chain| && Registered(t, b)
      ensures IsTerminal(Effective(chain, t, b))
    {
      if a < b {
        EarlierAuthoritiesAreFinished(chain, t, a, b);
      } else if b < a - 1 {
        EarlierAuthoritiesAreFinished(chain, t, b, a - 1);
      }
    }
  }

  /** A registered authority in time, not yet activated: its next approval is there or asked for. */
  lemma StartUpAsks(chain: Chain, c: AuthorityId, t: Tables, a: AuthorityId, local: set<TemplateId>)
    requires Inv(chain, t) && a < |chain| && a == c && ComesNext(t, a) && OpenInTime(chain, t, a)
    requires Latest(t, a) != Activated
    ensures var key := Key(a, if Latest(t, a) == Proposed then Accepted else Activated);
      StartUp(chain, c, t, a, local) ==
        if CanAsk(t, key) then Ok(t.(approvals := Asked(t, key), scheduler := false)) else Threw
  {
  }

  /** An activated authority in time, or one that has ended: only the scheduler changes, on exactly if work can
      start. A set of templates that is empty makes the start-up throw. */
  lemma StartUpResumes(chain: Chain, c: AuthorityId, t: Tables, a: AuthorityId, local: set<TemplateId>)
    requires Inv(chain, t) && a < |chain| && a == c && ComesNext(t, a) && a in t.log && !Overdue(chain, t, a)
    requires OpenInTime(chain, t, a) ==> Latest(t, a) == Activated
    ensures var r := StartUp(chain, c, t, a, local);
      && (r.Threw? <==> OpenInTime(chain, t, a) && chain[a].templates == [])
      && (r.Ok? ==> r.tables == t.(scheduler := r.tables.scheduler)
                    && (r.tables.scheduler <==> CanStart(chain, c, t, a, local)))
  {
    assert AuthorityOk(chain, t, a);
    ActivatedLogShape(t.log[a], a);
    WhatCanStart(chain, c, t, a, local);
  }

  /** An overdue authority: start-up seals it, by the rule for sealing. */
  lemma StartUpSeals(chain: Chain, c: AuthorityId, t: Tables, a: AuthorityId, local: set<TemplateId>)
    requires a < |chain| && a == c && ComesNext(t, a) && Overdue(chain, t, a)
    ensures StartUp(chain, c, t, a, local) == SealExpired(chain, c, t, a)
  {
  }

  lemma WhatCanStart(chain: Chain, c: AuthorityId, t: Tables, a: AuthorityId, local: set<TemplateId>)
    requires a < |chain|
    ensures RunnerReady(chain, c, t, a, local) <==> CanStart(chain, c, t, a, local)
  {
    if CanStart(chain, c, t, a, local) {
      var id :| id in local && id in t.assignments[a] && (a, id) in t.tasks
                && t.tasks[(a, id)].status in {Blocked, Queued};
      assert id in Assigned(t, a) && IsOpen(t, a, id);
    }
    if RunnerReady(chain, c, t, a, local) {
      var id :| id in local && id in Assigned(t, a) && IsOpen(t, a, id);
      assert (a, id) in t.tasks && t.tasks[(a, id)].status in {Blocked, Queued};
    }
  }

  // ---------------------------------------------------------------- owner decisions

  /** A decision that may be looked at: the candidate's turn, an approval of its own, and the owner's session and
      scope hash in order. */
  predicate IsOwnDecision(c: AuthorityId, t: Tables, a: AuthorityId, key: Key, exact: bool) {
    a == c && ComesNext(t, a) && key in t.approvals && key.authority == a && exact
  }

  /** Without these a decision throws. */
  lemma DecisionMustBeOwn(chain: Chain, c: AuthorityId, t: Tables, a: AuthorityId, key: Key, approve: bool, exact: bool,
                          local: set<TemplateId>)
    requires a < |chain| && !IsOwnDecision(c, t, a, key, exact)
    ensures Decide(chain, c, t, a, key, approve, exact, local) == Threw
  {
  }

  predicate IsPending(t: Tables, key: Key) {
    key in t.approvals && t.approvals[key].status == Pending
  }

  /** What is known of a pending approval: its step comes next, and nothing is assigned yet. */
  lemma PendingFacts(chain: Chain, t: Tables, key: Key)
    requires Inv(chain, t) && IsPending(t, key)
    ensures var a := key.authority;
      && key.kind in {Accepted, Activated} && a < |chain| && Registered(t, a) && Latest(t, a) == PriorOf(key.kind)
      && a !in t.assignments && (forall id :: (a, id) !in t.tasks)
      && forall i :: 0 <= i < |t.log[a]| ==> t.log[a][i].approval != By(key)
  {
    var a := key.authority;
    assert AuthorityOk(chain, t, a) && ApprovalOk(t, a, key.kind);
    NextApprovalIsUnused(t.log[a], a, key.kind);
  }

  /** Approving the acceptance goes through exactly in time, with the approval unused and the next one not
      recorded yet or pending: the event is logged, the approval used up, and the next one waits. */
  lemma AcceptanceOnRows(chain: Chain, c: AuthorityId, t: Tables, a: AuthorityId, local: set<TemplateId>)
    requires Inv(chain, t) && a < |chain| && IsPending(t, Key(a, Accepted))
    requires IsOwnDecision(c, t, a, Key(a, Accepted), true)
    ensures var key, next := Key(a, Accepted), Key(a, Activated); var event := Event(Accepted, By(key));
      Decide(chain, c, t, a, key, true, true, local) ==
        if t.now < chain[a].expiresAt && !t.approvals[key].consumed && CanAsk(t, next)
        then Ok(t.(log := Logged(t, a, event),
                   approvals := Asked(t, next)[key := Approval(Approved, true)],
                   scheduler := false))
        else Threw
  {
    var key, next := Key(a, Accepted), Key(a, Activated);
    PendingFacts(chain, t, key);
    var r := Decide(chain, c, t, a, key, true, true, local);
    if r.Ok? {
      assert r.tables.approvals == Asked(t, next)[key := Approval(Approved, true)];
    }
  }

  /** Rejecting a pending approval goes through exactly in time, with the approval unused: it is rejected, the
      authority revoked and the scheduler off. */
  lemma RejectionOnRows(chain: Chain, c: AuthorityId, t: Tables, a: AuthorityId, key: Key, local: set<TemplateId>)
    requires Inv(chain, t) && a < |chain| && IsPending(t, key) && IsOwnDecision(c, t, a, key, true)
    ensures Decide(chain, c, t, a, key, false, true, local) ==
              if t.now < chain[a].expiresAt && !t.approvals[key].consumed
              then Ok(t.(log := Logged(t, a, Event(Revoked, NoApproval)),
                         approvals := t.approvals[key := Approval(Rejected, false)],
                         scheduler := false))
              else Threw
  {
    PendingFacts(chain, t, key);
  }

  /** The rows of a freshly assigned round. */
  ghost predicate AssignedAfresh(chain: Chain, t: Tables, u: Tables, a: AuthorityId)
    requires a < |chain|
  {
    && u.assignments == t.assignments[a := chain[a].templates]
    && (forall id: (AuthorityId, TemplateId) ::
          id in u.tasks <==> id in t.tasks || (id.0 == a && id.1 in chain[a].templates))
    && (forall id :: id in t.tasks ==> u.tasks[id] == t.tasks[id])
    && forall id :: id in chain[a].templates && (a, id) !in t.tasks ==> u.tasks[(a, id)] == Task(Blocked, false, false)
  }

  /** Approving the activation goes through exactly in time, with the approval unused, no unknown outcome and no
      custody, and templates that are there and distinct: the event is logged, the approval used up, and every
      template is assigned with a blocked task; the scheduler is on exactly if this machine can run one. */
  lemma ActivationOnRows(chain: Chain, c: AuthorityId, t: Tables, a: AuthorityId, local: set<TemplateId>)
    requires Inv(chain, t) && a < |chain| && IsPending(t, Key(a, Activated))
    requires IsOwnDecision(c, t, a, Key(a, Activated), true)
    ensures var key := Key(a, Activated); var r := Decide(chain, c, t, a, key, true, true, local);
      && (r.Ok? <==> t.now < chain[a].expiresAt && !t.approvals[key].consumed && a !in t.frozen && a !in t.held
                     && chain[a].templates != [] && DistinctTemplates(chain[a].templates))
      && (r.Ok? ==>
            && OneMoreEvent(t, r.tables, a, Event(Activated, By(key)))
            && r.tables.approvals == t.approvals[key := Approval(Approved, true)]
            && AssignedAfresh(chain, t, r.tables, a)
            && (r.tables.scheduler <==> exists id :: id in local && id in chain[a].templates)
            && r.tables.now == t.now && r.tables.frozen == t.frozen && r.tables.held == t.held)
  {
    var key := Key(a, Activated);
    PendingFacts(chain, t, key);
    ActivationIsLogged(chain, c, t, a);
    var resolved := Resolve(chain, c, t, key, true);
    if resolved.Ok? {
      MaterializedRows(chain, c, resolved.tables, a);
      var r := Materialize(chain, c, resolved.tables, a);
      if r.Ok? {
        WhatCanStart(chain, c, r.tables, a, local);
        FreshWorkCanStart(chain, c, r.tables, a, local);
      }
    }
  }

  lemma ActivationIsLogged(chain: Chain, c: AuthorityId, t: Tables, a: AuthorityId)
    requires a < |chain| && a == c && ComesNext(t, a) && Registered(t, a) && Latest(t, a) == Accepted
    requires IsPending(t, Key(a, Activated))
    ensures var key := Key(a, Activated);
      Resolve(chain, c, t, key, true) ==
        if t.now < chain[a].expiresAt && !t.approvals[key].consumed
        then Ok(t.(log := Logged(t, a, Event(Activated, By(key))),
                   approvals := t.approvals[key := Approval(Approved, true)]))
        else Threw
  {
    var key := Key(a, Activated);
    var r := Resolve(chain, c, t, key, true);
    if r.Ok? { assert r.tables.approvals == t.approvals[key := Approval(Approved, true)]; }
  }

  lemma FreshWorkCanStart(chain: Chain, c: AuthorityId, t: Tables, a: AuthorityId, local: set<TemplateId>)
    requires a < |chain| && a == c && Registered(t, a) && Latest(t, a) == Activated && t.now < chain[a].expiresAt
    requires a !in t.frozen && a !in t.held && a in t.assignments && t.assignments[a] == chain[a].templates
    requires forall id :: id in chain[a].templates ==> (a, id) in t.tasks && t.tasks[(a, id)].status == Blocked
    ensures CanStart(chain, c, t, a, local) <==> exists id :: id in local && id in chain[a].templates
  {
    if id :| id in local && id in chain[a].templates { assert t.tasks[(a, id)].status in {Blocked, Queued}; }
  }

  /** Materialisation from nothing: exactly for a dispatchable candidate with distinct templates. */
  lemma MaterializedRows(chain: Chain, c: AuthorityId, t: Tables, a: AuthorityId)
    requires a < |chain| && a !in t.assignments && forall id :: (a, id) !in t.tasks
    ensures var r := Materialize(chain, c, t, a);
      && (r.Ok? <==> a == c && DispatchAllowed(chain, t, a)
                     && chain[a].templates != [] && DistinctTemplates(chain[a].templates))
      && (r.Ok? ==> AssignedAfresh(chain, t, r.tables, a)
                    && r.tables == t.(assignments := r.tables.assignments, tasks := r.tables.tasks))
  {
    var ids := chain[a].templates;
    FilledFromNothing(ids);
    FilledHasNoRepeats(ids);
    if DistinctTemplates(ids) { DistinctAreAllFilled(ids); }
  }

  lemma {:induction false} FilledHasNoRepeats(ids: seq<TemplateId>)
    ensures DistinctTemplates(Filled([], ids)) && forall id :: id in Filled([], ids) ==> id in ids
  {
    if ids != [] { FilledHasNoRepeats(ids[..|ids| - 1]); }
  }

  /** A decision recorded before is replayed exactly if it was the same one, and an approval only if it was used:
      nothing changes but the scheduler, and the next approval, which a replayed acceptance asks for again and
      needs. */
  lemma ReplayOnRows(chain: Chain, c: AuthorityId, t: Tables, a: AuthorityId, key: Key, approve: bool,
                     local: set<TemplateId>)
    requires Inv(chain, t) && a < |chain| && IsOwnDecision(c, t, a, key, true) && !IsPending(t, key)
    ensures var recorded, next := t.approvals[key], Key(a, Activated);
      var r := Decide(chain, c, t, a, key, approve, true, local);
      && (r.Ok? <==>
            if approve then recorded == Approval(Approved, true)
                            && (key.kind == Accepted ==>
                                  OpenInTime(chain, t, a) && Latest(t, a) == Accepted && CanAsk(t, next))
            else recorded.status == Rejected)
      && (r.Ok? ==>
            && r.tables == t.(approvals := r.tables.approvals, scheduler := r.tables.scheduler)
            && r.tables.approvals == (if approve && key.kind == Accepted then Asked(t, next) else t.approvals)
            && (r.tables.scheduler <==> approve && key.kind == Activated && CanStart(chain, c, t, a, local)))
  {
    assert AuthorityOk(chain, t, a) && ApprovalOk(t, a, key.kind);
    WhatCanStart(chain, c, t, a, local);
  }

  // ---------------------------------------------------------------- custody and stale claims

  /** Assignment `k` was dispatched, what precedes it is done and nothing after it was touched. */
  ghost predicate StoppedAt(t: Tables, a: AuthorityId, k: nat) {
    && a in t.assignments && k < |t.assignments[a]|
    && forall j :: 0 <= j < |t.assignments[a]| ==>
         && (a, t.assignments[a][j]) in t.tasks
         && var task := t.tasks[(a, t.assignments[a][j])];
            if j < k then task.status == Done
            else if j == k then task.status in {Running, NeedsAttention}
            else task == Task(Blocked, false, false)
  }

  /** Custody goes through exactly if it did before, which changes nothing, or if assignment `k` is where the work
      stopped and an emergency stop is on record, or the authority was revoked, or its deadline is or gets
      recorded. Then an overdue activated authority is expired, assignment `k` needs attention, those after it
      are cancelled, and the authority is marked. */
  lemma CustodyOnRows(chain: Chain, c: AuthorityId, t: Tables, a: AuthorityId, k: nat, stopped: bool)
    requires Inv(chain, t) && a < |chain| && Registered(t, a)
    ensures var r := HoldCustody(chain, c, t, a, k, stopped);
      var expires := Overdue(chain, t, a) && Latest(t, a) == Activated;
      && (r.Ok? <==> a in t.held
                     || (StoppedAt(t, a, k) && (stopped || expires || Latest(t, a) in {Revoked, Expired})))
      && (a in t.held ==> r == Ok(t))
      && (r.Ok? && a !in t.held ==> CustodyRecorded(t, r.tables, a, k, expires))
  {
    assert AuthorityOk(chain, t, a);
    if a in t.held { return; }
    var expires := Overdue(chain, t, a) && Latest(t, a) == Activated;
    var t1 := if expires then t.(log := Logged(t, a, Event(Expired, NoApproval))) else t;
    CustodyAfterExpiry(chain, c, t, a, k, stopped, t1);
    LatestAfter(t, t1, a, expires);
    if StoppedAt(t, a, k) { CustodyRows(t, t1, a, k, expires); }
  }

  ghost predicate CustodyRecorded(t: Tables, u: Tables, a: AuthorityId, k: nat, expires: bool) {
    && u.log == (if expires then Logged(t, a, Event(Expired, NoApproval)) else t.log)
    && u.held == t.held + {a} && HeldRows(t, u, a, k)
    && u == t.(log := u.log, tasks := u.tasks, held := u.held)
  }

  lemma LatestAfter(t: Tables, t1: Tables, a: AuthorityId, expires: bool)
    requires Registered(t, a) && t1 == if expires then t.(log := Logged(t, a, Event(Expired, NoApproval))) else t
    ensures Registered(t1, a) && Latest(t1, a) == if expires then Expired else Latest(t, a)
    ensures forall k :: CustodyFits(t1, a, k) <==> StoppedAt(t, a, k)
  {
    forall k ensures CustodyFits(t1, a, k) <==> StoppedAt(t, a, k) { WhereWorkStopped(t1, a, k); }
  }

  lemma CustodyRows(t: Tables, t1: Tables, a: AuthorityId, k: nat, expires: bool)
    requires t1 == if expires then t.(log := Logged(t, a, Event(Expired, NoApproval))) else t
    requires StoppedAt(t, a, k)
    ensures CustodyRecorded(t, HoldTasks(t1, a).(held := t1.held + {a}), a, k, expires)
  {
    HeldAsTold(t1, a, k);
  }

  lemma CustodyAfterExpiry(chain: Chain, c: AuthorityId, t: Tables, a: AuthorityId, k: nat, stopped: bool, t1: Tables)
    requires AuthorityOk(chain, t, a) && a < |chain| && Registered(t, a) && a !in t.held
    requires t1 == if Overdue(chain, t, a) && Latest(t, a) == Activated
                   then t.(log := Logged(t, a, Event(Expired, NoApproval))) else t
    ensures Registered(t1, a)
    ensures HoldCustody(chain, c, t, a, k, stopped) ==
              if (stopped || Latest(t1, a) in {Revoked, Expired}) && CustodyFits(t1, a, k)
              then Ok(HoldTasks(t1, a).(held := t1.held + {a})) else Threw
  {
  }

  /** Assignment `k` needs attention, those after it are cancelled, every other task is as before. */
  ghost predicate HeldRows(t: Tables, u: Tables, a: AuthorityId, k: nat) {
    && a in t.assignments && u.tasks.Keys == t.tasks.Keys
    && (forall id :: id in t.tasks && (id.0 != a || !ComesFrom(t.assignments[a], k, id.1)) ==>
          u.tasks[id] == t.tasks[id])
    && forall j :: k <= j < |t.assignments[a]| ==>
         && (a, t.assignments[a][j]) in t.tasks
         && u.tasks[(a, t.assignments[a][j])] == Task(if j == k then NeedsAttention else Stopped, false, false)
  }

  /** `id` stands at position `k` or later. */
  ghost predicate ComesFrom(ids: seq<TemplateId>, k: nat, id: TemplateId) {
    exists j :: k <= j < |ids| && ids[j] == id
  }

  lemma WhereWorkStopped(t: Tables, a: AuthorityId, k: nat)
    ensures CustodyFits(t, a, k) <==> StoppedAt(t, a, k)
  {
  }

  lemma HeldAsTold(t: Tables, a: AuthorityId, k: nat)
    requires StoppedAt(t, a, k)
    ensures HeldRows(t, HoldTasks(t, a), a, k)
  {
    var ids, u := t.assignments[a], HoldTasks(t, a);
    forall id | id in t.tasks && (id.0 != a || !ComesFrom(ids, k, id.1)) ensures u.tasks[id] == t.tasks[id] {
      if id.0 == a && id.1 in ids {
        var j :| 0 <= j < |ids| && ids[j] == id.1;
      }
    }
  }

  /** A recovered claim is no longer running: its task can be started again if the provider was not reached, and
      waits for the owner otherwise. */
  lemma RecoveryOnRows(t: Tables, a: AuthorityId, id: TemplateId, reached: bool)
    requires (a, id) in t.tasks
    ensures var u := RecoverClaim(t, a, id, reached);
      && u == t.(tasks := u.tasks) && u.tasks.Keys == t.tasks.Keys
      && (forall other :: other in t.tasks && other != (a, id) ==> u.tasks[other] == t.tasks[other])
      && u.tasks[(a, id)].status != Running
      && (t.tasks[(a, id)].status != Running ==> u == t)
      && (t.tasks[(a, id)].status == Running ==>
            && !u.tasks[(a, id)].attemptRunning && (Waits(u.tasks[(a, id)]) <==> !reached)
            && u.tasks[(a, id)].status in {Queued, NeedsAttention})
  {
  }
}
