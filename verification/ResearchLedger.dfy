/** The lifecycle transactions as the server runs them: table by table, each undone as a whole when it
    throws. Every method is tied to the corresponding function of `ResearchLifecycle`. */
module ResearchLedger {
  import opened ResearchLifecycle

  lemma OneMorePlanned(a: AuthorityId, templates: seq<TemplateId>, i: nat, tasks: map<(AuthorityId, TemplateId), Task>)
    requires i < |templates|
    ensures var before := PlannedTasks(a, templates[..i]) + tasks; var id := (a, templates[i]);
      PlannedTasks(a, templates[..i + 1]) + tasks ==
        if id in before then before else before[id := Task(Blocked, false, false)]
  {
    assert templates[..i + 1] == templates[..i] + [templates[i]];
  }

  /** Nothing of the authority's assigned work is left to start, and no approval of it is pending. */
  ghost predicate WorkClosed(t: Tables, a: AuthorityId) {
    && (forall key :: key in t.approvals && key.authority == a ==> t.approvals[key].status != Pending)
    && forall id :: id in Assigned(t, a) && (a, id) in t.tasks ==> !Unstarted(t.tasks[(a, id)].status)
  }

  ghost predicate NothingInFlight(t: Tables, a: AuthorityId) {
    forall id :: id in Assigned(t, a) && (a, id) in t.tasks ==> !Active(t.tasks[(a, id)])
  }

  /** Everything from assignment `k` on is what custody holds. */
  lemma RestIsHeld(t: Tables, a: AuthorityId, k: nat, tasks: map<(AuthorityId, TemplateId), Task>)
    requires CustodyFits(t, a, k) && tasks.Keys == t.tasks.Keys
    requires forall id :: id in tasks ==>
               tasks[id] == if id.0 == a && id.1 in Assigned(t, a)[k..] then Held(t.tasks[id]) else t.tasks[id]
    ensures tasks == HoldTasks(t, a).tasks
  {
    var ids := Assigned(t, a);
    forall id | id in tasks ensures tasks[id] == HoldTasks(t, a).tasks[id] {
      if id.0 == a && id.1 in ids {
        var j :| 0 <= j < |ids| && ids[j] == id.1;
        if j >= k { assert ids[k..][j - k] == id.1; }
      }
    }
  }

  class Ledger {
    var now: nat
    var log: map<AuthorityId, seq<Event>>
    var approvals: map<Key, Approval>
    var assignments: map<AuthorityId, seq<TemplateId>>
    var tasks: map<(AuthorityId, TemplateId), Task>
    var frozen: set<AuthorityId>
    var held: set<AuthorityId>
    var scheduler: bool

    constructor ()
      ensures View() == Tables(0, map[], map[], map[], map[], {}, {}, false)
    {
      now, log, approvals, assignments := 0, map[], map[], map[];
      tasks, frozen, held, scheduler := map[], {}, {}, false;
    }

    function View(): Tables
      reads this
    {
      Tables(now, log, approvals, assignments, tasks, frozen, held, scheduler)
    }

    /** The rollback of a transaction. */
    method Restore(saved: Tables)
      modifies this
      ensures View() == saved
    {
      now, log, approvals, assignments := saved.now, saved.log, saved.approvals, saved.assignments;
      tasks, frozen, held, scheduler := saved.tasks, saved.frozen, saved.held, saved.scheduler;
    }

    /** The outcome of a method that may throw: on success the tables are `r`'s, and `r` threw otherwise. */
    twostate predicate Follows(ok: bool, r: Try)
      reads this
    {
      if r.Ok? then ok && View() == r.tables else !ok
    }

    /** `appendLifecycle`. */
    method AppendEvent(chain: Chain, candidate: AuthorityId, a: AuthorityId, e: Event) returns (ok: bool)
      requires a < |chain|
      modifies this
      ensures Follows(ok, Append(chain, candidate, old(View()), a, e))
      ensures if ok then a in old(log) && log == old(log)[a := old(log)[a] + [e]] else View() == old(View())
      ensures ok && e.kind in {Accepted, Activated} ==>
                By(Key(a, e.kind)) == e.approval && approvals[Key(a, e.kind)] == Approval(Approved, true)
    {
      if a !in log { return false; }
      var approved := e.kind in {Accepted, Activated};
      if approved && a != candidate { return false; }
      if e.kind in {Proposed, Accepted, Activated} && !PredecessorTerminal(View(), a) { return false; }
      if log[a] == [] && e.kind != Proposed { return false; }
      if log[a] != [] && !MayFollow(log[a][|log[a]| - 1].kind, e.kind) { return false; }
      if (e.kind == Expired) != (now >= chain[a].expiresAt) { return false; }
      if approved {
        var key := Key(a, e.kind);
        if e.approval != By(key) || key !in approvals || approvals[key].status != Approved || approvals[key].consumed {
          return false;
        }
        log := log[a := log[a] + [e]];
        approvals := approvals[key := approvals[key].(consumed := true)];
      } else {
        if e.approval != NoApproval { return false; }
        log := log[a := log[a] + [e]];
      }
      ok := true;
    }

    /** `createPreventureLifecycleApproval`. */
    method CreateApproval(chain: Chain, key: Key) returns (ok: bool)
      requires key.authority < |chain| && key.kind in {Accepted, Activated}
      modifies this
      ensures Follows(ok, RequestApproval(chain, old(View()), key))
    {
      if !Registered(View(), key.authority) { return false; }
      if Effective(chain, View(), key.authority) != PriorOf(key.kind) { return false; }
      if key in approvals {
        ok := approvals[key].status == Pending;
      } else {
        approvals := approvals[key := Approval(Pending, false)];
        ok := true;
      }
    }

    /** `materializePreventureResearchWorkRows`: each planned task that is missing is created, blocked. */
    method CreateTasks(a: AuthorityId, templates: seq<TemplateId>)
      modifies `tasks
      ensures tasks == PlannedTasks(a, templates) + old(tasks)
    {
      for i := 0 to |templates|
        invariant tasks == PlannedTasks(a, templates[..i]) + old(tasks)
      {
        if (a, templates[i]) !in tasks {
          tasks := tasks[(a, templates[i]) := Task(Blocked, false, false)];
        }
        OneMorePlanned(a, templates, i, old(tasks));
      }
      assert templates[..|templates|] == templates;
    }

    /** Every planned assignment that is missing is created, one at a time. */
    method CreateMissing(a: AuthorityId, templates: seq<TemplateId>)
      requires templates != []
      modifies `assignments
      ensures assignments == old(assignments)[a := Filled(Assigned(old(View()), a), templates)]
    {
      ghost var existing := Assigned(View(), a);
      for i := 0 to |templates|
        invariant Assigned(View(), a) == Filled(existing, templates[..i])
        invariant assignments == old(assignments) || assignments == old(assignments)[a := Assigned(View(), a)]
        invariant i > 0 ==> a in assignments
      {
        assert templates[..i + 1][..i] == templates[..i];
        var stored := Assigned(View(), a);
        if templates[i] !in stored {
          assignments := assignments[a := stored + [templates[i]]];
        }
      }
      assert templates[..|templates|] == templates;
    }

    /** `materializePreventureResearchAssignments`. */
    method CreateAssignments(chain: Chain, candidate: AuthorityId, a: AuthorityId) returns (ok: bool)
      requires a < |chain|
      modifies this
      ensures Follows(ok, Materialize(chain, candidate, old(View()), a))
    {
      var templates := chain[a].templates;
      if a != candidate || !DispatchAllowed(chain, View(), a) || templates == [] { return false; }
      var existing := Assigned(View(), a);
      CreateTasks(a, templates);
      if exists id :: id in templates && tasks[(a, id)].status != Blocked { return false; }
      if exists id :: id in existing && id !in templates { return false; }
      CreateMissing(a, templates);
      ok := |assignments[a]| == |templates|;
    }

    /** What a revocation and an expiry share: unstarted tasks and pending approvals are closed. */
    method CloseWork(a: AuthorityId, closed: ApprovalStatus)
      requires closed != Pending
      modifies this
      ensures View() == Scheduler(ClosePending(CancelUnstarted(old(View()), a), a, closed), false)
      ensures WorkClosed(View(), a)
    {
      tasks := CancelUnstarted(View(), a).tasks;
      approvals := ClosePending(View(), a, closed).approvals;
      scheduler := false;
    }

    /** `sealExpiredPreventureResearchFromServer`. */
    method Seal(chain: Chain, candidate: AuthorityId, a: AuthorityId) returns (ok: bool)
      requires a < |chain|
      modifies this
      ensures Follows(ok, SealExpired(chain, candidate, old(View()), a))
      ensures ok && log != old(log) ==>
                Registered(View(), a) && Latest(View(), a) == Expired && WorkClosed(View(), a) && !scheduler
    {
      if !Registered(View(), a) { return true; }
      if Latest(View(), a) == Expired || Effective(chain, View(), a) != Expired { return true; }
      if AnyActive(View(), a) { return true; }
      ok := AppendEvent(chain, candidate, a, Event(Expired, NoApproval));
      if !ok { return; }
      CloseWork(a, Lapsed);
    }

    /** `registerPreventureResearchProposal` for an authority not yet recorded. */
    method Propose(chain: Chain, candidate: AuthorityId, a: AuthorityId) returns (ok: bool)
      requires a < |chain|
      modifies this
      ensures Follows(ok, Register(chain, candidate, old(View()), a))
    {
      if Competing(chain, View(), a) || now >= chain[a].expiresAt { return false; }
      log := log[a := []];
      ok := AppendEvent(chain, candidate, a, Event(Proposed, NoApproval));
    }

    /** The body of `ensurePreventureResearchFoundation`, before the rollback of a throw. */
    method FoundationBody(chain: Chain, candidate: AuthorityId, a: AuthorityId, local: set<TemplateId>)
      returns (ok: bool)
      requires a < |chain|
      modifies this
      ensures Follows(ok, StartUp(chain, candidate, old(View()), a, local))
    {
      if a != candidate || !PredecessorTerminal(View(), a) {
        scheduler := false;
        return true;
      }
      if !Registered(View(), a) {
        ok := Propose(chain, candidate, a);
        if !ok || !Registered(View(), a) { return false; }
      }
      var state := Effective(chain, View(), a);
      if state == Expired && Latest(View(), a) != Expired {
        ok := Seal(chain, candidate, a);
        return;
      }
      ok := true;
      if state == Proposed {
        ok := CreateApproval(chain, Key(a, Accepted));
      } else if state == Accepted {
        ok := CreateApproval(chain, Key(a, Activated));
      } else if state == Activated {
        if !HasAssignments(View(), a) {
          ok := CreateAssignments(chain, candidate, a);
        } else {
          ok := |assignments[a]| == |chain[a].templates|;
        }
      }
      if !ok { return; }
      scheduler := Effective(chain, View(), a) == Activated && RunnerReady(chain, candidate, View(), a, local);
    }

    method EnsureFoundation(chain: Chain, candidate: AuthorityId, a: AuthorityId, local: set<TemplateId>)
      returns (ok: bool)
      requires a < |chain|
      modifies this
      ensures var r := StartUp(chain, candidate, old(View()), a, local);
        ok == r.Ok? && View() == if r.Ok? then r.tables else old(View())
    {
      var saved := View();
      ok := FoundationBody(chain, candidate, a, local);
      if !ok { Restore(saved); }
    }

    /** The pending branch of `decidePreventureLifecycleApproval`. */
    method ResolveApproval(chain: Chain, candidate: AuthorityId, key: Key, approve: bool) returns (ok: bool)
      requires key.authority < |chain| && key in approvals && key.kind in {Accepted, Activated}
      modifies this
      ensures Follows(ok, Resolve(chain, candidate, old(View()), key, approve))
    {
      var a := key.authority;
      if approvals[key].consumed { return false; }
      if !Registered(View(), a) || Effective(chain, View(), a) != PriorOf(key.kind) { return false; }
      if approve {
        approvals := approvals[key := approvals[key].(status := Approved)];
        ok := AppendEvent(chain, candidate, a, Event(key.kind, By(key)));
      } else {
        approvals := approvals[key := approvals[key].(status := Rejected)];
        ok := AppendEvent(chain, candidate, a, Event(Revoked, NoApproval));
      }
    }

    /** The body of `decidePreventureLifecycleFromServer`. */
    method DecideBody(chain: Chain, candidate: AuthorityId, a: AuthorityId, key: Key,
                      approve: bool, exact: bool, local: set<TemplateId>) returns (ok: bool)
      requires a < |chain|
      modifies this
      ensures Follows(ok, Decide(chain, candidate, old(View()), a, key, approve, exact, local))
    {
      if a != candidate || !PredecessorTerminal(View(), a) { return false; }
      if key !in approvals || key.authority != a || key.kind !in {Accepted, Activated} || !exact { return false; }
      var pending := approvals[key].status == Pending;
      if pending {
        ok := ResolveApproval(chain, candidate, key, approve);
        if !ok { return; }
      } else {
        if approvals[key].status != (if approve then Approved else Rejected) { return false; }
        if approve && !approvals[key].consumed { return false; }
      }
      ok := true;
      if approve && key.kind == Accepted {
        ok := CreateApproval(chain, Key(a, Activated));
      } else if approve && pending {
        ok := CreateAssignments(chain, candidate, a);
      }
      if !ok { return; }
      scheduler := approve && key.kind == Activated && RunnerReady(chain, candidate, View(), a, local);
    }

    method DecideLifecycle(chain: Chain, candidate: AuthorityId, a: AuthorityId, key: Key,
                      approve: bool, exact: bool, local: set<TemplateId>) returns (ok: bool)
      requires a < |chain|
      modifies this
      ensures var r := Decide(chain, candidate, old(View()), a, key, approve, exact, local);
        ok == r.Ok? && View() == if r.Ok? then r.tables else old(View())
    {
      var saved := View();
      ok := DecideBody(chain, candidate, a, key, approve, exact, local);
      if !ok { Restore(saved); }
    }

    /** `revokePreventureResearchFromServer`; every check comes before the first change. */
    method RevokeResearch(chain: Chain, candidate: AuthorityId, a: AuthorityId, seen: nat) returns (ok: bool)
      requires a < |chain|
      modifies this
      ensures var r := Revoke(chain, candidate, old(View()), a, seen);
        ok == r.Ok? && View() == if r.Ok? then r.tables else old(View())
      ensures ok && log != old(log) ==>
                && seen == |old(log)[a]| && Registered(View(), a) && Latest(View(), a) == Revoked
                && WorkClosed(View(), a) && NothingInFlight(View(), a) && !scheduler
    {
      var saved := View();
      if !Registered(View(), a) || seen != |log[a]| { return false; }
      if Latest(View(), a) == Revoked { return true; }
      ok := AppendEvent(chain, candidate, a, Event(Revoked, NoApproval));
      if !ok {
        Restore(saved);
        return;
      }
      tasks := StopInFlight(View(), a).tasks;
      CloseWork(a, Cancelled);
    }

    /** The dispatched task and every untouched one after it, in order. */
    method HoldRest(a: AuthorityId, ids: seq<TemplateId>, k: nat)
      requires k <= |ids| && forall j :: k <= j < |ids| ==> (a, ids[j]) in tasks
      modifies `tasks
      ensures tasks.Keys == old(tasks).Keys
      ensures forall id :: id in tasks ==>
                tasks[id] == if id.0 == a && id.1 in ids[k..] then Held(old(tasks)[id]) else old(tasks)[id]
    {
      ghost var before := tasks;
      for j := k to |ids|
        invariant tasks.Keys == before.Keys
        invariant forall id :: id in tasks ==>
                    tasks[id] == if id.0 == a && id.1 in ids[k..j] then Held(before[id]) else before[id]
      {
        var id := (a, ids[j]);
        assert ids[k..j + 1] == ids[k..j] + [ids[j]];
        if ids[j] !in ids[k..j] {
          tasks := tasks[id := Held(tasks[id])];
        }
      }
    }

    /** What custody leaves of the round: nothing in flight, and the authority accounted for. */
    method HoldUntouched(a: AuthorityId, k: nat)
      requires CustodyFits(View(), a, k)
      modifies this
      ensures View() == HoldTasks(old(View()), a).(held := old(held) + {a})
    {
      ghost var fitting := View();
      HoldRest(a, assignments[a], k);
      RestIsHeld(fitting, a, k, tasks);
      held := held + {a};
    }

    /** `commitTerminalRetainedRecovery`; every check comes before the first change of a task. */
    method CommitCustody(chain: Chain, candidate: AuthorityId, a: AuthorityId, k: nat, stopped: bool) returns (ok: bool)
      requires a < |chain|
      modifies this
      ensures var r := HoldCustody(chain, candidate, old(View()), a, k, stopped);
        ok == r.Ok? && View() == if r.Ok? then r.tables else old(View())
    {
      var saved := View();
      if !Registered(View(), a) { return false; }
      if a in held { return true; }
      ok := true;
      if Latest(View(), a) == Activated && now >= chain[a].expiresAt {
        ok := AppendEvent(chain, candidate, a, Event(Expired, NoApproval));
      }
      if !ok || (!stopped && Latest(View(), a) !in {Revoked, Expired}) || !CustodyFits(View(), a, k) {
        Restore(saved);
        return false;
      }
      HoldUntouched(a, k);
    }
  }
}
