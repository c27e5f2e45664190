/** What a continuation of the bounded research does in every situation, read off the tables and the readings of
    the readiness adapter (src/server.js). */
module ResearchActions {
  import opened Options
  import opened ResearchContinuation
  import opened ResearchEffects
  import opened ResearchLifecycle
  import opened ResearchRuns

  // ---------------------------------------------------------------- situations

  predicate IsRecorded(t: Tables, a: AuthorityId, id: TemplateId) {
    a in t.assignments && id in t.assignments[a]
  }

  /** A described, retained response is there. */
  predicate IsRetained(x: Adapter) {
    x.descriptor.Some? && x.request.Some? && x.retained.Some?
  }

  predicate AwaitsCustody(t: Tables, a: AuthorityId, env: Environment, id: TemplateId) {
    var x := env.look(id);
    IsRecorded(t, a, id) && env.runtime.canRecoverCustody && x.canRecoverCustody && IsRetained(x)
  }

  predicate AwaitsReprocessing(t: Tables, a: AuthorityId, env: Environment, id: TemplateId) {
    var x := env.look(id);
    IsRecorded(t, a, id) && env.runtime.canReprocess && x.canReprocess && IsRetained(x)
  }

  ghost predicate NoneAwaitsCustody(templates: seq<TemplateId>, t: Tables, a: AuthorityId, env: Environment) {
    forall j :: 0 <= j < |templates| ==> !AwaitsCustody(t, a, env, templates[j])
  }

  ghost predicate NoneAwaitsReprocessing(templates: seq<TemplateId>, t: Tables, a: AuthorityId, env: Environment) {
    forall j :: 0 <= j < |templates| ==> !AwaitsReprocessing(t, a, env, templates[j])
  }

  /** Activated and before the deadline. */
  predicate IsActive(chain: Chain, t: Tables, a: AuthorityId)
    requires a < |chain|
  {
    OpenInTime(chain, t, a) && Latest(t, a) == Activated
  }

  /** The state in which templates are looked at. */
  ghost predicate RoundIsOpen(chain: Chain, c: AuthorityId, t: Tables, a: AuthorityId, env: Environment)
    requires a < |chain|
  {
    && a == c && IsActive(chain, t, a) && a !in t.frozen && a !in t.held && !env.finalizationReady
    && NoneAwaitsCustody(chain[a].templates, t, a, env) && NoneAwaitsReprocessing(chain[a].templates, t, a, env)
  }

  predicate IsDone(t: Tables, a: AuthorityId, id: TemplateId) {
    IsRecorded(t, a, id) && (a, id) in t.tasks && t.tasks[(a, id)].status in {Done, Skipped}
  }

  /** Recorded, with work left and none running, and this machine can run it, after preparation if need be. */
  predicate CanBegin(t: Tables, a: AuthorityId, env: Environment, id: TemplateId) {
    && IsRecorded(t, a, id) && (a, id) in t.tasks && t.tasks[(a, id)].status !in {Done, Skipped, Running}
    && (CallReady(env.runtime, env.look(id)) || Preparable(env.runtime, env.look(id)))
  }

  /** It can begin and, looked at again, is ready for the call and unchanged. */
  predicate IsCalled(t: Tables, a: AuthorityId, env: Environment, id: TemplateId) {
    && CanBegin(t, a, env, id) && CallReady(env.runtime, env.lookAgain(id))
    && env.lookAgain(id).descriptor == env.look(id).descriptor && env.lookAgain(id).request == env.look(id).request
  }

  function Off(t: Tables): Tables {
    t.(scheduler := false)
  }

  // ---------------------------------------------------------------- the first recorded assignment of a kind

  lemma {:induction false} FirstRecorded(templates: seq<TemplateId>, t: Tables, a: AuthorityId, p: TemplateId -> bool,
                                         k: nat)
    requires k < |templates| && IsRecorded(t, a, templates[k]) && p(templates[k])
    requires forall j :: 0 <= j < k ==> !(IsRecorded(t, a, templates[j]) && p(templates[j]))
    ensures var recorded := Recorded(templates, t, a); var at := FirstWith(recorded, p);
      at < |recorded| && recorded[at] == templates[k]
  {
    if k > 0 {
      assert forall j :: 0 <= j < k - 1 ==> templates[1..][j] == templates[j + 1];
      FirstRecorded(templates[1..], t, a, p, k - 1);
    }
  }

  lemma NoneIsRecorded(templates: seq<TemplateId>, t: Tables, a: AuthorityId, p: TemplateId -> bool)
    requires forall j :: 0 <= j < |templates| ==> !(IsRecorded(t, a, templates[j]) && p(templates[j]))
    ensures FirstWith(Recorded(templates, t, a), p) == |Recorded(templates, t, a)|
  {
    NoneRecorded(templates, t, a, p);
  }

  /** With nothing awaiting custody or reprocessing, the searches find nothing. */
  lemma NothingFound(templates: seq<TemplateId>, t: Tables, a: AuthorityId, env: Environment)
    ensures NoneAwaitsCustody(templates, t, a, env) ==>
              FirstWith(Recorded(templates, t, a), MayRecoverCustody(env)) == |Recorded(templates, t, a)|
    ensures NoneAwaitsReprocessing(templates, t, a, env) ==>
              FirstWith(Recorded(templates, t, a), MayReprocess(env)) == |Recorded(templates, t, a)|
  {
    if NoneAwaitsCustody(templates, t, a, env) {
      forall j | 0 <= j < |templates|
        ensures !(IsRecorded(t, a, templates[j]) && MayRecoverCustody(env)(templates[j]))
      {
        assert !AwaitsCustody(t, a, env, templates[j]);
      }
      NoneIsRecorded(templates, t, a, MayRecoverCustody(env));
    }
    if NoneAwaitsReprocessing(templates, t, a, env) {
      forall j | 0 <= j < |templates| ensures !(IsRecorded(t, a, templates[j]) && MayReprocess(env)(templates[j])) {
        assert !AwaitsReprocessing(t, a, env, templates[j]);
      }
      NoneIsRecorded(templates, t, a, MayReprocess(env));
    }
  }

  // ---------------------------------------------------------------- before the templates

  /** An authority not registered: nothing happens. */
  lemma UnregisteredIsIdle(chain: Chain, c: AuthorityId, t: Tables, a: AuthorityId, env: Environment)
    requires a < |chain| && !Registered(t, a)
    ensures Continue(chain, c, t, a, env) == Reply(t, [], IsIdle)
  {
  }

  /** Custody comes before everything else: of the first template, in their order, that awaits it. */
  lemma CustodyComesFirst(chain: Chain, c: AuthorityId, t: Tables, a: AuthorityId, env: Environment, k: nat)
    requires a < |chain| && Registered(t, a) && k < |chain[a].templates|
    requires AwaitsCustody(t, a, env, chain[a].templates[k])
    requires forall j :: 0 <= j < k ==> !AwaitsCustody(t, a, env, chain[a].templates[j])
    ensures Continue(chain, c, t, a, env) ==
              Reply(if env.custodyRecorded then Off(t) else t, [RecoveredCustody(chain[a].templates[k])],
                    if env.custodyRecorded then HoldsCustody else HasFailed)
  {
    FirstRecorded(chain[a].templates, t, a, MayRecoverCustody(env), k);
  }

  /** Then the deadline: once it passed, or its expiry is recorded, it is sealed by the rule for sealing and the
      scheduler is off; the continuation is blocked exactly if nothing was sealed. */
  lemma DeadlineIsSealed(chain: Chain, c: AuthorityId, t: Tables, a: AuthorityId, env: Environment)
    requires Inv(chain, t) && a < |chain| && Registered(t, a) && (Overdue(chain, t, a) || Latest(t, a) == Expired)
    requires NoneAwaitsCustody(chain[a].templates, t, a, env)
    ensures var r := Continue(chain, c, t, a, env);
      && r.actions == [SealedDeadline] && r.tables == Off(SealExpired(chain, c, t, a).tables)
      && r.status == if Overdue(chain, t, a) && NothingUnderWay(t, a) then IsComplete else IsBlocked
  {
    DeadlineIsReached(chain, c, t, a, env);
    SealsIffNothingUnderWay(chain, c, t, a);
    var sealed := SealExpired(chain, c, t, a);
    if Overdue(chain, t, a) && NothingUnderWay(t, a) {
      assert sealed.tables.log[a] != t.log[a];
    }
  }

  lemma DeadlineIsReached(chain: Chain, c: AuthorityId, t: Tables, a: AuthorityId, env: Environment)
    requires a < |chain| && Registered(t, a) && (Overdue(chain, t, a) || Latest(t, a) == Expired)
    requires NoneAwaitsCustody(chain[a].templates, t, a, env)
    ensures Continue(chain, c, t, a, env) == SealDeadline(chain, c, t, a)
  {
    NothingFound(chain[a].templates, t, a, env);
    assert Effective(chain, t, a) == Expired;
  }

  /** Then, for an active candidate, the first template that awaits reprocessing. */
  lemma RetainedIsReprocessed(chain: Chain, c: AuthorityId, t: Tables, a: AuthorityId, env: Environment, k: nat)
    requires a < |chain| && a == c && IsActive(chain, t, a) && NoneAwaitsCustody(chain[a].templates, t, a, env)
    requires k < |chain[a].templates| && AwaitsReprocessing(t, a, env, chain[a].templates[k])
    requires forall j :: 0 <= j < k ==> !AwaitsReprocessing(t, a, env, chain[a].templates[j])
    ensures Continue(chain, c, t, a, env) ==
              Reply(if env.stillOpen then t else Off(t), [Reprocessed(chain[a].templates[k])], IsComplete)
  {
    EarlyReprocesses(chain, c, t, a, env, k);
  }

  lemma EarlyReprocesses(chain: Chain, c: AuthorityId, t: Tables, a: AuthorityId, env: Environment, k: nat)
    requires a < |chain| && a == c && IsActive(chain, t, a) && NoneAwaitsCustody(chain[a].templates, t, a, env)
    requires k < |chain[a].templates| && AwaitsReprocessing(t, a, env, chain[a].templates[k])
    requires forall j :: 0 <= j < k ==> !AwaitsReprocessing(t, a, env, chain[a].templates[j])
    ensures Early(chain, c, t, a, env) == Some(Reprocess(t, env, chain[a].templates[k]))
  {
    NothingFound(chain[a].templates, t, a, env);
    FirstRecorded(chain[a].templates, t, a, MayReprocess(env), k);
  }

  /** An authority that is not the candidate, past these: only the scheduler goes off. */
  lemma HistoricalIsIdle(chain: Chain, c: AuthorityId, t: Tables, a: AuthorityId, env: Environment)
    requires a < |chain| && a != c && Registered(t, a) && !Overdue(chain, t, a) && Latest(t, a) != Expired
    requires NoneAwaitsCustody(chain[a].templates, t, a, env)
    ensures Continue(chain, c, t, a, env) == Reply(Off(t), [], IsIdle)
  {
    NothingFound(chain[a].templates, t, a, env);
  }

  /** A decision that is ready is sealed before any dispatch, even of a frozen or held authority. */
  lemma ReadyDecisionIsFinalized(chain: Chain, c: AuthorityId, t: Tables, a: AuthorityId, env: Environment)
    requires a < |chain| && a == c && IsActive(chain, t, a) && env.finalizationReady
    requires NoneAwaitsCustody(chain[a].templates, t, a, env) && NoneAwaitsReprocessing(chain[a].templates, t, a, env)
    ensures Continue(chain, c, t, a, env) == Reply(Off(t), [Action.Finalized], IsComplete)
  {
    NothingFound(chain[a].templates, t, a, env);
  }

  /** A candidate that is not active, or is frozen or held: nothing happens but the scheduler going off. */
  lemma ClosedRoundWaits(chain: Chain, c: AuthorityId, t: Tables, a: AuthorityId, env: Environment)
    requires a < |chain| && a == c && Registered(t, a) && !Overdue(chain, t, a) && Latest(t, a) != Expired
    requires NoneAwaitsCustody(chain[a].templates, t, a, env)
    requires IsActive(chain, t, a) ==>
      && (a in t.frozen || a in t.held) && !env.finalizationReady
      && NoneAwaitsReprocessing(chain[a].templates, t, a, env)
    ensures Continue(chain, c, t, a, env) == Reply(Off(t), [], if a in t.frozen then NeedsReview else IsIdle)
  {
    NothingFound(chain[a].templates, t, a, env);
  }

  // ---------------------------------------------------------------- the templates

  lemma OpenRoundReachesLoop(chain: Chain, c: AuthorityId, t: Tables, a: AuthorityId, env: Environment)
    requires a < |chain| && RoundIsOpen(chain, c, t, a, env)
    ensures Continue(chain, c, t, a, env) == NextTemplate(t, a, env, chain[a].templates)
  {
    NothingFound(chain[a].templates, t, a, env);
  }

  lemma FirstNotDone(t: Tables, a: AuthorityId, templates: seq<TemplateId>, k: nat)
    requires k <= |templates| && forall j :: 0 <= j < k ==> IsDone(t, a, templates[j])
    requires k < |templates| ==> !IsDone(t, a, templates[k])
    ensures FirstWith(templates, Unfinished(t, a)) == k
  {
    assert forall j :: 0 <= j < k ==> IsDone(t, a, templates[j]) ==> Finished(t, a, templates[j]);
    if k < |templates| { FirstUnfinished(t, a, templates, k); }
  }

  /** An open round turns to the first template that is not done. It is prepared exactly if it can begin and is
      not ready for the call, and called, with the hashes read first, exactly if it then is ready and unchanged;
      after a call the decision is sealed if it is ready and the round still open. */
  lemma FirstOpenTemplateDecides(chain: Chain, c: AuthorityId, t: Tables, a: AuthorityId, env: Environment, k: nat)
    requires a < |chain| && RoundIsOpen(chain, c, t, a, env) && k < |chain[a].templates|
    requires !IsDone(t, a, chain[a].templates[k]) && forall j :: 0 <= j < k ==> IsDone(t, a, chain[a].templates[j])
    ensures var r := Continue(chain, c, t, a, env); var id := chain[a].templates[k]; var x := env.look(id);
      var called := IsCalled(t, a, env, id);
      && r.actions == (if CanBegin(t, a, env, id) && !CallReady(env.runtime, x)
                       then [Prepared(id, x.descriptor, x.request)] else [])
                      + (if called then [Ran(id, x.descriptor, x.request)] else [])
                      + (if called && env.stillOpen && env.closingReady then [Action.Finalized] else [])
      && r.tables == (if called && (!env.stillOpen || env.closingReady) then Off(t) else t)
      && r.status == if !IsRecorded(t, a, id) || (a, id) !in t.tasks then NeedsReview
                     else if t.tasks[(a, id)].status == Running then IsWorking
                     else if called then IsComplete else IsBlocked
  {
    var id := chain[a].templates[k];
    OpenRoundReachesLoop(chain, c, t, a, env);
    FirstNotDone(t, a, chain[a].templates, k);
    assert !AwaitsReprocessing(t, a, env, id);
    DispatchAsTold(t, a, env, id);
  }

  lemma DispatchAsTold(t: Tables, a: AuthorityId, env: Environment, id: TemplateId)
    requires !IsDone(t, a, id) && !AwaitsReprocessing(t, a, env, id)
    ensures var r := Dispatch(t, a, env, id); var x := env.look(id); var called := IsCalled(t, a, env, id);
      && r.actions == (if CanBegin(t, a, env, id) && !CallReady(env.runtime, x)
                       then [Prepared(id, x.descriptor, x.request)] else [])
                      + (if called then [Ran(id, x.descriptor, x.request)] else [])
                      + (if called && env.stillOpen && env.closingReady then [Action.Finalized] else [])
      && r.tables == (if called && (!env.stillOpen || env.closingReady) then Off(t) else t)
      && r.status == if !IsRecorded(t, a, id) || (a, id) !in t.tasks then NeedsReview
                     else if t.tasks[(a, id)].status == Running then IsWorking
                     else if called then IsComplete else IsBlocked
  {
    ReadinessFacts(env.runtime, env.look(id));
    ReadinessFacts(env.runtime, env.lookAgain(id));
  }

  /** A template that awaits reprocessing when its turn comes is recovered locally, and nothing is run. */
  lemma RetainedIsNotRunAgain(t: Tables, a: AuthorityId, env: Environment, id: TemplateId)
    requires (a, id) in t.tasks && t.tasks[(a, id)].status != Running && AwaitsReprocessing(t, a, env, id)
    ensures Dispatch(t, a, env, id) == Reply(if env.stillOpen then t else Off(t), [Reprocessed(id)], IsComplete)
  {
  }

  /** With every template done the decision is sealed if it is ready. */
  lemma DoneRoundCloses(chain: Chain, c: AuthorityId, t: Tables, a: AuthorityId, env: Environment)
    requires a < |chain| && RoundIsOpen(chain, c, t, a, env)
    requires forall j :: 0 <= j < |chain[a].templates| ==> IsDone(t, a, chain[a].templates[j])
    ensures Continue(chain, c, t, a, env) ==
              if env.closingReady then Reply(Off(t), [Action.Finalized], IsComplete) else Reply(t, [], IsIdle)
  {
    OpenRoundReachesLoop(chain, c, t, a, env);
    FirstNotDone(t, a, chain[a].templates, |chain[a].templates|);
  }

  /** On a machine ready to prepare but not to call, the opening round prepares before it runs. */
  lemma OpeningRoundPrepares(chain: Chain, t: Tables, x: Adapter, ready: Adapter, runtime: Runtime)
    requires Started(chain, t) && chain[0].templates != []
    requires Preparable(runtime, x) && !CallReady(runtime, x) && CallReady(runtime, ready)
    requires !x.canReprocess && !x.canRecoverCustody && ready.descriptor == x.descriptor && ready.request == x.request
    ensures var env := Environment(runtime, _ => x, _ => ready, false, false, false, true);
      var id := chain[0].templates[0];
      Continue(chain, 0, t, 0, env).actions ==
        [Prepared(id, x.descriptor, x.request), Ran(id, x.descriptor, x.request)]
  {
    var env := Environment(runtime, _ => x, _ => ready, false, false, false, true);
    var id := chain[0].templates[0];
    assert id in chain[0].templates && t.tasks[(0, id)] == Task(Blocked, false, false);
    assert IsActive(chain, t, 0);
    FirstOpenTemplateDecides(chain, 0, t, 0, env, 0);
  }
}
