/** One scheduler continuation of the bounded research (src/server.js): which single thing it does
    next, and what a dispatch to the provider presupposes. The execution bridge is an environment
    that answers readiness questions before and after preparation. */
module ResearchContinuation {
  import opened Options
  import opened ResearchLifecycle

  /** Descriptor and request hashes: opaque, compared for equality only. */
  type Hash = nat

  /** The functions the runtime offers. */
  datatype Runtime = Runtime(canRun: bool, canPrepare: bool, canReprocess: bool, canRecoverCustody: bool)

  /** What the bridge's readiness adapter reports for one assignment. */
  datatype Adapter = Adapter(
    ready: bool, canPrepare: bool, credentialConfigured: bool, egressReady: bool, requestExact: bool,
    artifactStoreReady: bool, descriptor: Option<Hash>, request: Option<Hash>, retained: Option<Hash>,
    canReprocess: bool, canRecoverCustody: bool)

  datatype Readiness = Readiness(
    assignmentRunReady: bool, providerCallReady: bool, requiresPreparation: bool,
    canReprocess: bool, canRecoverCustody: bool, descriptor: Option<Hash>, request: Option<Hash>)

  /** `preventureExecutionReadiness`. */
  function ReadinessOf(runtime: Runtime, adapter: Adapter): Readiness {
    var described := adapter.descriptor.Some? && adapter.request.Some?;
    var preflight := adapter.credentialConfigured && adapter.egressReady && adapter.requestExact
                     && adapter.artifactStoreReady && described;
    var callReady := runtime.canRun && adapter.ready && preflight;
    var preparationReady := runtime.canPrepare && adapter.canPrepare && preflight;
    Readiness(
      runtime.canRun && (callReady || preparationReady),
      callReady,
      preparationReady && !callReady,
      runtime.canReprocess && adapter.canReprocess && described && adapter.retained.Some?,
      runtime.canRecoverCustody && adapter.canRecoverCustody && described && adapter.retained.Some?,
      if described then adapter.descriptor else None,
      if described then adapter.request else None)
  }

  /** Everything the continuation learns from outside the tables. */
  datatype Environment = Environment(
    runtime: Runtime,
    look: TemplateId -> Adapter,        // before any preparation
    lookAgain: TemplateId -> Adapter,   // after it
    custodyRecorded: bool,              // the custody recovery produced its record
    finalizationReady: bool,            // at the start
    closingReady: bool,                 // after the work of this continuation
    stillOpen: bool)                    // the authority is still activated and dispatchable afterwards

  datatype Action =
    | RecoveredCustody(id: TemplateId)
    | SealedDeadline
    | Reprocessed(id: TemplateId)
    | Finalized
    | Prepared(id: TemplateId, descriptor: Option<Hash>, request: Option<Hash>)
    | Ran(id: TemplateId, descriptor: Option<Hash>, request: Option<Hash>)

  datatype Status = IsIdle | HoldsCustody | HasFailed | IsComplete | IsBlocked | NeedsReview | IsWorking

  datatype Reply = Reply(tables: Tables, actions: seq<Action>, status: Status)

  // ---------------------------------------------------------------- the decision as a function

  /** The recorded assignments, in template order. */
  function Recorded(templates: seq<TemplateId>, t: Tables, a: AuthorityId): (r: seq<TemplateId>)
    ensures forall id :: id in r ==> id in templates
  {
    if templates == [] then []
    else
      var rest := Recorded(templates[1..], t, a);
      if a in t.assignments && templates[0] in t.assignments[a] then [templates[0]] + rest else rest
  }

  function FirstWith(ids: seq<TemplateId>, p: TemplateId -> bool): (k: nat)
    ensures k <= |ids|
    ensures k < |ids| ==> p(ids[k])
    ensures forall j :: 0 <= j < k ==> !p(ids[j])
  {
    if ids == [] || p(ids[0]) then 0 else 1 + FirstWith(ids[1..], p)
  }

  function MayRecoverCustody(env: Environment): TemplateId -> bool {
    (id: TemplateId) => ReadinessOf(env.runtime, env.look(id)).canRecoverCustody
  }

  function MayReprocess(env: Environment): TemplateId -> bool {
    (id: TemplateId) => ReadinessOf(env.runtime, env.look(id)).canReprocess
  }

  /** Its assignment is recorded and its task is completed or skipped. */
  predicate Finished(t: Tables, a: AuthorityId, id: TemplateId) {
    && a in t.assignments && id in t.assignments[a]
    && (a, id) in t.tasks && t.tasks[(a, id)].status in {Done, Skipped}
  }

  function Unfinished(t: Tables, a: AuthorityId): TemplateId -> bool {
    (id: TemplateId) => !Finished(t, a, id)
  }

  /** After a run: the scheduler stops unless the authority is still open; an open one may be finalized. */
  function AfterRun(t: Tables, env: Environment, actions: seq<Action>): Reply {
    if !env.stillOpen then Reply(Scheduler(t, false), actions, IsComplete)
    else if env.closingReady then Reply(Scheduler(t, false), actions + [Finalized], IsComplete)
    else Reply(t, actions, IsComplete)
  }

  /** The first template whose task is not finished decides. */
  function Dispatch(t: Tables, a: AuthorityId, env: Environment, id: TemplateId): Reply {
    if a !in t.assignments || id !in t.assignments[a] || (a, id) !in t.tasks then Reply(t, [], NeedsReview)
    else if t.tasks[(a, id)].status == Running then Reply(t, [], IsWorking)
    else
      var ready := ReadinessOf(env.runtime, env.look(id));
      if ready.canReprocess then Reprocess(t, env, id)
      else if !ready.assignmentRunReady then Reply(t, [], IsBlocked)
      else
        var before := if ready.requiresPreparation then [Prepared(id, ready.descriptor, ready.request)] else [];
        var prepared := ReadinessOf(env.runtime, env.lookAgain(id));
        if !prepared.providerCallReady || prepared.descriptor != ready.descriptor || prepared.request != ready.request
        then Reply(t, before, IsBlocked)
        else AfterRun(t, env, before + [Ran(id, prepared.descriptor, prepared.request)])
  }

  /** Local recovery of a retained result for one assignment. */
  function Reprocess(t: Tables, env: Environment, id: TemplateId): Reply {
    Reply(if env.stillOpen then t else Scheduler(t, false), [Reprocessed(id)], IsComplete)
  }

  /** `recoverPendingTerminalCustodyFromServer` at its first recoverable assignment. */
  function Custody(t: Tables, env: Environment, id: TemplateId): Reply {
    if env.custodyRecorded then Reply(Scheduler(t, false), [RecoveredCustody(id)], HoldsCustody)
    else Reply(t, [RecoveredCustody(id)], HasFailed)
  }

  /** The expiry branch. */
  function SealDeadline(chain: Chain, candidate: AuthorityId, t: Tables, a: AuthorityId): Reply
    requires a < |chain|
  {
    var sealed := SealExpired(chain, candidate, t, a);
    if sealed.Ok? then
      var status := if sealed.tables != t then IsComplete else IsBlocked;
      Reply(Scheduler(sealed.tables, false), [SealedDeadline], status)
    else Reply(t, [], HasFailed)
  }

  /** What can end a continuation before the templates are looked at. */
  function Early(chain: Chain, candidate: AuthorityId, t: Tables, a: AuthorityId, env: Environment): Option<Reply>
    requires a < |chain|
  {
    if !Registered(t, a) then Some(Reply(t, [], IsIdle))
    else
      var state := Effective(chain, t, a);
      var recorded := Recorded(chain[a].templates, t, a);
      var custody := FirstWith(recorded, MayRecoverCustody(env));
      if custody < |recorded| then Some(Custody(t, env, recorded[custody]))
      else if state == Expired then Some(SealDeadline(chain, candidate, t, a))
      else
        var again := FirstWith(recorded, MayReprocess(env));
        if a == candidate && state == Activated && again < |recorded| then Some(Reprocess(t, env, recorded[again]))
        else if a != candidate then Some(Reply(Scheduler(t, false), [], IsIdle))
        else if state == Activated && env.finalizationReady then
          Some(Reply(Scheduler(t, false), [Finalized], IsComplete))
        else if !DispatchAllowed(chain, t, a) then
          Some(Reply(Scheduler(t, false), [], if a in t.frozen then NeedsReview else IsIdle))
        else None
  }

  /** The template loop: the first unfinished template decides, and if there is none the round may close. */
  function NextTemplate(t: Tables, a: AuthorityId, env: Environment, templates: seq<TemplateId>): Reply {
    var next := FirstWith(templates, Unfinished(t, a));
    if next < |templates| then Dispatch(t, a, env, templates[next])
    else if env.closingReady then Reply(Scheduler(t, false), [Finalized], IsComplete)
    else Reply(t, [], IsIdle)
  }

  /** `continuePreventureResearchFromServer`. */
  function Continue(chain: Chain, candidate: AuthorityId, t: Tables, a: AuthorityId, env: Environment): Reply
    requires a < |chain|
  {
    var early := Early(chain, candidate, t, a, env);
    if early.Some? then early.value else NextTemplate(t, a, env, chain[a].templates)
  }

  // ---------------------------------------------------------------- the code, step by step

  /** `assignments.find`: the first assignment with the property. */
  method FindFirst(ids: seq<TemplateId>, p: TemplateId -> bool) returns (k: nat)
    ensures k <= |ids| && (k < |ids| ==> p(ids[k])) && (forall j :: 0 <= j < k ==> !p(ids[j]))
    ensures k == FirstWith(ids, p)
  {
    k := 0;
    while k < |ids| && !p(ids[k])
      invariant k <= FirstWith(ids, p)
    {
      k := k + 1;
    }
  }

  /** Everything before the template loop; `None` when the loop is reached. What ends here sends nothing. */
  method EndEarly(chain: Chain, candidate: AuthorityId, t: Tables, a: AuthorityId, env: Environment)
    returns (r: Option<Reply>)
    requires a < |chain|
    ensures r == Early(chain, candidate, t, a, env)
    ensures r.None? <==>
              && a == candidate && DispatchAllowed(chain, t, a) && !env.finalizationReady
              && NothingPending(chain[a].templates, t, a, env)
    ensures r.Some? ==> NoRun(r.value.actions)
  {
    LoopIsReached(chain, candidate, t, a, env);
    EarlyIsBrief(chain, candidate, t, a, env);
    if !Registered(t, a) { return Some(Reply(t, [], IsIdle)); }
    var state := Effective(chain, t, a);
    var recorded := Recorded(chain[a].templates, t, a);
    var custody := FindFirst(recorded, MayRecoverCustody(env));
    if custody < |recorded| { return Some(Custody(t, env, recorded[custody])); }
    if state == Expired { return Some(SealDeadline(chain, candidate, t, a)); }
    if a == candidate && state == Activated {
      var again := FindFirst(recorded, MayReprocess(env));
      if again < |recorded| { return Some(Reprocess(t, env, recorded[again])); }
    }
    if a != candidate { return Some(Reply(Scheduler(t, false), [], IsIdle)); }
    if state == Activated && env.finalizationReady { return Some(Reply(Scheduler(t, false), [Finalized], IsComplete)); }
    if state != Activated || a in t.frozen || a in t.held {
      return Some(Reply(Scheduler(t, false), [], if a in t.frozen then NeedsReview else IsIdle));
    }
    r := None;
  }

  /** One template of the loop whose task is neither finished nor missing: ask, prepare, ask again, run. It is
      sent, once and with the hashes read before preparation, exactly if it may be. */
  method Attempt(t: Tables, a: AuthorityId, env: Environment, id: TemplateId) returns (r: Reply)
    requires a in t.assignments && id in t.assignments[a] && (a, id) in t.tasks
    requires t.tasks[(a, id)].status !in {Done, Skipped, Running}
    ensures r == Dispatch(t, a, env, id)
    ensures Sent(r.actions) == if MaySend(t, a, env, id) then [RunOf(env, id)] else []
  {
    DispatchSends(t, a, env, id);
    var ready := ReadinessOf(env.runtime, env.look(id));
    if ready.canReprocess { return Reprocess(t, env, id); }
    if !ready.assignmentRunReady { return Reply(t, [], IsBlocked); }
    var actions: seq<Action> := [];
    if ready.requiresPreparation {
      actions := [Prepared(id, ready.descriptor, ready.request)];
    }
    var prepared := ReadinessOf(env.runtime, env.lookAgain(id));
    if !prepared.providerCallReady || prepared.descriptor != ready.descriptor || prepared.request != ready.request {
      return Reply(t, actions, IsBlocked);
    }
    actions := actions + [Ran(id, prepared.descriptor, prepared.request)];
    if !env.stillOpen { return Reply(Scheduler(t, false), actions, IsComplete); }
    if env.closingReady { return Reply(Scheduler(t, false), actions + [Finalized], IsComplete); }
    r := Reply(t, actions, IsComplete);
  }

  /** One continuation. It sends at most one assignment, the first unfinished template, if it may be sent, and
      has it prepared before exactly if it was not ready for the call. */
  method ContinueResearch(chain: Chain, candidate: AuthorityId, t: Tables, a: AuthorityId, env: Environment)
    returns (r: Reply)
    requires a < |chain|
    ensures r == Continue(chain, candidate, t, a, env)
    ensures |Sent(r.actions)| <= 1
    ensures Sent(r.actions) != [] <==>
              exists k :: 0 <= k < |chain[a].templates| && MayDispatch(chain, candidate, t, a, env, k)
    ensures forall k :: 0 <= k < |chain[a].templates| && MayDispatch(chain, candidate, t, a, env, k) ==>
              Sent(r.actions) == [RunOf(env, chain[a].templates[k])]
    ensures forall i :: 0 <= i < |r.actions| && r.actions[i].Ran? ==> PreparedAsNeeded(env, r.actions, i)
  {
    DispatchIsFirstUnfinished(chain, candidate, t, a, env);
    RunsArePreparedAsNeeded(chain, candidate, t, a, env);
    var early := EndEarly(chain, candidate, t, a, env);
    if early.Some? { return early.value; }
    r := TryTemplates(t, a, env, chain[a].templates);
  }

  method TryTemplates(t: Tables, a: AuthorityId, env: Environment, templates: seq<TemplateId>) returns (r: Reply)
    ensures r == NextTemplate(t, a, env, templates)
  {
    for i := 0 to |templates|
      invariant i <= FirstWith(templates, Unfinished(t, a))
    {
      var id := templates[i];
      if a !in t.assignments || id !in t.assignments[a] || (a, id) !in t.tasks { return Reply(t, [], NeedsReview); }
      if t.tasks[(a, id)].status in {Done, Skipped} { continue; }
      if t.tasks[(a, id)].status == Running { return Reply(t, [], IsWorking); }
      r := Attempt(t, a, env, id);
      return;
    }
    if env.closingReady { return Reply(Scheduler(t, false), [Finalized], IsComplete); }
    r := Reply(t, [], IsIdle);
  }

  // ---------------------------------------------------------------- preparation

  /** The machine can make the call as things stand. */
  predicate CallReady(runtime: Runtime, x: Adapter) {
    && runtime.canRun && x.ready && x.credentialConfigured && x.egressReady && x.requestExact && x.artifactStoreReady
    && x.descriptor.Some? && x.request.Some?
  }

  /** The machine can run the assignment once it was prepared. */
  predicate Preparable(runtime: Runtime, x: Adapter) {
    && runtime.canRun && runtime.canPrepare && x.canPrepare
    && x.credentialConfigured && x.egressReady && x.requestExact && x.artifactStoreReady
    && x.descriptor.Some? && x.request.Some?
  }

  lemma ReadinessFacts(runtime: Runtime, x: Adapter)
    ensures var r := ReadinessOf(runtime, x);
      && (r.providerCallReady <==> CallReady(runtime, x))
      && (r.assignmentRunReady <==> CallReady(runtime, x) || Preparable(runtime, x))
      && (r.assignmentRunReady ==>
            && (r.requiresPreparation <==> !CallReady(runtime, x))
            && r.descriptor == x.descriptor && r.request == x.request)
  {
  }

  /** The run at position `i`: if its first reading was ready for the call nothing is prepared, else it comes
      directly after the one preparation, of the same assignment and hashes. */
  ghost predicate PreparedAsNeeded(env: Environment, actions: seq<Action>, i: nat)
    requires i < |actions| && actions[i].Ran?
  {
    var run := actions[i];
    if CallReady(env.runtime, env.look(run.id)) then forall j :: 0 <= j < |actions| ==> !actions[j].Prepared?
    else i == 1 && actions[0] == Prepared(run.id, run.descriptor, run.request)
         && forall j :: 0 < j < |actions| ==> !actions[j].Prepared?
  }

  lemma DispatchPreparesAsNeeded(t: Tables, a: AuthorityId, env: Environment, id: TemplateId)
    ensures var actions := Dispatch(t, a, env, id).actions;
      forall i :: 0 <= i < |actions| && actions[i].Ran? ==> PreparedAsNeeded(env, actions, i)
  {
    ReadinessFacts(env.runtime, env.look(id));
    ReadinessFacts(env.runtime, env.lookAgain(id));
  }

  lemma LoopPreparesAsNeeded(t: Tables, a: AuthorityId, env: Environment, templates: seq<TemplateId>)
    ensures var actions := NextTemplate(t, a, env, templates).actions;
      forall i :: 0 <= i < |actions| && actions[i].Ran? ==> PreparedAsNeeded(env, actions, i)
  {
    var next := FirstWith(templates, Unfinished(t, a));
    if next < |templates| { DispatchPreparesAsNeeded(t, a, env, templates[next]); }
  }

  lemma NoRunIsPrepared(env: Environment, actions: seq<Action>)
    requires NoRun(actions)
    ensures forall i :: 0 <= i < |actions| && actions[i].Ran? ==> PreparedAsNeeded(env, actions, i)
  {
  }

  lemma RunsArePreparedAsNeeded(chain: Chain, candidate: AuthorityId, t: Tables, a: AuthorityId, env: Environment)
    requires a < |chain|
    ensures var actions := Continue(chain, candidate, t, a, env).actions;
      forall i :: 0 <= i < |actions| && actions[i].Ran? ==> PreparedAsNeeded(env, actions, i)
  {
    if Early(chain, candidate, t, a, env).Some? {
      EarlyIsBrief(chain, candidate, t, a, env);
      NoRunIsPrepared(env, Early(chain, candidate, t, a, env).value.actions);
    } else {
      LoopPreparesAsNeeded(t, a, env, chain[a].templates);
    }
  }

  // ---------------------------------------------------------------- what a dispatch presupposes

  /** The assignments handed to the provider, in order. */
  function Sent(actions: seq<Action>): seq<Action> {
    if actions == [] then []
    else (if actions[0].Ran? then [actions[0]] else []) + Sent(actions[1..])
  }

  /** When template `k` may be sent, stated without the code's order of questions. */
  ghost predicate MayDispatch(chain: Chain, candidate: AuthorityId, t: Tables, a: AuthorityId, env: Environment, k: nat)
    requires a < |chain| && k < |chain[a].templates|
  {
    && a == candidate && DispatchAllowed(chain, t, a) && !env.finalizationReady
    && NothingPending(chain[a].templates, t, a, env)
    && IsNext(t, a, env, chain[a].templates, k)
  }

  /** No recorded assignment has a retained response to account for or to reprocess. */
  ghost predicate NothingPending(templates: seq<TemplateId>, t: Tables, a: AuthorityId, env: Environment) {
    a in t.assignments ==>
      forall id :: id in templates && id in t.assignments[a] ==>
        !MayRecoverCustody(env)(id) && !MayReprocess(env)(id)
  }

  /** The assignment is recorded with work left and none in flight, can be run, and is unchanged and ready
      once prepared. */
  ghost predicate MaySend(t: Tables, a: AuthorityId, env: Environment, id: TemplateId) {
    var before, after := ReadinessOf(env.runtime, env.look(id)), ReadinessOf(env.runtime, env.lookAgain(id));
    && a in t.assignments && id in t.assignments[a] && (a, id) in t.tasks
    && t.tasks[(a, id)].status !in {Done, Skipped, Running}
    && !before.canReprocess && before.assignmentRunReady && after.providerCallReady
    && after.descriptor == before.descriptor && after.request == before.request
  }

  /** Sending a template with the hashes it had before preparation. */
  function RunOf(env: Environment, id: TemplateId): Action {
    var ready := ReadinessOf(env.runtime, env.look(id));
    Ran(id, ready.descriptor, ready.request)
  }

  lemma {:induction false} RecordedMembers(templates: seq<TemplateId>, t: Tables, a: AuthorityId, id: TemplateId)
    ensures id in Recorded(templates, t, a) <==> id in templates && a in t.assignments && id in t.assignments[a]
  {
    if templates != [] { RecordedMembers(templates[1..], t, a, id); }
  }

  /** The first recorded assignment with a property is missing exactly when no recorded one has it. */
  lemma NoneRecorded(templates: seq<TemplateId>, t: Tables, a: AuthorityId, p: TemplateId -> bool)
    ensures FirstWith(Recorded(templates, t, a), p) == |Recorded(templates, t, a)| <==>
              (a in t.assignments ==> forall id :: id in templates && id in t.assignments[a] ==> !p(id))
  {
    var recorded := Recorded(templates, t, a);
    var k := FirstWith(recorded, p);
    if k == |recorded| {
      forall id | id in templates && a in t.assignments && id in t.assignments[a] ensures !p(id) {
        RecordedMembers(templates, t, a, id);
      }
    } else {
      RecordedMembers(templates, t, a, recorded[k]);
    }
  }

  /** The template loop is reached exactly by the candidate, activated and dispatchable, with nothing to
      recover and no decision to seal. */
  lemma LoopIsReached(chain: Chain, candidate: AuthorityId, t: Tables, a: AuthorityId, env: Environment)
    requires a < |chain|
    ensures Early(chain, candidate, t, a, env).None? <==>
              && a == candidate && DispatchAllowed(chain, t, a) && !env.finalizationReady
              && NothingPending(chain[a].templates, t, a, env)
  {
    NoneRecorded(chain[a].templates, t, a, MayRecoverCustody(env));
    NoneRecorded(chain[a].templates, t, a, MayReprocess(env));
  }

  lemma EarlySendsNothing(chain: Chain, candidate: AuthorityId, t: Tables, a: AuthorityId, env: Environment)
    requires a < |chain| && Early(chain, candidate, t, a, env).Some?
    ensures Sent(Early(chain, candidate, t, a, env).value.actions) == []
  {
    EarlyIsBrief(chain, candidate, t, a, env);
    SentOne(Early(chain, candidate, t, a, env).value.actions);
  }

  predicate NoRun(actions: seq<Action>) {
    |actions| <= 1 && (actions != [] ==> !actions[0].Ran?)
  }

  lemma EarlyIsBrief(chain: Chain, candidate: AuthorityId, t: Tables, a: AuthorityId, env: Environment)
    requires a < |chain|
    ensures var r := Early(chain, candidate, t, a, env); r.Some? ==> NoRun(r.value.actions)
  {
    var early := Early(chain, candidate, t, a, env);
    if early.None? { return; }
    var r := early.value;
    var recorded := Recorded(chain[a].templates, t, a);
    var custody := FirstWith(recorded, MayRecoverCustody(env));
    if Registered(t, a) && custody < |recorded| {
      assert r == Custody(t, env, recorded[custody]);
    } else if Registered(t, a) && Effective(chain, t, a) == Expired {
      assert r == SealDeadline(chain, candidate, t, a);
    }
  }

  lemma SentOne(actions: seq<Action>)
    requires |actions| <= 1
    ensures Sent(actions) == if actions != [] && actions[0].Ran? then actions else []
  {
    if actions != [] { assert actions[1..] == [] && actions == [actions[0]]; }
  }

  lemma SentOneMore(first: Action, rest: seq<Action>)
    ensures Sent([first] + rest) == (if first.Ran? then [first] else []) + Sent(rest)
  {
    assert ([first] + rest)[1..] == rest;
  }

  lemma {:induction false} SentConcat(left: seq<Action>, right: seq<Action>)
    ensures Sent(left + right) == Sent(left) + Sent(right)
  {
    if left == [] {
      assert left + right == right;
    } else {
      SentConcat(left[1..], right);
      assert left + right == [left[0]] + (left[1..] + right);
      SentOneMore(left[0], left[1..] + right);
      SentOneMore(left[0], left[1..]);
      assert [left[0]] + left[1..] == left;
    }
  }

  /** What `Dispatch` does for a template that is not finished. */
  lemma DispatchSends(t: Tables, a: AuthorityId, env: Environment, id: TemplateId)
    requires !Finished(t, a, id)
    ensures Sent(Dispatch(t, a, env, id).actions) == if MaySend(t, a, env, id) then [RunOf(env, id)] else []
  {
    var actions := Dispatch(t, a, env, id).actions;
    if MaySend(t, a, env, id) {
      var ready := ReadinessOf(env.runtime, env.look(id));
      var before := if ready.requiresPreparation then [Prepared(id, ready.descriptor, ready.request)] else [];
      var closing := if env.stillOpen && env.closingReady then [Finalized] else [];
      assert actions == (before + [RunOf(env, id)]) + closing;
      SentConcat(before + [RunOf(env, id)], closing);
      SentConcat(before, [RunOf(env, id)]);
      SentOne(before);
      SentOne(closing);
      SentOne([RunOf(env, id)]);
    } else {
      SentOne(actions);
    }
  }

  lemma FirstUnfinished(t: Tables, a: AuthorityId, templates: seq<TemplateId>, k: nat)
    requires k < |templates| && !Finished(t, a, templates[k]) && forall j :: 0 <= j < k ==> Finished(t, a, templates[j])
    ensures FirstWith(templates, Unfinished(t, a)) == k
  {
    var next := FirstWith(templates, Unfinished(t, a));
    forall j | 0 <= j < next ensures Finished(t, a, templates[j]) {
      assert !Unfinished(t, a)(templates[j]);
    }
  }

  /** Template `k` is the first unfinished one and may be sent. */
  ghost predicate IsNext(t: Tables, a: AuthorityId, env: Environment, templates: seq<TemplateId>, k: nat)
    requires k < |templates|
  {
    (forall j :: 0 <= j < k ==> Finished(t, a, templates[j])) && MaySend(t, a, env, templates[k])
  }

  lemma LoopSends(t: Tables, a: AuthorityId, env: Environment, templates: seq<TemplateId>)
    ensures var sent := Sent(NextTemplate(t, a, env, templates).actions);
      && |sent| <= 1
      && (sent != [] <==> exists k :: 0 <= k < |templates| && IsNext(t, a, env, templates, k))
      && forall k :: 0 <= k < |templates| && IsNext(t, a, env, templates, k) ==> sent == [RunOf(env, templates[k])]
  {
    var next := FirstWith(templates, Unfinished(t, a));
    if next < |templates| {
      DispatchSends(t, a, env, templates[next]);
      forall j | 0 <= j < next ensures Finished(t, a, templates[j]) { assert !Unfinished(t, a)(templates[j]); }
      assert MaySend(t, a, env, templates[next]) ==> IsNext(t, a, env, templates, next);
    } else {
      SentOne(NextTemplate(t, a, env, templates).actions);
    }
    forall k | 0 <= k < |templates| && IsNext(t, a, env, templates, k) ensures k == next {
      FirstUnfinished(t, a, templates, k);
    }
  }

  /** Each continuation sends at most one assignment: template `k` exactly when the authority is the
      candidate in an activated, dispatchable state, every earlier template is finished and `k` may be
      sent; and it is sent with the descriptor and request hashes it had before preparation. */
  lemma DispatchIsFirstUnfinished(chain: Chain, candidate: AuthorityId, t: Tables, a: AuthorityId, env: Environment)
    requires a < |chain|
    ensures var sent := Sent(Continue(chain, candidate, t, a, env).actions); var templates := chain[a].templates;
      && |sent| <= 1
      && (sent != [] <==> exists k :: 0 <= k < |templates| && MayDispatch(chain, candidate, t, a, env, k))
      && forall k :: 0 <= k < |templates| && MayDispatch(chain, candidate, t, a, env, k) ==>
           sent == [RunOf(env, templates[k])]
  {
    var templates := chain[a].templates;
    LoopIsReached(chain, candidate, t, a, env);
    LoopSends(t, a, env, templates);
    var reached := Early(chain, candidate, t, a, env).None?;
    if !reached { EarlySendsNothing(chain, candidate, t, a, env); }
    forall k | 0 <= k < |templates|
      ensures MayDispatch(chain, candidate, t, a, env, k) <==> reached && IsNext(t, a, env, templates, k)
    {
    }
  }

  /** Both readings of the adapter named the same descriptor and request, and the second found everything
      a provider call needs. */
  ghost predicate ExactCall(runtime: Runtime, first: Adapter, second: Adapter, sent: Action) {
    && sent.Ran? && sent.descriptor.Some? && sent.request.Some?
    && first.descriptor == second.descriptor == sent.descriptor && first.request == second.request == sent.request
    && runtime.canRun && second.ready && second.credentialConfigured && second.egressReady && second.requestExact
    && second.artifactStoreReady && (first.ready || (runtime.canPrepare && first.canPrepare))
  }

  /** Whatever a continuation sends was described by the same two hashes before and after preparation. */
  lemma DispatchedHashesAreExact(chain: Chain, candidate: AuthorityId, t: Tables, a: AuthorityId, env: Environment)
    requires a < |chain|
    ensures forall sent :: sent in Sent(Continue(chain, candidate, t, a, env).actions) ==>
              sent.Ran? && ExactCall(env.runtime, env.look(sent.id), env.lookAgain(sent.id), sent)
  {
    DispatchIsFirstUnfinished(chain, candidate, t, a, env);
    var sent := Sent(Continue(chain, candidate, t, a, env).actions);
    if sent != [] {
      var k :| 0 <= k < |chain[a].templates| && MayDispatch(chain, candidate, t, a, env, k);
      var id := chain[a].templates[k];
      assert MaySend(t, a, env, id);
      assert ExactCall(env.runtime, env.look(id), env.lookAgain(id), RunOf(env, id));
      assert sent == [RunOf(env, id)];
    }
  }
}
