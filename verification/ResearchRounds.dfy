/** Runs of the bounded research in which continuations, the server's transactions and the bridge's steps
    alternate in any order. */
module ResearchRounds {
  import opened Options
  import opened ResearchContinuation
  import opened ResearchLifecycle
  import opened ResearchRuns

  /** A transaction or bridge step, or one scheduler continuation with the answers it met. */
  datatype Move =
    | Ledger(step: Step)
    | Round(candidate: AuthorityId, a: AuthorityId, env: Environment)

  function Advance(chain: Chain, t: Tables, m: Move): Tables {
    match m
    case Ledger(step) => Next(chain, t, step)
    case Round(c, a, env) => if a < |chain| then Continue(chain, c, t, a, env).tables else t
  }

  function Play(chain: Chain, t: Tables, moves: seq<Move>): Tables {
    if moves == [] then t else Advance(chain, Play(chain, t, moves[..|moves| - 1]), moves[|moves| - 1])
  }

  // ---------------------------------------------------------------- continuations keep the ledger in order

  /** A continuation itself changes the scheduler, and seals a deadline that has passed. */
  lemma WhatContinuationsChange(chain: Chain, c: AuthorityId, t: Tables, a: AuthorityId, env: Environment)
    requires a < |chain|
    ensures var u := Continue(chain, c, t, a, env).tables; var sealed := SealExpired(chain, c, t, a);
      u == Scheduler(t, u.scheduler) || (sealed.Ok? && u == Scheduler(sealed.tables, u.scheduler))
  {
    if Early(chain, c, t, a, env).Some? {
      WhatEarlyEndsChange(chain, c, t, a, env);
    } else {
      WhatTemplatesChange(t, a, env, chain[a].templates);
    }
  }

  lemma WhatTemplatesChange(t: Tables, a: AuthorityId, env: Environment, templates: seq<TemplateId>)
    ensures var u := NextTemplate(t, a, env, templates).tables; u == Scheduler(t, u.scheduler)
  {
    var next := FirstWith(templates, Unfinished(t, a));
    if next < |templates| { WhatDispatchChanges(t, a, env, templates[next]); }
  }

  lemma WhatEarlyEndsChange(chain: Chain, c: AuthorityId, t: Tables, a: AuthorityId, env: Environment)
    requires a < |chain| && Early(chain, c, t, a, env).Some?
    ensures var u := Early(chain, c, t, a, env).value.tables; var sealed := SealExpired(chain, c, t, a);
      u == Scheduler(t, u.scheduler) || (sealed.Ok? && u == Scheduler(sealed.tables, u.scheduler))
  {
    var r := Early(chain, c, t, a, env).value;
    var recorded := Recorded(chain[a].templates, t, a);
    var custody := FirstWith(recorded, MayRecoverCustody(env));
    if Registered(t, a) && custody < |recorded| {
      assert r == Custody(t, env, recorded[custody]);
    } else if Registered(t, a) && Effective(chain, t, a) == Expired {
      assert r == SealDeadline(chain, c, t, a);
    }
  }

  lemma WhatDispatchChanges(t: Tables, a: AuthorityId, env: Environment, id: TemplateId)
    ensures var u := Dispatch(t, a, env, id).tables; u == Scheduler(t, u.scheduler)
  {
  }

  lemma ContinueKeepsInv(chain: Chain, c: AuthorityId, t: Tables, a: AuthorityId, env: Environment)
    requires Inv(chain, t) && a < |chain|
    ensures var u := Continue(chain, c, t, a, env).tables; Inv(chain, u) && HistoryKept(t, u)
  {
    var u, sealed := Continue(chain, c, t, a, env).tables, SealExpired(chain, c, t, a);
    WhatContinuationsChange(chain, c, t, a, env);
    if u == Scheduler(t, u.scheduler) {
      SchedulerKeepsInv(chain, t, t, u, a);
    } else {
      SealKeepsInv(chain, c, t, a);
      SchedulerKeepsInv(chain, t, sealed.tables, u, a);
    }
    TouchingKeepsHistory(t, u, a);
  }

  lemma AdvanceKeepsInv(chain: Chain, t: Tables, m: Move)
    requires Inv(chain, t)
    ensures Inv(chain, Advance(chain, t, m)) && HistoryKept(t, Advance(chain, t, m))
  {
    match m {
      case Ledger(step) => StepKeepsInv(chain, t, step);
      case Round(c, a, env) =>
        if a < |chain| { ContinueKeepsInv(chain, c, t, a, env); } else { TouchingKeepsHistory(t, t, 0); }
    }
  }

  lemma {:induction false} PlayKeepsInv(chain: Chain, t: Tables, moves: seq<Move>)
    requires Inv(chain, t)
    ensures Inv(chain, Play(chain, t, moves)) && HistoryKept(t, Play(chain, t, moves))
  {
    if moves == [] {
      TouchingKeepsHistory(t, t, 0);
    } else {
      var n := |moves| - 1;
      PlayKeepsInv(chain, t, moves[..n]);
      AdvanceKeepsInv(chain, Play(chain, t, moves[..n]), moves[n]);
      HistoryKeptTwice(t, Play(chain, t, moves[..n]), Play(chain, t, moves));
    }
  }

  lemma PlayOneMore(chain: Chain, t: Tables, moves: seq<Move>)
    requires moves != []
    ensures Play(chain, t, moves) == Advance(chain, Play(chain, t, moves[..|moves| - 1]), moves[|moves| - 1])
  {
  }

  lemma {:induction false} PlayOn(chain: Chain, t: Tables, moves: seq<Move>, i: nat)
    requires i <= |moves|
    ensures Play(chain, t, moves) == Play(chain, Play(chain, t, moves[..i]), moves[i..])
    decreases |moves|
  {
    if i == |moves| {
      assert moves[..i] == moves;
    } else {
      var n := |moves| - 1;
      PlayOn(chain, t, moves[..n], i);
      assert moves[..n][..i] == moves[..i] && moves[..n][i..] == moves[i..][..n - i];
      PlayOneMore(chain, t, moves);
      PlayOneMore(chain, Play(chain, t, moves[..i]), moves[i..]);
    }
  }

  // ---------------------------------------------------------------- order of dispatches

  /** The tables that move `i` of a run from the empty ledger meets. */
  function Before(chain: Chain, moves: seq<Move>, i: nat): Tables
    requires i <= |moves|
  {
    Play(chain, EMPTY, moves[..i])
  }

  /** Move `i` is a continuation for `a` that may send template `k`. */
  ghost predicate SendsAt(chain: Chain, moves: seq<Move>, i: nat, a: AuthorityId, k: nat)
    requires a < |chain| && i < |moves|
  {
    && moves[i].Round? && moves[i].a == a && k < |chain[a].templates|
    && MayDispatch(chain, moves[i].candidate, Before(chain, moves, i), a, moves[i].env, k)
  }

  lemma BeforeIsInOrder(chain: Chain, moves: seq<Move>, i: nat)
    requires i <= |moves|
    ensures Inv(chain, Before(chain, moves, i))
  {
    EmptyIsInOrder(chain);
    PlayKeepsInv(chain, EMPTY, moves[..i]);
  }

  /** A task finished at one point of a run is finished at every later one. */
  lemma FinishedStaysFinished(chain: Chain, moves: seq<Move>, i: nat, j: nat, a: AuthorityId, id: TemplateId)
    requires i <= j <= |moves| && Finished(Before(chain, moves, i), a, id)
    ensures Finished(Before(chain, moves, j), a, id)
  {
    var t, u := Before(chain, moves, i), Before(chain, moves, j);
    BeforeIsInOrder(chain, moves, i);
    BeforeIsInOrder(chain, moves, j);
    PlayOn(chain, EMPTY, moves[..j], i);
    assert moves[..j][..i] == moves[..i];
    PlayKeepsInv(chain, t, moves[..j][i..]);
    assert FinishedKept(t, u, a) && AuthorityOk(chain, u, a);
  }

  ghost predicate FinishedBefore(t: Tables, a: AuthorityId, templates: seq<TemplateId>, k: nat)
    requires k <= |templates|
  {
    forall j :: 0 <= j < k ==> Finished(t, a, templates[j])
  }

  lemma SendingFacts(chain: Chain, moves: seq<Move>, i: nat, a: AuthorityId, k: nat)
    requires a < |chain| && i < |moves| && SendsAt(chain, moves, i, a, k)
    ensures FinishedBefore(Before(chain, moves, i), a, chain[a].templates, k)
    ensures !Finished(Before(chain, moves, i), a, chain[a].templates[k])
  {
  }

  /** What a move that may send a template does send. */
  lemma SendingSends(chain: Chain, moves: seq<Move>, i: nat, a: AuthorityId, k: nat)
    requires a < |chain| && i < |moves| && SendsAt(chain, moves, i, a, k)
    ensures var m := moves[i];
      Sent(Continue(chain, m.candidate, Before(chain, moves, i), a, m.env).actions) ==
        [RunOf(m.env, chain[a].templates[k])]
  {
    DispatchIsFirstUnfinished(chain, moves[i].candidate, Before(chain, moves, i), a, moves[i].env);
  }

  lemma FinishedPrefixGrows(t: Tables, u: Tables, a: AuthorityId, templates: seq<TemplateId>, k: nat, l: nat)
    requires k < |templates| && l < |templates|
    requires FinishedBefore(t, a, templates, k) && !Finished(u, a, templates[l])
    requires forall id :: Finished(t, a, id) ==> Finished(u, a, id)
    ensures k <= l
    ensures Finished(u, a, templates[k]) ==> k < l
  {
  }

  /** Over every run from the empty ledger, dispatches of an authority follow its template order: a later one
      is never for an earlier template, and for the same one only if it was not finished between. */
  lemma DispatchesFollowTemplateOrder(chain: Chain, moves: seq<Move>, a: AuthorityId, i: nat, j: nat, k: nat, l: nat)
    requires a < |chain| && i < j < |moves|
    requires SendsAt(chain, moves, i, a, k) && SendsAt(chain, moves, j, a, l)
    ensures k <= l
    ensures Finished(Before(chain, moves, j), a, chain[a].templates[k]) ==> k < l
  {
    SendingFacts(chain, moves, i, a, k);
    SendingFacts(chain, moves, j, a, l);
    forall id | Finished(Before(chain, moves, i), a, id) ensures Finished(Before(chain, moves, j), a, id) {
      FinishedStaysFinished(chain, moves, i, j, a, id);
    }
    FinishedPrefixGrows(Before(chain, moves, i), Before(chain, moves, j), a, chain[a].templates, k, l);
  }

  // ---------------------------------------------------------------- what a dispatch rests on

  /** Only one authority can have work sent, and it is one whose log is exactly proposed, accepted,
      activated, the last two by the owner's used approvals. */
  lemma DispatchFollowsOwnerApprovals(chain: Chain, moves: seq<Move>, i: nat, a: AuthorityId, k: nat)
    requires a < |chain| && i < |moves| && SendsAt(chain, moves, i, a, k)
    ensures var t := Before(chain, moves, i);
      && a in t.log && |t.log[a]| == 3 && WasActivated(t.log[a])
      && Key(a, Accepted) in t.approvals && t.approvals[Key(a, Accepted)] == Approval(Approved, true)
      && Key(a, Activated) in t.approvals && t.approvals[Key(a, Activated)] == Approval(Approved, true)
      && forall b :: Registered(t, b) && b != a ==> IsTerminal(Latest(t, b))
  {
    var t := Before(chain, moves, i);
    BeforeIsInOrder(chain, moves, i);
    OpenAuthorityWasApproved(chain, t, a);
    forall b: nat | Registered(t, b) && b != a ensures IsTerminal(Latest(t, b)) {
      OthersHaveEnded(chain, t, a, b);
    }
  }

  lemma OpenAuthorityWasApproved(chain: Chain, t: Tables, a: AuthorityId)
    requires Inv(chain, t) && Registered(t, a) && Latest(t, a) == Activated
    ensures |t.log[a]| == 3 && WasActivated(t.log[a])
    ensures Key(a, Accepted) in t.approvals && t.approvals[Key(a, Accepted)] == Approval(Approved, true)
    ensures Key(a, Activated) in t.approvals && t.approvals[Key(a, Activated)] == Approval(Approved, true)
  {
    assert AuthorityOk(chain, t, a);
    ActivatedLogShape(t.log[a], a);
    assert t.log[a][1].approval == By(Key(a, Accepted)) && t.log[a][2].approval == By(Key(a, Activated));
  }

  lemma OthersHaveEnded(chain: Chain, t: Tables, a: AuthorityId, b: AuthorityId)
    requires Inv(chain, t) && Registered(t, a) && Latest(t, a) == Activated && Registered(t, b) && b != a
    ensures IsTerminal(Latest(t, b))
  {
    if b < a {
      EarlierAuthoritiesAreFinished(chain, t, b, a);
    } else {
      EarlierAuthoritiesAreFinished(chain, t, a, b);
    }
  }

  // ---------------------------------------------------------------- a round that dispatches

  /** A machine on which every assignment is described by the same two hashes, can be prepared, and is ready
      once prepared. */
  function Willing(descriptor: Hash, request: Hash): Environment {
    var prepared := Adapter(true, false, true, true, true, true, Some(descriptor), Some(request), None, false, false);
    Environment(Runtime(true, true, true, true), _ => prepared.(ready := false, canPrepare := true), _ => prepared,
                false, false, false, true)
  }

  lemma {:induction false} PlaySteps(chain: Chain, t: Tables, steps: seq<Step>)
    ensures Play(chain, t, Ledgers(steps)) == Run(chain, t, steps)
  {
    if steps != [] {
      var n := |steps| - 1;
      PlaySteps(chain, t, steps[..n]);
      assert Ledgers(steps)[..n] == Ledgers(steps[..n]);
    }
  }

  function Ledgers(steps: seq<Step>): seq<Move> {
    seq(|steps|, i requires 0 <= i < |steps| => Ledger(steps[i]))
  }

  lemma StartedMayDispatch(chain: Chain, t: Tables, descriptor: Hash, request: Hash)
    requires Started(chain, t) && chain[0].templates != []
    ensures MayDispatch(chain, 0, t, 0, Willing(descriptor, request), 0)
  {
    var env, id := Willing(descriptor, request), chain[0].templates[0];
    assert id in chain[0].templates;
    assert MaySend(t, 0, env, id);
    assert IsNext(t, 0, env, chain[0].templates, 0);
    assert NothingPending(chain[0].templates, t, 0, env);
  }

  /** Dispatches do happen: after start-up and the two approvals a willing machine sends the first template. */
  lemma ARoundDispatches(chain: Chain, local: set<TemplateId>, descriptor: Hash, request: Hash)
    requires chain != [] && chain[0].expiresAt > 0 && chain[0].templates != [] && DistinctTemplates(chain[0].templates)
    ensures SendsAt(chain, Ledgers(OpeningSteps(local)) + [Round(0, 0, Willing(descriptor, request))], 3, 0, 0)
  {
    var opening := Ledgers(OpeningSteps(local));
    var moves := opening + [Round(0, 0, Willing(descriptor, request))];
    TwoApprovalsStartTheRound(chain, local);
    PlaySteps(chain, EMPTY, OpeningSteps(local));
    assert |opening| == 3 && moves[..3] == opening;
    StartedMayDispatch(chain, Before(chain, moves, 3), descriptor, request);
  }
}
