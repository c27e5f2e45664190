/** When the lifecycle transactions switch the scheduler on (src/server.js): only for a candidate that may
    dispatch and has an assignment left to start, never after it was stopped. */
module ResearchScheduler {
  import opened ResearchLifecycle
  import opened ResearchRuns

  /** Some authority may dispatch and has a blocked or queued assignment. */
  ghost predicate OpenWork(chain: Chain, t: Tables) {
    exists a: nat :: a < |chain| && DispatchAllowed(chain, t, a) && HasOpenTask(t, a)
  }

  ghost predicate HasOpenTask(t: Tables, a: AuthorityId) {
    exists id :: id in Assigned(t, a) && IsOpen(t, a, id)
  }

  lemma ReadyMeansOpenWork(chain: Chain, c: AuthorityId, t: Tables, a: AuthorityId, local: set<TemplateId>, on: bool)
    requires a < |chain| && RunnerReady(chain, c, t, a, local)
    ensures OpenWork(chain, Scheduler(t, on))
  {
    var id :| id in local && id in Assigned(t, a) && IsOpen(t, a, id);
    var u := Scheduler(t, on);
    assert id in Assigned(u, a) && IsOpen(u, a, id);
    assert HasOpenTask(u, a) && DispatchAllowed(chain, u, a);
  }

  lemma StartUpStartsOpenWork(chain: Chain, c: AuthorityId, t: Tables, a: AuthorityId, local: set<TemplateId>)
    requires a < |chain| && StartUp(chain, c, t, a, local).Ok? && StartUp(chain, c, t, a, local).tables.scheduler
    ensures var u := StartUp(chain, c, t, a, local).tables; t.scheduler || OpenWork(chain, u)
  {
    var u := StartUp(chain, c, t, a, local).tables;
    if a == c && PredecessorTerminal(t, a) {
      var t1 := if Registered(t, a) then t else Register(chain, c, t, a).tables;
      if !(Effective(chain, t1, a) == Expired && Latest(t1, a) != Expired) {
        ReadyMeansOpenWork(chain, c, u, a, local, true);
        assert u == Scheduler(u, true);
      }
    }
  }

  lemma DecisionStartsOpenWork(chain: Chain, c: AuthorityId, t: Tables, a: AuthorityId, key: Key,
                               approve: bool, exact: bool, local: set<TemplateId>)
    requires a < |chain| && Decide(chain, c, t, a, key, approve, exact, local).Ok?
    requires Decide(chain, c, t, a, key, approve, exact, local).tables.scheduler
    ensures OpenWork(chain, Decide(chain, c, t, a, key, approve, exact, local).tables)
  {
    var u := Decide(chain, c, t, a, key, approve, exact, local).tables;
    ReadyMeansOpenWork(chain, c, u, a, local, true);
    assert u == Scheduler(u, true);
  }

  /** A step that switches the scheduler on leaves open work of an authority that may dispatch. */
  lemma OnlyOpenWorkStartsScheduler(chain: Chain, t: Tables, s: Step)
    requires Next(chain, t, s).scheduler && !t.scheduler
    ensures OpenWork(chain, Next(chain, t, s))
  {
    match s {
      case StartUpStep(c, a, local) => StartUpStartsOpenWork(chain, c, t, a, local);
      case DecideStep(c, a, key, approve, exact, local) =>
        DecisionStartsOpenWork(chain, c, t, a, key, approve, exact, local);
      case _ =>
    }
  }

  /** Every registered authority has ended. */
  ghost predicate AllEnded(t: Tables) {
    forall a :: a in t.log ==> Registered(t, a) && IsTerminal(Latest(t, a))
  }

  lemma EndedMeansNoOpenWork(chain: Chain, t: Tables)
    requires AllEnded(t)
    ensures !OpenWork(chain, t)
  {
  }

  /** If `a` has ended and its successor is not registered, every registered authority has ended. */
  lemma LastEndedMeansAllEnded(chain: Chain, t: Tables, a: AuthorityId)
    requires Inv(chain, t) && Registered(t, a) && IsTerminal(Latest(t, a)) && a + 1 !in t.log
    ensures AllEnded(t)
  {
    forall b: nat | b in t.log ensures Registered(t, b) && IsTerminal(Latest(t, b)) {
      if b < a {
        EarlierAuthoritiesAreFinished(chain, t, b, a);
      } else if b > a + 1 {
        EarlierAuthoritiesAreFinished(chain, t, a + 1, b);
      }
    }
  }

  /** `a` has ended and the scheduler is off. */
  ghost predicate StoppedFor(t: Tables, a: AuthorityId) {
    Registered(t, a) && IsTerminal(Latest(t, a)) && !t.scheduler
  }

  lemma StepStaysOff(chain: Chain, t: Tables, s: Step, a: AuthorityId)
    requires Inv(chain, t) && StoppedFor(t, a) && a + 1 !in Next(chain, t, s).log
    ensures StoppedFor(Next(chain, t, s), a) && a + 1 !in t.log
  {
    var u := Next(chain, t, s);
    StepKeepsInv(chain, t, s);
    assert LogGrows(t, u, a) && LogGrows(t, u, a + 1);
    if u.scheduler {
      LastEndedMeansAllEnded(chain, u, a);
      EndedMeansNoOpenWork(chain, u);
      OnlyOpenWorkStartsScheduler(chain, t, s);
    }
  }

  /** For the rest of the run, until a successor is registered, the scheduler of a stopped or finished
      authority stays off: no start-up, decision or replay switches it on again. */
  lemma {:induction false} StoppedSchedulerStaysOff(chain: Chain, t: Tables, more: seq<Step>, a: AuthorityId)
    requires Inv(chain, t) && StoppedFor(t, a) && a + 1 !in Run(chain, t, more).log
    ensures StoppedFor(Run(chain, t, more), a)
  {
    if more != [] {
      var n := |more| - 1;
      RunKeepsInv(chain, t, more[..n]);
      StepKeepsLogs(chain, Run(chain, t, more[..n]), more[n], a + 1);
      StoppedSchedulerStaysOff(chain, t, more[..n], a);
      StepStaysOff(chain, Run(chain, t, more[..n]), more[n], a);
    }
  }

  lemma StepKeepsLogs(chain: Chain, t: Tables, s: Step, b: AuthorityId)
    requires Inv(chain, t) && b !in Next(chain, t, s).log
    ensures b !in t.log
  {
    StepKeepsInv(chain, t, s);
    assert LogGrows(t, Next(chain, t, s), b);
  }

  /** Once a revocation went through in a run, its authority's scheduler is off for the rest of the run. */
  lemma RevokedSchedulerStaysOff(chain: Chain, steps: seq<Step>, c: AuthorityId, a: AuthorityId, seen: nat,
                                 more: seq<Step>)
    requires a < |chain|
    requires var t := Run(chain, EMPTY, steps);
      Registered(t, a) && Latest(t, a) != Revoked && Revoke(chain, c, t, a, seen).Ok?
    requires a + 1 !in Run(chain, Revoke(chain, c, Run(chain, EMPTY, steps), a, seen).tables, more).log
    ensures !Run(chain, Revoke(chain, c, Run(chain, EMPTY, steps), a, seen).tables, more).scheduler
  {
    var t := Run(chain, EMPTY, steps);
    EmptyIsInOrder(chain);
    RunKeepsInv(chain, EMPTY, steps);
    RevokeKeepsInv(chain, c, t, a, seen);
    RevokeGoesThrough(chain, c, t, a, seen);
    StoppedSchedulerStaysOff(chain, Revoke(chain, c, t, a, seen).tables, more, a);
  }

  /** Replaying a recorded activation changes nothing but the scheduler, which it switches on exactly if the
      authority may dispatch and this machine can run one of its blocked or queued assignments; after a stop
      that is never so. */
  lemma ReplayedActivationStartsOnlyOpenWork(chain: Chain, steps: seq<Step>, a: AuthorityId, local: set<TemplateId>)
    requires a in Run(chain, EMPTY, steps).assignments
    ensures var t := Run(chain, EMPTY, steps);
      && a < |chain| && Registered(t, a)
      && Decide(chain, a, t, a, Key(a, Activated), true, true, local)
         == Ok(Scheduler(t, RunnerReady(chain, a, t, a, local)))
      && (IsTerminal(Latest(t, a)) || t.now >= chain[a].expiresAt ==> !RunnerReady(chain, a, t, a, local))
  {
    var t := Run(chain, EMPTY, steps);
    AssignmentsFollowTwoApprovals(chain, steps, a);
    EmptyIsInOrder(chain);
    RunKeepsInv(chain, EMPTY, steps);
    assert AuthorityOk(chain, t, a);
  }
}
