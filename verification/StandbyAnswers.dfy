/** What the jobs of the control shell answer (scripts/pantheon-standby.js), told from the events of their scripts. */
module StandbyAnswers {
  import opened CodeUnits
  import opened Options
  import opened PowerShellRun
  import opened StandbyControl

  /** The script was the first to end its run, by an exit with code 0 before the deadline. */
  ghost predicate CleanExit(m: Machine, events: seq<Event>) {
    exists f: nat :: FirstEnd(m, events, f) && events[f] == ChildExit(Some(0)) && Deadline !in events[..f]
  }

  lemma ResolvedIsCleanExit(c: Control, job: Job)
    ensures ScriptResolved(c, job) <==> CleanExit(c.machine, job.events)
    ensures ScriptSettled(c, job) <==> !NothingEnds(c.machine, job.events, |job.events|)
  {
    var settlements := PowerShellRun.Run(c.machine, job.events).settlements;
    ResolvesOnlyOnCleanExitInTime(c.machine, job.events);
    SettlesOnceAsFirstEndDecides(c.machine, job.events);
    if settlements != [] { assert settlements[0] in settlements; }
    if !NothingEnds(c.machine, job.events, |job.events|) {
      var f := SomeFirstEnd(c.machine, job.events, |job.events|);
    }
  }

  /** Going on after its script, a return resolves exactly after a clean exit and frees the lock. */
  lemma ReturnAnswers(c: Control, s: Shell, id: nat, handoff: Option<Text>, removed: bool)
    requires id < |s.jobs| && s.jobs[id].kind == Return && s.jobs[id].phase == Running
    requires !NothingEnds(c.machine, s.jobs[id].events, |s.jobs[id].events|)
    ensures var t := Next(c, s, Resume(id, handoff, removed));
      && t.transition == None && |t.jobs| == |s.jobs| && t.jobs[id].phase == Released
      && (CleanExit(c.machine, s.jobs[id].events) ==> t.jobs[id].answer == Nothing)
      && (!CleanExit(c.machine, s.jobs[id].events) ==> t.jobs[id].answer == Failure)
      && forall i :: 0 <= i < |s.jobs| && i != id ==> t.jobs[i] == s.jobs[i]
  {
    ResolvedIsCleanExit(c, s.jobs[id]);
  }

  /** A start answers with the handoff's address exactly after a clean exit, if the file was read, names the
      right origin and could be removed; otherwise it is rejected. Only a failed removal keeps the lock. */
  lemma StartAnswers(c: Control, s: Shell, id: nat, handoff: Option<Text>, removed: bool)
    requires id < |s.jobs| && s.jobs[id].kind == Start && s.jobs[id].phase == Running
    requires !NothingEnds(c.machine, s.jobs[id].events, |s.jobs[id].events|)
    ensures var t := Next(c, s, Resume(id, handoff, removed));
      var good := CleanExit(c.machine, s.jobs[id].events) && removed && handoff.Some? && c.origin <= handoff.value;
      && (good ==> t.jobs[id].answer == Url(handoff.value))
      && (!good ==> t.jobs[id].answer == Failure)
      && t.transition == (if removed then None else s.transition)
      && t.jobs[id].phase == (if removed then Released else Abandoned)
      && |t.jobs| == |s.jobs| && forall i :: 0 <= i < |s.jobs| && i != id ==> t.jobs[i] == s.jobs[i]
  {
    ResolvedIsCleanExit(c, s.jobs[id]);
  }

  /** A job whose script has not settled cannot go on. */
  lemma UnsettledScriptIsAwaited(c: Control, s: Shell, id: nat, handoff: Option<Text>, removed: bool)
    requires id < |s.jobs| && NothingEnds(c.machine, s.jobs[id].events, |s.jobs[id].events|)
    ensures Next(c, s, Resume(id, handoff, removed)) == s
  {
    ResolvedIsCleanExit(c, s.jobs[id]);
  }

  /** The script events among some steps that are addressed to one job. */
  function Delivered(steps: seq<Step>, id: nat): seq<Event> {
    if steps == [] then []
    else
      var last := steps[|steps| - 1];
      Delivered(steps[..|steps| - 1], id) + if last.Script? && last.id == id then [last.e] else []
  }

  lemma {:induction false} JobsStay(c: Control, s: Shell, steps: seq<Step>, id: nat)
    requires id < |s.jobs|
    ensures id < |RunShell(c, s, steps).jobs|
  {
    if steps != [] { JobsStay(c, s, steps[..|steps| - 1], id); }
  }

  /** While a job runs, its script's events reach it all and in order, whatever else happens. */
  lemma {:induction false} RunningJobSeesItsScript(c: Control, s: Shell, steps: seq<Step>, id: nat)
    requires id < |s.jobs| && s.jobs[id].phase == Running
    requires id < |RunShell(c, s, steps).jobs| && RunShell(c, s, steps).jobs[id].phase == Running
    ensures RunShell(c, s, steps).jobs[id] == s.jobs[id].(events := s.jobs[id].events + Delivered(steps, id))
  {
    if steps == [] {
      assert s.jobs[id].events + [] == s.jobs[id].events;
    } else {
      var before := steps[..|steps| - 1];
      JobsStay(c, s, before, id);
      NeverRunsAgain(c, s, steps, id);
      RunningJobSeesItsScript(c, s, before, id);
    }
  }

  lemma NeverRunsAgain(c: Control, s: Shell, steps: seq<Step>, id: nat)
    requires steps != [] && id < |s.jobs| && s.jobs[id].phase == Running
    requires id < |RunShell(c, s, steps).jobs| && RunShell(c, s, steps).jobs[id].phase == Running
    ensures id < |RunShell(c, s, steps[..|steps| - 1]).jobs|
    ensures RunShell(c, s, steps[..|steps| - 1]).jobs[id].phase == Running
  {
    JobsStay(c, s, steps[..|steps| - 1], id);
    NotDelayedAgain(c, s, steps[..|steps| - 1], id);
  }

  lemma {:induction false} NotDelayedAgain(c: Control, s: Shell, steps: seq<Step>, id: nat)
    requires id < |s.jobs| && s.jobs[id].phase != Delaying
    ensures id < |RunShell(c, s, steps).jobs| && RunShell(c, s, steps).jobs[id].phase != Delaying
  {
    if steps != [] { NotDelayedAgain(c, s, steps[..|steps| - 1], id); }
  }

  /** A scheduled return waits: until its delay is over no script runs for it and it stays unanswered. */
  lemma {:induction false} ScheduledReturnWaits(c: Control, s: Shell, steps: seq<Step>)
    requires s.transition.None? && DelayOver(|s.jobs|) !in steps
    ensures var t := RunShell(c, Next(c, s, AskReturn), steps);
      |t.jobs| > |s.jobs| && t.jobs[|s.jobs|] == Job(Return, Delaying, [], Unsettled)
  {
    if steps != [] {
      var n := |steps| - 1;
      forall step | step in steps[..n] ensures step in steps {}
      ScheduledReturnWaits(c, s, steps[..n]);
      assert steps[n] in steps;
    }
  }

  /** Then its script is started, with nothing seen of it yet. */
  lemma ReturnRunsAfterItsDelay(c: Control, s: Shell, steps: seq<Step>)
    requires s.transition.None? && DelayOver(|s.jobs|) !in steps
    ensures var t := RunShell(c, Next(c, s, AskReturn), steps);
      var u := Next(c, t, DelayOver(|s.jobs|));
      |u.jobs| == |t.jobs| > |s.jobs| && u.jobs[|s.jobs|] == Job(Return, Running, [], Unsettled)
        && u.transition == t.transition
  {
    ScheduledReturnWaits(c, s, steps);
  }

  /** A start whose handoff directory cannot be made is rejected at once and keeps the lock for ever. */
  lemma UnmadeDirectoryKeepsTheLock(c: Control, steps: seq<Step>, more: seq<Step>)
    requires RunShell(c, IDLE, steps).transition.None?
    ensures var s := RunShell(c, IDLE, steps); var t := Next(c, s, AskStart(false));
      t == Shell(Some(|s.jobs|), s.jobs + [Job(Start, Abandoned, [], Failure)]) && RunShell(c, t, more) == t
  {
    RunOneStep(c, IDLE, steps, AskStart(false));
    AbandonedLockIsHeldForever(c, steps + [AskStart(false)], more, |RunShell(c, IDLE, steps).jobs|);
  }

  /** With the directory made, a free lock goes to a new start whose script runs. A held lock lets nothing start. */
  lemma FreeLockStarts(c: Control, s: Shell, made: bool)
    ensures s.transition.None? ==>
      Next(c, s, AskStart(true)) == Shell(Some(|s.jobs|), s.jobs + [Job(Start, Running, [], Unsettled)])
    ensures s.transition.Some? ==> Next(c, s, AskStart(made)) == s && Next(c, s, AskReturn) == s
  {
  }
}
