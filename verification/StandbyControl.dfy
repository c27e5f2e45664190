/** The control shell's mode changes (scripts/pantheon-standby.js): starting the working runtime and
    returning to standby share one lock, the module variable `transition`. */
module StandbyControl {
  import opened CodeUnits
  import opened Options
  import opened PowerShellRun

  /** `origin` is the start every operator address must have. */
  datatype Control = Control(machine: Machine, origin: Text)

  datatype Kind = Start | Return

  /** A return waits before it runs its script. A job whose file-system call threw before the lock was
      given back is abandoned. */
  datatype Phase = Delaying | Running | Released | Abandoned

  /** What the job's promise settles to. */
  datatype Answer = Unsettled | Url(address: Text) | Nothing | Failure

  datatype Job = Job(kind: Kind, phase: Phase, events: seq<Event>, answer: Answer)

  /** `transition` holds the promise of one job, named by its position in order of creation. */
  datatype Shell = Shell(transition: Option<nat>, jobs: seq<Job>)

  /** `AskStart` says whether the handoff directory could be made; `Resume` runs a job on after its script
      settled, with the handoff file's trimmed text if it could be read and whether removing it worked. */
  datatype Step =
    | AskStart(made: bool)
    | AskReturn
    | DelayOver(id: nat)
    | Script(id: nat, e: Event)
    | Resume(id: nat, handoff: Option<Text>, removed: bool)

  const IDLE := Shell(None, [])

  // ---------------------------------------------------------------- steps as functions

  predicate ScriptSettled(c: Control, job: Job) {
    PowerShellRun.Run(c.machine, job.events).settlements != []
  }

  predicate ScriptResolved(c: Control, job: Job) {
    var settlements := PowerShellRun.Run(c.machine, job.events).settlements;
    settlements != [] && settlements[0].Resolved?
  }

  function Created(kind: Kind, made: bool): Job {
    if kind == Return then Job(Return, Delaying, [], Unsettled)
    else if made then Job(Start, Running, [], Unsettled)
    else Job(Start, Abandoned, [], Failure)
  }

  /** The rest of a job whose script has settled, up to and including its `finally`. */
  function Finished(c: Control, job: Job, handoff: Option<Text>, removed: bool): Job {
    var ok := ScriptResolved(c, job);
    if job.kind == Return then job.(phase := Released, answer := if ok then Nothing else Failure)
    else if !removed then job.(phase := Abandoned, answer := Failure)
    else job.(phase := Released,
              answer := if ok && handoff.Some? && c.origin <= handoff.value then Url(handoff.value) else Failure)
  }

  function Next(c: Control, s: Shell, step: Step): Shell {
    match step
    case AskStart(made) =>
      if s.transition.Some? then s else Shell(Some(|s.jobs|), s.jobs + [Created(Start, made)])
    case AskReturn =>
      if s.transition.Some? then s else Shell(Some(|s.jobs|), s.jobs + [Created(Return, true)])
    case DelayOver(id) =>
      if id < |s.jobs| && s.jobs[id].phase == Delaying then s.(jobs := s.jobs[id := s.jobs[id].(phase := Running)])
        else s
    case Script(id, e) =>
      if id < |s.jobs| && s.jobs[id].phase == Running
      then s.(jobs := s.jobs[id := s.jobs[id].(events := s.jobs[id].events + [e])]) else s
    case Resume(id, handoff, removed) =>
      if id < |s.jobs| && s.jobs[id].phase == Running && ScriptSettled(c, s.jobs[id])
      then
        var job := Finished(c, s.jobs[id], handoff, removed);
        Shell(if job.phase == Released then None else s.transition, s.jobs[id := job])
      else s
  }

  function RunShell(c: Control, s: Shell, steps: seq<Step>): Shell {
    if steps == [] then s else Next(c, RunShell(c, s, steps[..|steps| - 1]), steps[|steps| - 1])
  }

  // ---------------------------------------------------------------- the code

  class ControlShell {
    const c: Control
    var transition: Option<nat>
    var jobs: seq<Job>

    constructor (c: Control)
      ensures this.c == c && View() == IDLE
    {
      this.c := c;
      transition, jobs := None, [];
    }

    function View(): Shell
      reads this
    {
      Shell(transition, jobs)
    }

    /** `startWorking`: the caller gets the promise of the job that holds the lock afterwards. */
    method StartWorking(made: bool) returns (promise: nat)
      modifies this
      ensures View() == Next(c, old(View()), AskStart(made)) && transition == Some(promise)
    {
      if transition.Some? { return transition.value; }
      promise := |jobs|;
      // The body runs up to its first await before `transition` is assigned.
      if made {
        jobs := jobs + [Job(Start, Running, [], Unsettled)];
      } else {
        jobs := jobs + [Job(Start, Abandoned, [], Failure)];
      }
      transition := Some(promise);
    }

    /** `scheduleReturnToStandby`. */
    method ScheduleReturnToStandby() returns (scheduled: bool)
      modifies this
      ensures View() == Next(c, old(View()), AskReturn) && scheduled == old(transition).None?
    {
      if transition.Some? { return false; }
      jobs := jobs + [Job(Return, Delaying, [], Unsettled)];
      transition := Some(|jobs| - 1);
      scheduled := true;
    }

    method AfterDelay(id: nat)
      requires id < |jobs| && jobs[id].phase == Delaying
      modifies this
      ensures View() == Next(c, old(View()), DelayOver(id))
    {
      jobs := jobs[id := jobs[id].(phase := Running)];
    }

    method OnScriptEvent(id: nat, e: Event)
      requires id < |jobs| && jobs[id].phase == Running
      modifies this
      ensures View() == Next(c, old(View()), Script(id, e))
    {
      jobs := jobs[id := jobs[id].(events := jobs[id].events + [e])];
    }

    /** What follows `await runPowerShell`, with the `finally` that gives the lock back. */
    method AfterScript(id: nat, handoff: Option<Text>, removed: bool)
      requires id < |jobs| && jobs[id].phase == Running && ScriptSettled(c, jobs[id])
      modifies this
      ensures View() == Next(c, old(View()), Resume(id, handoff, removed))
      ensures transition == if old(jobs[id]).kind == Return || removed then None else old(transition)
      ensures jobs[id].answer.Url? <==>
                && old(jobs[id]).kind == Start && ScriptResolved(c, old(jobs[id])) && removed
                && handoff.Some? && c.origin <= handoff.value
    {
      var answer := Failure;
      if ScriptResolved(c, jobs[id]) {
        if jobs[id].kind == Return {
          answer := Nothing;
        } else if handoff.Some? && c.origin <= handoff.value {
          answer := Url(handoff.value);
        }
      }
      if jobs[id].kind == Start && !removed {
        jobs := jobs[id := jobs[id].(phase := Abandoned, answer := Failure)];
        return;
      }
      jobs := jobs[id := jobs[id].(phase := Released, answer := answer)];
      transition := None;
    }

    /** The event loop: requests, delays, script events and continuations in any order. What is not possible
        when its turn comes does not happen. */
    method TakeTurns(steps: seq<Step>)
      modifies this
      ensures View() == RunShell(c, old(View()), steps)
    {
      for n := 0 to |steps|
        invariant View() == RunShell(c, old(View()), steps[..n])
      {
        assert steps[..n + 1][..n] == steps[..n];
        match steps[n] {
          case AskStart(made) =>
            var promise := StartWorking(made);
          case AskReturn =>
            var scheduled := ScheduleReturnToStandby();
          case DelayOver(id) =>
            if id < |jobs| && jobs[id].phase == Delaying { AfterDelay(id); }
          case Script(id, e) =>
            if id < |jobs| && jobs[id].phase == Running { OnScriptEvent(id, e); }
          case Resume(id, handoff, removed) =>
            if id < |jobs| && jobs[id].phase == Running && ScriptSettled(c, jobs[id]) {
              AfterScript(id, handoff, removed);
            }
        }
      }
      assert steps[..|steps|] == steps;
    }
  }

  // ---------------------------------------------------------------- the lock

  /** Only the newest job can be unfinished, and the lock is held exactly by it. */
  ghost predicate LockOk(s: Shell) {
    && (forall i :: 0 <= i < |s.jobs| ==> (s.jobs[i].phase == Released <==> s.transition != Some(i)))
    && (s.transition.Some? ==> s.transition.value == |s.jobs| - 1)
  }

  ghost predicate AnswerOk(c: Control, job: Job) {
    && (job.answer.Url? ==> job.kind == Start && ScriptResolved(c, job) && c.origin <= job.answer.address)
    && (job.answer == Nothing ==> job.kind == Return && ScriptResolved(c, job))
    && (job.answer == Unsettled <==> job.phase in {Delaying, Running})
    && (job.phase == Abandoned ==> job.kind == Start && job.answer == Failure)
  }

  ghost predicate ShellOk(c: Control, s: Shell) {
    LockOk(s) && forall i :: 0 <= i < |s.jobs| ==> AnswerOk(c, s.jobs[i])
  }

  lemma NextKeepsShell(c: Control, s: Shell, step: Step)
    requires ShellOk(c, s)
    ensures ShellOk(c, Next(c, s, step))
  {
  }

  lemma {:induction false} RunKeepsShell(c: Control, s: Shell, steps: seq<Step>)
    requires ShellOk(c, s)
    ensures ShellOk(c, RunShell(c, s, steps))
  {
    if steps != [] {
      RunKeepsShell(c, s, steps[..|steps| - 1]);
      NextKeepsShell(c, RunShell(c, s, steps[..|steps| - 1]), steps[|steps| - 1]);
    }
  }

  /** The job's script has been started and its promise has not settled. */
  predicate InFlight(c: Control, s: Shell, i: nat) {
    i < |s.jobs| && s.jobs[i].phase == Running && !ScriptSettled(c, s.jobs[i])
  }

  /** In every interleaving at most one start or return script is in flight, and its job holds the lock.
      This needs nothing of the file system. */
  lemma AtMostOneScriptInFlight(c: Control, steps: seq<Step>, i: nat, j: nat)
    requires InFlight(c, RunShell(c, IDLE, steps), i) && InFlight(c, RunShell(c, IDLE, steps), j)
    ensures i == j && RunShell(c, IDLE, steps).transition == Some(i)
  {
    RunKeepsShell(c, IDLE, steps);
  }

  /** No file-system call of a start job threw. */
  ghost predicate FilesHeld(steps: seq<Step>) {
    forall i :: 0 <= i < |steps| ==>
      steps[i] != AskStart(false) && (steps[i].Resume? ==> steps[i].removed)
  }

  lemma {:induction false} NothingAbandoned(c: Control, steps: seq<Step>)
    requires FilesHeld(steps)
    ensures forall i :: 0 <= i < |RunShell(c, IDLE, steps).jobs| ==> RunShell(c, IDLE, steps).jobs[i].phase != Abandoned
  {
    if steps != [] {
      var n := |steps| - 1;
      NothingAbandoned(c, steps[..n]);
      assert steps[n] != AskStart(false);
    }
  }

  /** If file-system calls do not throw, the lock is held exactly while some job is unfinished. */
  lemma LockIsHeldWhileWorking(c: Control, steps: seq<Step>)
    requires FilesHeld(steps)
    ensures var s := RunShell(c, IDLE, steps);
      s.transition.Some? <==> exists i :: 0 <= i < |s.jobs| && s.jobs[i].phase in {Delaying, Running}
  {
    RunKeepsShell(c, IDLE, steps);
    NothingAbandoned(c, steps);
    var s := RunShell(c, IDLE, steps);
    if s.transition.Some? { assert s.jobs[s.transition.value].phase in {Delaying, Running}; }
  }

  /** A job that went on after its script gives the lock back exactly if it is a return or its handoff file
      could be removed. */
  lemma LockIsReleasedUnlessRemovalThrows(c: Control, steps: seq<Step>, id: nat, handoff: Option<Text>, removed: bool)
    requires var s := RunShell(c, IDLE, steps);
      id < |s.jobs| && s.jobs[id].phase == Running && ScriptSettled(c, s.jobs[id])
    ensures var s := RunShell(c, IDLE, steps);
      Next(c, s, Resume(id, handoff, removed)).transition == None <==> s.jobs[id].kind == Return || removed
  {
    RunKeepsShell(c, IDLE, steps);
  }

  /** After a throw from the file system the lock is never given back: no later step starts a job or
      changes one, and every start request receives the same rejection. */
  lemma {:induction false} AbandonedLockIsHeldForever(c: Control, steps: seq<Step>, more: seq<Step>, id: nat)
    requires var s := RunShell(c, IDLE, steps); id < |s.jobs| && s.jobs[id].phase == Abandoned
    ensures var s := RunShell(c, IDLE, steps);
      RunShell(c, s, more) == s && s.transition == Some(id) && s.jobs[id].answer == Failure
  {
    RunKeepsShell(c, IDLE, steps);
    if more != [] {
      AbandonedLockIsHeldForever(c, steps, more[..|more| - 1], id);
      NothingMovesWhileAbandoned(c, RunShell(c, IDLE, steps), more[|more| - 1], id);
    }
  }

  lemma NothingMovesWhileAbandoned(c: Control, s: Shell, step: Step, id: nat)
    requires LockOk(s) && id < |s.jobs| && s.jobs[id].phase == Abandoned
    ensures Next(c, s, step) == s
  {
  }

  /** A start request answered with an address: its script was the first to end by a clean exit in time. */
  lemma AddressMeansCleanExit(c: Control, steps: seq<Step>, id: nat)
    requires var s := RunShell(c, IDLE, steps); id < |s.jobs| && s.jobs[id].answer.Url?
    ensures var job := RunShell(c, IDLE, steps).jobs[id];
      && job.kind == Start && c.origin <= job.answer.address
      && exists f: nat :: FirstEnd(c.machine, job.events, f) && job.events[f] == ChildExit(Some(0))
          && Deadline !in job.events[..f]
  {
    RunKeepsShell(c, IDLE, steps);
    var job := RunShell(c, IDLE, steps).jobs[id];
    assert AnswerOk(c, job);
    var settlements := PowerShellRun.Run(c.machine, job.events).settlements;
    assert settlements[0] in settlements;
    ResolvesOnlyOnCleanExitInTime(c.machine, job.events);
  }

  /** A start request made while a return holds the lock is handed the return's promise, which never
      carries an address. */
  lemma StartDuringReturnGetsNoAddress(c: Control, steps: seq<Step>, made: bool, more: seq<Step>)
    requires var s := RunShell(c, IDLE, steps);
      s.transition.Some? && s.transition.value < |s.jobs| && s.jobs[s.transition.value].kind == Return
    ensures var s := RunShell(c, IDLE, steps); var id := s.transition.value;
      && Next(c, s, AskStart(made)) == s
      && id < |RunShell(c, s, more).jobs| && !RunShell(c, s, more).jobs[id].answer.Url?
  {
    var s := RunShell(c, IDLE, steps);
    RunKeepsShell(c, IDLE, steps);
    RunKeepsShell(c, s, more);
    JobsKeepTheirKind(c, s, more, s.transition.value);
    assert AnswerOk(c, RunShell(c, s, more).jobs[s.transition.value]);
  }

  lemma {:induction false} JobsKeepTheirKind(c: Control, s: Shell, steps: seq<Step>, id: nat)
    requires id < |s.jobs|
    ensures id < |RunShell(c, s, steps).jobs| && RunShell(c, s, steps).jobs[id].kind == s.jobs[id].kind
  {
    if steps != [] { JobsKeepTheirKind(c, s, steps[..|steps| - 1], id); }
  }

  lemma RunOneStep(c: Control, s: Shell, steps: seq<Step>, step: Step)
    ensures RunShell(c, s, steps + [step]) == Next(c, RunShell(c, s, steps), step)
  {
    assert (steps + [step])[..|steps|] == steps;
  }

  lemma DeliverTwo(c: Control, s: Shell, id: nat, e: Event, f: Event)
    requires id < |s.jobs| && s.jobs[id].phase == Running
    ensures var t := Next(c, Next(c, s, Script(id, e)), Script(id, f));
      && t.transition == s.transition && |t.jobs| == |s.jobs|
      && t.jobs[id] == s.jobs[id].(events := (s.jobs[id].events + [e]) + [f])
  {
  }

  lemma ResumeReleases(c: Control, s: Shell, id: nat)
    requires id < |s.jobs| && s.jobs[id].phase == Running && ScriptSettled(c, s.jobs[id])
    ensures Next(c, s, Resume(id, None, true)).transition == None
  {
  }

  /** A running job is never stuck on its script: its timers alone lead to the release of the lock. */
  lemma TimersLeadToRelease(c: Control, steps: seq<Step>, id: nat)
    requires var s := RunShell(c, IDLE, steps); id < |s.jobs| && s.jobs[id].phase == Running
    ensures RunShell(c, IDLE,
        ((steps + [Script(id, Deadline)]) + [Script(id, KillerDeadline)]) + [Resume(id, None, true)]).transition == None
  {
    var s := RunShell(c, IDLE, steps);
    var one := steps + [Script(id, Deadline)];
    var two := one + [Script(id, KillerDeadline)];
    RunOneStep(c, IDLE, steps, Script(id, Deadline));
    RunOneStep(c, IDLE, one, Script(id, KillerDeadline));
    RunOneStep(c, IDLE, two, Resume(id, None, true));
    DeliverTwo(c, s, id, Deadline, KillerDeadline);
    TimersAlwaysSettle(c.machine, s.jobs[id].events);
    ResumeReleases(c, RunShell(c, IDLE, two), id);
  }
}
