/** One PowerShell child process behind a promise (scripts/pantheon-standby.js): output, exit, error,
    the deadline and the tree killer race, and the promise must settle once. */
module PowerShellRun {
  import opened ByteChunks
  import opened CodeUnits
  import opened Options
  import opened Totals

  /** `canKillTree` is Windows with a known process id; `read` decodes and trims captured bytes and
      `size` is the byte length of a text. */
  datatype Machine = Machine(canKillTree: bool, read: Bytes -> Text, size: Text -> nat)

  datatype Event =
    | Stdout(chunk: Bytes)
    | Stderr(chunk: Bytes)
    | ChildError(message: Text)
    | ChildExit(code: Option<int>)
    | Deadline
    | KillerGone
    | KillerDeadline

  datatype Outcome =
    | Resolved(stdout: Text, stderr: Text)
    | TimedOut(stdoutBytes: nat, stderrBytes: nat)
    | Failed(message: Text)
    | ExitedWith(code: Option<int>)

  /** How `finish` is called. */
  datatype Ending = WithError(message: Text) | WithCode(code: Option<int>) | WithTimeout

  /** The closure variables of a run. `settlements` lists the calls of `resolve` and `reject`. */
  datatype State = State(
    stdout: seq<Bytes>, stderr: seq<Bytes>, settled: bool, timedOut: bool,
    deadlineArmed: bool, killerSpawned: bool, killerArmed: bool, settlements: seq<Outcome>)

  const LIMIT := 1024 * 1024

  const SPAWNED := State([], [], false, false, true, false, false, [])

  // ---------------------------------------------------------------- the handlers as functions

  /** `retainOutput`. */
  function Retain(target: seq<Bytes>, chunk: Bytes): seq<Bytes> {
    if Sum(Size, target) < LIMIT then target + [chunk] else target
  }

  /** What a settlement at this point reports. */
  function Report(m: Machine, s: State, ending: Ending): Outcome {
    var out, err := m.read(Flatten(s.stdout)), m.read(Flatten(s.stderr));
    if s.timedOut || ending.WithTimeout? then TimedOut(m.size(out), m.size(err))
    else if ending.WithError? then Failed(ending.message)
    else if ending.code == Some(0) then Resolved(out, err)
    else if err != [] then Failed(err)
    else if out != [] then Failed(out)
    else ExitedWith(ending.code)
  }

  /** `finish`. */
  function Finish(m: Machine, s: State, ending: Ending): State {
    if s.settled then s
    else s.(settled := true, deadlineArmed := false, settlements := s.settlements + [Report(m, s, ending)])
  }

  function Handle(m: Machine, s: State, e: Event): State {
    match e
    case Stdout(chunk) => s.(stdout := Retain(s.stdout, chunk))
    case Stderr(chunk) => s.(stderr := Retain(s.stderr, chunk))
    case ChildError(message) => Finish(m, s, WithError(message))
    case ChildExit(code) => Finish(m, s, WithCode(code))
    case Deadline =>
      var expired := s.(timedOut := true, deadlineArmed := false);
      if m.canKillTree then expired.(killerSpawned := true, killerArmed := true) else Finish(m, expired, WithTimeout)
    case KillerGone => Finish(m, s.(killerArmed := false), WithTimeout)
    case KillerDeadline => Finish(m, s.(killerArmed := false), WithTimeout)
  }

  /** A timer fires only while it is armed, and only a spawned killer can report. */
  predicate Possible(s: State, e: Event) {
    match e
    case Deadline => s.deadlineArmed
    case KillerGone => s.killerSpawned
    case KillerDeadline => s.killerArmed
    case _ => true
  }

  /** Any interleaving; events that are not possible when their turn comes do not happen. */
  function Run(m: Machine, events: seq<Event>): State {
    if events == [] then SPAWNED
    else
      var s, e := Run(m, events[..|events| - 1]), events[|events| - 1];
      if Possible(s, e) then Handle(m, s, e) else s
  }

  // ---------------------------------------------------------------- the handlers as the code runs them

  class Promise {
    const m: Machine
    var stdout: seq<Bytes>
    var stderr: seq<Bytes>
    var settled: bool
    var timedOut: bool
    var deadlineArmed: bool
    var killerSpawned: bool
    var killerArmed: bool
    var settlements: seq<Outcome>

    constructor (m: Machine)
      ensures this.m == m && View() == SPAWNED
    {
      this.m := m;
      stdout, stderr, settled, timedOut := [], [], false, false;
      deadlineArmed, killerSpawned, killerArmed, settlements := true, false, false, [];
    }

    function View(): State
      reads this
    {
      State(stdout, stderr, settled, timedOut, deadlineArmed, killerSpawned, killerArmed, settlements)
    }

    /** `retainOutput`: nothing more is kept once a mebibyte has been reached. */
    method RetainOutput(target: seq<Bytes>, chunk: Bytes) returns (kept: seq<Bytes>)
      ensures kept == Retain(target, chunk)
    {
      var total := 0;
      for i := 0 to |target|
        invariant total == Sum(Size, target[..i])
      {
        total := total + |target[i]|;
        assert target[..i + 1] == target[..i] + [target[i]];
        SumSnoc(Size, target[..i], target[i]);
      }
      assert target[..|target|] == target;
      kept := target;
      if total < LIMIT { kept := target + [chunk]; }
    }

    /** `finish`. */
    method Settle(ending: Ending)
      modifies this
      ensures View() == Finish(m, old(View()), ending)
      ensures settled && settlements[..|old(settlements)|] == old(settlements)
      ensures |settlements| == |old(settlements)| + if old(settled) then 0 else 1
    {
      if settled { return; }
      settled := true;
      deadlineArmed := false;
      var out, err := m.read(Flatten(stdout)), m.read(Flatten(stderr));
      if timedOut || ending.WithTimeout? {
        settlements := settlements + [TimedOut(m.size(out), m.size(err))];
        return;
      }
      if ending.WithError? {
        settlements := settlements + [Failed(ending.message)];
        return;
      }
      if ending.code == Some(0) {
        settlements := settlements + [Resolved(out, err)];
        return;
      }
      var failure := if err != [] then Failed(err) else if out != [] then Failed(out) else ExitedWith(ending.code);
      settlements := settlements + [failure];
    }

    method Receive(e: Event)
      modifies this
      ensures View() == Handle(m, old(View()), e)
      ensures old(settlements) <= settlements && |settlements| <= |old(settlements)| + 1
      ensures old(settled) ==> settled && settlements == old(settlements)
    {
      match e {
        case Stdout(chunk) => stdout := RetainOutput(stdout, chunk);
        case Stderr(chunk) => stderr := RetainOutput(stderr, chunk);
        case ChildError(message) => Settle(WithError(message));
        case ChildExit(code) => Settle(WithCode(code));
        case Deadline =>
          deadlineArmed := false;
          timedOut := true;
          if !m.canKillTree {
            Settle(WithTimeout);
          } else {
            killerSpawned, killerArmed := true, true;
          }
        case KillerGone =>
          killerArmed := false;
          Settle(WithTimeout);
        case KillerDeadline =>
          killerArmed := false;
          Settle(WithTimeout);
      }
    }
  }

  // ---------------------------------------------------------------- the race, stated on the events alone

  /** Event `i` is one that settles a promise still pending. */
  ghost predicate Ends(m: Machine, events: seq<Event>, i: nat)
    requires i < |events|
  {
    match events[i]
    case ChildError(_) => true
    case ChildExit(_) => true
    case Deadline => !m.canKillTree
    case KillerGone => Deadline in events[..i]
    case KillerDeadline => Deadline in events[..i]
    case _ => false
  }

  ghost predicate NothingEnds(m: Machine, events: seq<Event>, n: nat)
    requires n <= |events|
  {
    forall i :: 0 <= i < n ==> !Ends(m, events, i)
  }

  ghost predicate FirstEnd(m: Machine, events: seq<Event>, f: nat) {
    f < |events| && Ends(m, events, f) && NothingEnds(m, events, f)
  }

  /** The chunks of one stream, in order of arrival. */
  function Received(events: seq<Event>, errors: bool): seq<Bytes> {
    if events == [] then []
    else
      var before, e := Received(events[..|events| - 1], errors), events[|events| - 1];
      if e.Stdout? && !errors then before + [e.chunk]
      else if e.Stderr? && errors then before + [e.chunk]
      else before
  }

  /** The chunks kept of a stream: the shortest start of it that reaches a mebibyte, or all of it. */
  ghost predicate KeptOf(chunks: seq<Bytes>, kept: seq<Bytes>) {
    && kept <= chunks
    && (kept != [] ==> Sum(Size, kept[..|kept| - 1]) < 1_048_576)
    && (kept != chunks ==> Sum(Size, kept) >= 1_048_576)
  }

  lemma RetainKeeps(chunks: seq<Bytes>, kept: seq<Bytes>, chunk: Bytes)
    requires KeptOf(chunks, kept)
    ensures KeptOf(chunks + [chunk], Retain(kept, chunk))
  {
    if Sum(Size, kept) < LIMIT {
      assert (kept + [chunk])[..|kept|] == kept;
    } else {
      assert kept != chunks + [chunk];
    }
  }

  function StreamOf(s: State, errors: bool): seq<Bytes> {
    if errors then s.stderr else s.stdout
  }

  lemma OnlyOutputChangesStreams(m: Machine, s: State, e: Event, errors: bool)
    ensures StreamOf(Handle(m, s, e), errors) ==
              if errors && e.Stderr? then Retain(s.stderr, e.chunk)
              else if !errors && e.Stdout? then Retain(s.stdout, e.chunk)
              else StreamOf(s, errors)
  {
  }

  /** Output after the limit is dropped whole, whatever the order of events. */
  lemma {:induction false} OutputIsCutAtTheLimit(m: Machine, events: seq<Event>, errors: bool)
    ensures KeptOf(Received(events, errors), StreamOf(Run(m, events), errors))
  {
    if events != [] {
      var before, e := events[..|events| - 1], events[|events| - 1];
      OutputIsCutAtTheLimit(m, before, errors);
      OnlyOutputChangesStreams(m, Run(m, before), e, errors);
      if if errors then e.Stderr? else e.Stdout? {
        RetainKeeps(Received(before, errors), StreamOf(Run(m, before), errors), e.chunk);
      }
    }
  }

  /** While nothing has ended the run, it has not settled, and the timers tell whether the deadline passed. */
  ghost predicate StillPending(m: Machine, events: seq<Event>, s: State) {
    var passed := Deadline in events;
    && !s.settled && s.settlements == [] && s.timedOut == passed && s.deadlineArmed == !passed
    && s.killerSpawned == passed && s.killerArmed == passed && (passed ==> m.canKillTree)
  }

  lemma NothingEndsBefore(m: Machine, events: seq<Event>, n: nat, k: nat)
    requires n <= k <= |events| && NothingEnds(m, events, k)
    ensures NothingEnds(m, events[..k], n)
  {
    forall i | 0 <= i < n ensures !Ends(m, events[..k], i) {
      assert !Ends(m, events, i) && events[..k][..i] == events[..i];
    }
  }

  lemma {:induction false} PendingUntilAnEnd(m: Machine, events: seq<Event>)
    requires NothingEnds(m, events, |events|)
    ensures StillPending(m, events, Run(m, events))
  {
    if events != [] {
      var n := |events| - 1;
      NothingEndsBefore(m, events, n, n);
      PendingUntilAnEnd(m, events[..n]);
      assert !Ends(m, events, n);
      assert events == events[..n] + [events[n]];
    }
  }

  /** Once settled, no event adds a second settlement. */
  lemma {:induction false} SettledStaysSettled(m: Machine, events: seq<Event>, n: nat)
    requires n <= |events| && Run(m, events[..n]).settled
    ensures Run(m, events).settled && Run(m, events).settlements == Run(m, events[..n]).settlements
    decreases |events|
  {
    if n < |events| {
      var k := |events| - 1;
      assert events[..k][..n] == events[..n];
      SettledStaysSettled(m, events[..k], n);
    } else {
      assert events[..n] == events;
    }
  }

  /** How the promise settles when event `f` is the first that ends the run. */
  function Verdict(m: Machine, events: seq<Event>, f: nat): Outcome
    requires f < |events|
  {
    var s := Run(m, events[..f]);
    var out, err := m.read(Flatten(s.stdout)), m.read(Flatten(s.stderr));
    if Deadline in events[..f + 1] then TimedOut(m.size(out), m.size(err))
    else
      match events[f]
      case ChildExit(code) =>
        if code == Some(0) then Resolved(out, err)
        else if err != [] then Failed(err)
        else if out != [] then Failed(out)
        else ExitedWith(code)
      case ChildError(message) => Failed(message)
      case _ => ExitedWith(None)
  }

  lemma FirstEndSettles(m: Machine, events: seq<Event>, f: nat)
    requires FirstEnd(m, events, f)
    ensures Run(m, events[..f + 1]).settled && Run(m, events[..f + 1]).settlements == [Verdict(m, events, f)]
  {
    var s, e := Run(m, events[..f]), events[f];
    NothingEndsBefore(m, events, f, f);
    PendingUntilAnEnd(m, events[..f]);
    var upTo := events[..f + 1];
    assert upTo[..f] == events[..f] && upTo == events[..f] + [e] && upTo[|upTo| - 1] == e;
    assert Possible(s, e);
    assert Run(m, upTo) == Handle(m, s, e);
  }

  /** In every interleaving the promise settles exactly as the first ending event decides, and it stays
      pending if there is none: never more than one settlement. */
  lemma SettlesOnceAsFirstEndDecides(m: Machine, events: seq<Event>)
    ensures |Run(m, events).settlements| <= 1
    ensures NothingEnds(m, events, |events|) ==> Run(m, events).settlements == []
    ensures forall f: nat :: FirstEnd(m, events, f) ==> Run(m, events).settlements == [Verdict(m, events, f)]
  {
    forall f: nat | FirstEnd(m, events, f) ensures Run(m, events).settlements == [Verdict(m, events, f)] {
      FirstEndSettles(m, events, f);
      SettledStaysSettled(m, events, f + 1);
    }
    if NothingEnds(m, events, |events|) {
      PendingUntilAnEnd(m, events);
    } else {
      var f := SomeFirstEnd(m, events, |events|);
    }
  }

  lemma {:induction false} SomeFirstEnd(m: Machine, events: seq<Event>, n: nat) returns (f: nat)
    requires n <= |events| && !NothingEnds(m, events, n)
    ensures FirstEnd(m, events, f)
  {
    if NothingEnds(m, events, n - 1) {
      f := n - 1;
    } else {
      f := SomeFirstEnd(m, events, n - 1);
    }
  }

  lemma EndIsNotBefore(m: Machine, events: seq<Event>, f: nat, k: nat)
    requires FirstEnd(m, events, f) && k <= |events| && NothingEnds(m, events, k)
    ensures k <= f
  {
  }

  /** Once the deadline passes before anything else has ended the run, the only possible settlement is
      the timeout, even if the child exits with code 0 afterwards. */
  lemma TimeoutWins(m: Machine, events: seq<Event>, k: nat)
    requires k < |events| && events[k] == Deadline && NothingEnds(m, events, k)
    ensures forall outcome :: outcome in Run(m, events).settlements ==> outcome.TimedOut?
  {
    SettlesOnceAsFirstEndDecides(m, events);
    if !NothingEnds(m, events, |events|) {
      var f := SomeFirstEnd(m, events, |events|);
      EndIsNotBefore(m, events, f, k);
      assert events[..f + 1][k] == Deadline;
    }
  }

  /** The promise resolves exactly when the first ending event is an exit with code 0 before the deadline. */
  lemma ResolvesOnlyOnCleanExitInTime(m: Machine, events: seq<Event>)
    ensures (exists outcome :: outcome in Run(m, events).settlements && outcome.Resolved?) <==>
              exists f: nat :: FirstEnd(m, events, f) && events[f] == ChildExit(Some(0)) && Deadline !in events[..f]
  {
    SettlesOnceAsFirstEndDecides(m, events);
    forall f: nat | FirstEnd(m, events, f)
      ensures Verdict(m, events, f).Resolved? <==> events[f] == ChildExit(Some(0)) && Deadline !in events[..f]
    {
      assert events[..f + 1] == events[..f] + [events[f]];
    }
    if !NothingEnds(m, events, |events|) {
      var f := SomeFirstEnd(m, events, |events|);
      assert Verdict(m, events, f) in Run(m, events).settlements;
    }
  }

  lemma RunOneMore(m: Machine, events: seq<Event>, e: Event)
    ensures Run(m, events + [e]) == if Possible(Run(m, events), e) then Handle(m, Run(m, events), e) else Run(m, events)
  {
    assert (events + [e])[..|events|] == events;
  }

  /** `settled` is set exactly when the promise has settled. */
  lemma {:induction false} SettledMeansOneSettlement(m: Machine, events: seq<Event>)
    ensures |Run(m, events).settlements| == if Run(m, events).settled then 1 else 0
  {
    if events != [] { SettledMeansOneSettlement(m, events[..|events| - 1]); }
  }

  /** A pending promise is never abandoned: a timer is armed, and once both timers have run out it has settled. */
  lemma TimersAlwaysSettle(m: Machine, events: seq<Event>)
    ensures Run(m, events).settlements == [] ==> Run(m, events).deadlineArmed || Run(m, events).killerArmed
    ensures |Run(m, (events + [Deadline]) + [KillerDeadline]).settlements| == 1
  {
    SettlesOnceAsFirstEndDecides(m, events);
    SettledMeansOneSettlement(m, events);
    RunOneMore(m, events, Deadline);
    RunOneMore(m, events + [Deadline], KillerDeadline);
    SettledMeansOneSettlement(m, (events + [Deadline]) + [KillerDeadline]);
    if NothingEnds(m, events, |events|) {
      PendingUntilAnEnd(m, events);
    } else {
      var f := SomeFirstEnd(m, events, |events|);
    }
  }
  /** The deadline passed before anything else had ended the run. */
  ghost predicate DeadlineCameFirst(m: Machine, events: seq<Event>) {
    exists k :: 0 <= k < |events| && events[k] == Deadline && NothingEnds(m, events, k)
  }

  lemma OneMoreEvent(m: Machine, events: seq<Event>, e: Event)
    ensures DeadlineCameFirst(m, events + [e]) <==>
              DeadlineCameFirst(m, events) || (e == Deadline && NothingEnds(m, events, |events|))
  {
    var more := events + [e];
    forall i | 0 <= i < |events| ensures Ends(m, more, i) <==> Ends(m, events, i) {
      assert more[i] == events[i] && more[..i] == events[..i];
    }
    forall k | 0 <= k <= |events| ensures NothingEnds(m, more, k) <==> NothingEnds(m, events, k) {}
    if DeadlineCameFirst(m, events) {
      var k :| 0 <= k < |events| && events[k] == Deadline && NothingEnds(m, events, k);
      assert more[k] == Deadline && NothingEnds(m, more, k);
    }
    if e == Deadline && NothingEnds(m, events, |events|) {
      assert more[|events|] == Deadline && NothingEnds(m, more, |events|);
    }
  }

  /** The tree killer is started exactly when the deadline comes first and the machine can kill the tree, and
      a settled promise has no deadline left armed. */
  lemma {:induction false} KillerStartsIffDeadlineCameFirst(m: Machine, events: seq<Event>)
    ensures Run(m, events).killerSpawned <==> m.canKillTree && DeadlineCameFirst(m, events)
    ensures Run(m, events).settlements != [] ==> !Run(m, events).deadlineArmed
  {
    SettledMeansOneSettlement(m, events);
    if events != [] {
      var before, e := events[..|events| - 1], events[|events| - 1];
      assert events == before + [e];
      KillerStartsIffDeadlineCameFirst(m, before);
      SettledMeansOneSettlement(m, before);
      SettlesOnceAsFirstEndDecides(m, before);
      OneMoreEvent(m, before, e);
      if NothingEnds(m, before, |before|) {
        PendingUntilAnEnd(m, before);
        if Deadline in before { DeadlineStandsFirst(m, before); }
      } else {
        var f := SomeFirstEnd(m, before, |before|);
      }
    }
  }

  lemma DeadlineStandsFirst(m: Machine, events: seq<Event>)
    requires Deadline in events && NothingEnds(m, events, |events|)
    ensures DeadlineCameFirst(m, events)
  {
    var k :| 0 <= k < |events| && events[k] == Deadline;
    assert NothingEnds(m, events, k);
  }

  /** The deadline came first, and the killer has not been heard of since. */
  ghost predicate KillerIsAwaited(events: seq<Event>, k: nat) {
    && k < |events| && events[k] == Deadline
    && forall j :: k < j < |events| ==> !events[j].KillerGone? && !events[j].KillerDeadline?
  }

  /** The killer's own timer is armed exactly while the killer is awaited, even if the child has ended. */
  lemma {:induction false} KillerTimerRunsWhileAwaited(m: Machine, events: seq<Event>)
    ensures Run(m, events).killerArmed <==>
              m.canKillTree && exists k :: KillerIsAwaited(events, k) && NothingEnds(m, events, k)
  {
    if events != [] {
      var before, e := events[..|events| - 1], events[|events| - 1];
      var n := |before|;
      assert events == before + [e];
      KillerTimerRunsWhileAwaited(m, before);
      KillerStartsIffDeadlineCameFirst(m, before);
      forall i | 0 <= i < n ensures Ends(m, events, i) <==> Ends(m, before, i) {
        assert events[i] == before[i] && events[..i] == before[..i];
      }
      forall k | 0 <= k <= n ensures NothingEnds(m, events, k) <==> NothingEnds(m, before, k) {}
      forall k | 0 <= k < n ensures KillerIsAwaited(events, k) <==>
        KillerIsAwaited(before, k) && !e.KillerGone? && !e.KillerDeadline?
      {
        assert forall j :: k < j < n ==> events[j] == before[j];
        assert events[n] == e;
      }
      assert KillerIsAwaited(events, n) <==> e == Deadline;
      DeadlineFiresWhilePending(m, before);
    }
  }

  lemma DeadlineFiresWhilePending(m: Machine, events: seq<Event>)
    ensures NothingEnds(m, events, |events|) ==>
              && Run(m, events).deadlineArmed == (Deadline !in events)
              && Run(m, events).killerArmed == (Deadline in events)
              && (Deadline in events ==> m.canKillTree)
    ensures !NothingEnds(m, events, |events|) ==> !Run(m, events).deadlineArmed && Run(m, events).settled
  {
    KillerStartsIffDeadlineCameFirst(m, events);
    SettledMeansOneSettlement(m, events);
    SettlesOnceAsFirstEndDecides(m, events);
    if NothingEnds(m, events, |events|) {
      PendingUntilAnEnd(m, events);
    } else {
      var f := SomeFirstEnd(m, events, |events|);
    }
  }
}
