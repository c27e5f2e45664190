/** The work-package consistency check (scripts/v2/status.js): each issue is found by looking at one
    package and its direct dependencies, yet a clean verdict speaks for the whole dependency graph. */
module PackageStatus {
  import opened Options
  import opened Totals

  type Id = string

  datatype Package = Package(id: Id, status: string, evidence: seq<string>, blockers: seq<Id>)

  datatype Phase = Phase(id: Id, packages: seq<Package>)

  datatype Progress = Progress(version: string, phases: seq<Phase>, currentPhase: Id, currentPackage: Option<Id>)

  const EXPECTED_VERSION := "2.1.1"

  /** What the check reads beside PROGRESS.json: the files that exist and the recorded blockers. */
  datatype Repository = Repository(files: set<string>, blockers: set<Id>)

  type Dependencies = map<Id, seq<Id>>

  datatype Issue =
    | WrongVersion
    | PhaseNotUnique
    | CurrentPackageNotUnique
    | ManyReady
    | CompleteWithoutRecord(id: Id)
    | RecordButNotComplete(id: Id)
    | DependencyNotComplete(id: Id, dependency: Id)
    | BlockerMissing(id: Id, blocker: Id)
    | NoPackageRecord(id: Id)

  /** `P0_DEPENDENCIES`. */
  const P0: Dependencies := map[
    "P0-W01" := [],
    "P0-W02" := ["P0-W01"],
    "P0-W03" := ["P0-W02"],
    "P0-W04" := ["P0-W03"],
    "P0-W04A" := ["P0-W04"],
    "P0-W04B" := ["P0-W04A"],
    "P0-W05" := ["P0-W01", "P0-W02", "P0-W03", "P0-W04", "P0-W04A", "P0-W04B"]]

  // ---------------------------------------------------------------- reading the state

  function CompletionPath(id: Id): string {
    "docs/v2/evidence/packages/" + id + "/COMPLETION.md"
  }

  function RecordPath(id: Id): string {
    "docs/v2/work-packages/" + id + ".md"
  }

  function ForwardSlashes(path: string): string {
    seq(|path|, i requires 0 <= i < |path| => if path[i] == '\\' then '/' else path[i])
  }

  /** `hasEvidence`. */
  predicate HasEvidence(p: Package, path: string) {
    exists i :: 0 <= i < |p.evidence| && ForwardSlashes(p.evidence[i]) == path
  }

  /** Complete, with a completion record that exists and is listed. */
  predicate Proven(repository: Repository, p: Package, id: Id) {
    p.status == "complete" && CompletionPath(id) in repository.files && HasEvidence(p, CompletionPath(id))
  }

  /** `packages.find((entry) => entry.id === id)`. */
  function Find(packages: seq<Package>, id: Id): (r: Option<Package>)
    ensures r.Some? ==> r.value in packages && r.value.id == id
    ensures r.None? ==> forall p :: p in packages ==> p.id != id
  {
    if packages == [] then None
    else if packages[0].id == id then Some(packages[0])
    else Find(packages[1..], id)
  }

  function DependenciesOf(deps: Dependencies, id: Id): seq<Id> {
    if id in deps then deps[id] else []
  }

  function PhaseHasId(id: Id): Phase -> bool {
    (phase: Phase) => phase.id == id
  }

  function HasId(id: Id): Package -> bool {
    (p: Package) => p.id == id
  }

  function IsReady(): Package -> bool {
    (p: Package) => p.status == "ready"
  }

  function IsStarted(): Package -> bool {
    (p: Package) => p.status != "backlog"
  }

  /** The packages of the first phase with the current phase's name. */
  function CurrentPackages(progress: Progress): seq<Package> {
    var matches := Filter(PhaseHasId(progress.currentPhase), progress.phases);
    if matches == [] then [] else matches[0].packages
  }

  function CurrentMatches(progress: Progress): seq<Package> {
    if progress.currentPackage.None? then []
      else Filter(HasId(progress.currentPackage.value), CurrentPackages(progress))
  }

  function Ready(progress: Progress): seq<Package> {
    Filter(IsReady(), CurrentPackages(progress))
  }

  function Focus(progress: Progress): Option<Package> {
    if CurrentMatches(progress) != [] then Some(CurrentMatches(progress)[0])
    else if Ready(progress) != [] then Some(Ready(progress)[0])
    else None
  }

  // ---------------------------------------------------------------- the issues

  function RecordIssues(repository: Repository, p: Package): seq<Issue> {
    var onDisk := CompletionPath(p.id) in repository.files;
    (if p.status == "complete" && (!onDisk || !HasEvidence(p, CompletionPath(p.id)))
      then [CompleteWithoutRecord(p.id)] else [])
    + (if p.status != "complete" && onDisk then [RecordButNotComplete(p.id)] else [])
  }

  function DependencyIssue(repository: Repository, packages: seq<Package>, id: Id, dependency: Id): seq<Issue> {
    var found := Find(packages, dependency);
    if found.None? || !Proven(repository, found.value, dependency) then [DependencyNotComplete(id, dependency)] else []
  }

  function RecordIssuesOf(repository: Repository): Package -> seq<Issue> {
    (p: Package) => RecordIssues(repository, p)
  }

  function DependencyIssueOf(repository: Repository, packages: seq<Package>, id: Id): Id -> seq<Issue> {
    (dependency: Id) => DependencyIssue(repository, packages, id, dependency)
  }

  function DependencyIssuesOf(deps: Dependencies, repository: Repository,
                              packages: seq<Package>): Package -> seq<Issue> {
    (p: Package) => FlatMap(DependencyIssueOf(repository, packages, p.id), DependenciesOf(deps, p.id))
  }

  /** The issues behind the verdict on dependencies and completion. */
  function CompletionIssues(deps: Dependencies, repository: Repository, packages: seq<Package>): seq<Issue> {
    FlatMap(RecordIssuesOf(repository), packages)
    + FlatMap(DependencyIssuesOf(deps, repository, packages), Filter(IsStarted(), packages))
  }

  function SelectionIssues(progress: Progress): seq<Issue> {
    (if progress.version != EXPECTED_VERSION then [WrongVersion] else [])
    + (if |Filter(PhaseHasId(progress.currentPhase), progress.phases)| != 1 then [PhaseNotUnique] else [])
    + (if progress.currentPackage.Some? && |CurrentMatches(progress)| != 1 then [CurrentPackageNotUnique] else [])
    + (if CurrentMatches(progress) == [] && |Ready(progress)| > 1 then [ManyReady] else [])
  }

  function MissingBlocker(repository: Repository, id: Id): Id -> seq<Issue> {
    (blocker: Id) => if blocker in repository.blockers then [] else [BlockerMissing(id, blocker)]
  }

  /** The references of the package in focus. */
  function FocusIssues(repository: Repository, focused: Option<Package>): seq<Issue> {
    if focused.None? then []
    else
      FlatMap(MissingBlocker(repository, focused.value.id), focused.value.blockers)
      + (if RecordPath(focused.value.id) in repository.files then [] else [NoPackageRecord(focused.value.id)])
  }

  // ---------------------------------------------------------------- the code

  /** The two loops over the current phase's packages. */
  method CheckCompletion(deps: Dependencies, repository: Repository, packages: seq<Package>)
    returns (issues: seq<Issue>)
    ensures issues == CompletionIssues(deps, repository, packages)
    ensures issues == [] <==> RecordsAgree(repository, packages) && DependenciesProven(deps, repository, packages)
  {
    issues := [];
    var recordIssues := RecordIssuesOf(repository);
    for i := 0 to |packages|
      invariant issues == FlatMap(recordIssues, packages[..i])
    {
      var p := packages[i];
      var expected := CompletionPath(p.id);
      var onDisk := expected in repository.files;
      OneMore(recordIssues, packages, i);
      if p.status == "complete" && (!onDisk || !HasEvidence(p, expected)) {
        issues := issues + [CompleteWithoutRecord(p.id)];
      }
      if p.status != "complete" && onDisk {
        issues := issues + [RecordButNotComplete(p.id)];
      }
    }
    assert packages[..|packages|] == packages;
    var started := Filter(IsStarted(), packages);
    var dependencyIssues := DependencyIssuesOf(deps, repository, packages);
    for i := 0 to |started|
      invariant issues == FlatMap(recordIssues, packages) + FlatMap(dependencyIssues, started[..i])
    {
      var found := CheckDependencies(deps, repository, packages, started[i]);
      OneMore(dependencyIssues, started, i);
      ConcatAssociates(FlatMap(recordIssues, packages), FlatMap(dependencyIssues, started[..i]), found);
      issues := issues + found;
    }
    assert started[..|started|] == started;
    CleanIffProven(deps, repository, packages);
  }

  /** The inner loop for one package. */
  method CheckDependencies(deps: Dependencies, repository: Repository, packages: seq<Package>, p: Package)
    returns (issues: seq<Issue>)
    ensures issues == DependencyIssuesOf(deps, repository, packages)(p)
  {
    issues := [];
    var ids := DependenciesOf(deps, p.id);
    var issueOf := DependencyIssueOf(repository, packages, p.id);
    for i := 0 to |ids|
      invariant issues == FlatMap(issueOf, ids[..i])
    {
      var dependency := Find(packages, ids[i]);
      var expected := CompletionPath(ids[i]);
      OneMore(issueOf, ids, i);
      if dependency.None? || dependency.value.status != "complete" || expected !in repository.files
        || !HasEvidence(dependency.value, expected) {
        issues := issues + [DependencyNotComplete(p.id, ids[i])];
      }
    }
    assert ids[..|ids|] == ids;
  }

  lemma OneMore<T, U>(f: T -> seq<U>, s: seq<T>, i: nat)
    requires i < |s|
    ensures FlatMap(f, s[..i + 1]) == FlatMap(f, s[..i]) + f(s[i])
  {
    assert s[..i + 1] == s[..i] + [s[i]];
    FlatMapConcat(f, s[..i], [s[i]]);
    FlatMapOne(f, s[i]);
  }

  /** The verdict printed as "Dependency/completion consistency". */
  datatype Checked = Checked(issues: seq<Issue>, completionConsistent: bool)

  /** The opening of `checkState`: the current phase, its packages and the package in focus. */
  method SelectPackages(progress: Progress)
    returns (issues: seq<Issue>, packages: seq<Package>, focused: Option<Package>)
    ensures issues == SelectionIssues(progress) && packages == CurrentPackages(progress) && focused == Focus(progress)
  {
    issues := [];
    if progress.version != EXPECTED_VERSION { issues := issues + [WrongVersion]; }
    var phaseMatches := Filter(PhaseHasId(progress.currentPhase), progress.phases);
    if |phaseMatches| != 1 { issues := issues + [PhaseNotUnique]; }
    packages := if phaseMatches == [] then [] else phaseMatches[0].packages;
    var currentMatches := if progress.currentPackage.None? then []
      else Filter(HasId(progress.currentPackage.value), packages);
    if progress.currentPackage.Some? && |currentMatches| != 1 { issues := issues + [CurrentPackageNotUnique]; }
    var ready := Filter(IsReady(), packages);
    if currentMatches == [] && |ready| > 1 { issues := issues + [ManyReady]; }
    focused := if currentMatches != [] then Some(currentMatches[0]) else if ready != [] then Some(ready[0]) else None;
  }

  /** `checkState`, without the hand-off document. */
  method CheckState(deps: Dependencies, repository: Repository, progress: Progress) returns (r: Checked)
    ensures r.issues == SelectionIssues(progress) + CompletionIssues(deps, repository, CurrentPackages(progress))
                        + FocusIssues(repository, Focus(progress))
    ensures r.completionConsistent <==> CompletionIssues(deps, repository, CurrentPackages(progress)) == []
    ensures r.issues == [] <==> Consistent(deps, repository, progress)
  {
    var issues, packages, focused := SelectPackages(progress);
    var start := |issues|;
    var completion := CheckCompletion(deps, repository, packages);
    issues := issues + completion;
    var consistent := |issues| == start;
    var references := CheckFocus(repository, focused);
    issues := issues + references;
    CleanSelectionIff(progress);
    CleanFocusIff(repository, focused);
    r := Checked(issues, consistent);
  }

  method CheckFocus(repository: Repository, focused: Option<Package>) returns (issues: seq<Issue>)
    ensures issues == FocusIssues(repository, focused)
  {
    issues := [];
    if focused.None? { return; }
    var p := focused.value;
    var missing := MissingBlocker(repository, p.id);
    for i := 0 to |p.blockers|
      invariant issues == FlatMap(missing, p.blockers[..i])
    {
      OneMore(missing, p.blockers, i);
      if p.blockers[i] !in repository.blockers { issues := issues + [BlockerMissing(p.id, p.blockers[i])]; }
    }
    assert p.blockers[..|p.blockers|] == p.blockers;
    if RecordPath(p.id) !in repository.files { issues := issues + [NoPackageRecord(p.id)]; }
  }

  // ---------------------------------------------------------------- what a clean verdict means

  ghost predicate FocusRecorded(repository: Repository, focused: Option<Package>) {
    focused.Some? ==>
      && (forall blocker :: blocker in focused.value.blockers ==> blocker in repository.blockers)
      && RecordPath(focused.value.id) in repository.files
  }

  /** Completion records exist and are listed exactly for complete packages. */
  ghost predicate RecordsAgree(repository: Repository, packages: seq<Package>) {
    forall p :: p in packages ==>
      if p.status == "complete" then Proven(repository, p, p.id) else CompletionPath(p.id) !in repository.files
  }

  /** The first package listed under a dependency's name is proven. */
  ghost predicate DependencyProven(repository: Repository, packages: seq<Package>, dependency: Id) {
    Find(packages, dependency).Some? && Proven(repository, Find(packages, dependency).value, dependency)
  }

  ghost predicate DependenciesProven(deps: Dependencies, repository: Repository, packages: seq<Package>) {
    forall p, d :: p in packages && p.status != "backlog" && d in DependenciesOf(deps, p.id) ==>
      DependencyProven(repository, packages, d)
  }

  ghost predicate Consistent(deps: Dependencies, repository: Repository, progress: Progress) {
    && SelectionIsClear(progress)
    && RecordsAgree(repository, CurrentPackages(progress))
    && DependenciesProven(deps, repository, CurrentPackages(progress))
    && FocusRecorded(repository, Focus(progress))
  }

  ghost predicate SelectionIsClear(progress: Progress) {
    && progress.version == EXPECTED_VERSION
    && |Filter(PhaseHasId(progress.currentPhase), progress.phases)| == 1
    && (if progress.currentPackage.Some? then |CurrentMatches(progress)| == 1 else |Ready(progress)| <= 1)
  }

  lemma CleanSelectionIff(progress: Progress)
    ensures SelectionIssues(progress) == [] <==> SelectionIsClear(progress)
  {
  }

  lemma CleanFocusIff(repository: Repository, focused: Option<Package>)
    ensures FocusIssues(repository, focused) == [] <==> FocusRecorded(repository, focused)
  {
    if focused.Some? {
      FlatMapEmptyIff(MissingBlocker(repository, focused.value.id), focused.value.blockers);
    }
  }

  lemma {:induction false} FlatMapEmptyIff<T, U>(f: T -> seq<U>, s: seq<T>)
    ensures FlatMap(f, s) == [] <==> forall x :: x in s ==> f(x) == []
  {
    if s != [] {
      var n := |s| - 1;
      OneMore(f, s, n);
      assert s[..n + 1] == s;
      FlatMapEmptyIff(f, s[..n]);
      assert s[n] in s;
      forall x | x in s ensures x == s[n] || x in s[..n] {}
      forall x | x in s[..n] ensures x in s {}
    }
  }

  lemma NoDependencyIssueIff(deps: Dependencies, repository: Repository, packages: seq<Package>, p: Package)
    ensures DependencyIssuesOf(deps, repository, packages)(p) == [] <==>
              forall d :: d in DependenciesOf(deps, p.id) ==> DependencyProven(repository, packages, d)
  {
    var issueOf := DependencyIssueOf(repository, packages, p.id);
    FlatMapEmptyIff(issueOf, DependenciesOf(deps, p.id));
    forall d ensures issueOf(d) == [] <==> DependencyProven(repository, packages, d) {}
  }

  /** No issue is reported exactly if the records agree with the statuses and every direct dependency of a
      started package is proven. */
  lemma CleanIffProven(deps: Dependencies, repository: Repository, packages: seq<Package>)
    ensures CompletionIssues(deps, repository, packages) == [] <==>
              RecordsAgree(repository, packages) && DependenciesProven(deps, repository, packages)
  {
    var recordIssues := RecordIssuesOf(repository);
    var dependencyIssues := DependencyIssuesOf(deps, repository, packages);
    FlatMapEmptyIff(recordIssues, packages);
    FlatMapEmptyIff(dependencyIssues, Filter(IsStarted(), packages));
    forall p ensures recordIssues(p) == [] <==>
      (if p.status == "complete" then Proven(repository, p, p.id) else CompletionPath(p.id) !in repository.files) {}
    forall p: Package ensures p in Filter(IsStarted(), packages) <==> p in packages && p.status != "backlog" {
      FilterMembers(IsStarted(), packages, p);
    }
    forall p: Package ensures dependencyIssues(p) == [] <==>
      forall d :: d in DependenciesOf(deps, p.id) ==> DependencyProven(repository, packages, d)
    {
      NoDependencyIssueIff(deps, repository, packages, p);
    }
  }

  /** A chain of dependencies: each name is a dependency of the one before it. */
  ghost predicate Chain(deps: Dependencies, path: seq<Id>) {
    |path| >= 1 && forall i :: 0 < i < |path| ==> path[i] in DependenciesOf(deps, path[i - 1])
  }

  /** If the completion check is clean, then every package that is not in backlog has all its transitive
      dependencies complete, with a listed completion record that exists, for any dependency map, even a
      cyclic one. */
  lemma {:induction false} TransitiveDependenciesAreProven(deps: Dependencies, repository: Repository,
                                                           packages: seq<Package>, p: Package, path: seq<Id>)
    requires CompletionIssues(deps, repository, packages) == []
    requires p in packages && p.status != "backlog"
    requires Chain(deps, path) && path[0] == p.id && |path| > 1
    ensures DependencyProven(repository, packages, path[|path| - 1])
    decreases |path|
  {
    CleanIffProven(deps, repository, packages);
    assert path[1] in DependenciesOf(deps, path[1 - 1]);
    assert DependencyProven(repository, packages, path[1]);
    if |path| > 2 {
      var next := Find(packages, path[1]).value;
      var rest := path[1..];
      forall i | 0 < i < |rest| ensures rest[i] in DependenciesOf(deps, rest[i - 1]) {
        assert path[i + 1] in DependenciesOf(deps, path[i + 1 - 1]);
      }
      TransitiveDependenciesAreProven(deps, repository, packages, next, rest);
    }
  }

  /** The place of a package in the table below. */
  function Place(id: Id): nat {
    match id
    case "P0-W01" => 0
    case "P0-W02" => 1
    case "P0-W03" => 2
    case "P0-W04" => 3
    case "P0-W04A" => 4
    case "P0-W04B" => 5
    case "P0-W05" => 6
    case _ => 7
  }

  lemma DependenciesComeEarlier(id: Id, d: Id)
    requires d in DependenciesOf(P0, id)
    ensures Place(d) < Place(id)
  {
  }

  /** The shipped table has no cycle: no chain leads from a package back to itself. */
  lemma {:induction false} ShippedDependenciesAreAcyclic(path: seq<Id>)
    requires Chain(P0, path) && |path| > 1
    ensures Place(path[|path| - 1]) < Place(path[0]) && path[|path| - 1] != path[0]
    decreases |path|
  {
    var n := |path| - 1;
    assert path[n] in DependenciesOf(P0, path[n - 1]);
    DependenciesComeEarlier(path[n - 1], path[n]);
    if n > 1 {
      forall i | 0 < i < n ensures path[..n][i] in DependenciesOf(P0, path[..n][i - 1]) {
        assert path[i] in DependenciesOf(P0, path[i - 1]);
      }
      ShippedDependenciesAreAcyclic(path[..n]);
    }
  }
}
