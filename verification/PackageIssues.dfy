/** Which issues the work-package check reports, one by one, and which package it looks at (scripts/v2/status.js). */
module PackageIssues {
  import opened Options
  import opened PackageStatus
  import opened Totals

  lemma {:induction false} FlatMapHolds<T, U>(f: T -> seq<U>, s: seq<T>, x: U)
    ensures x in FlatMap(f, s) <==> exists e :: e in s && x in f(e)
  {
    if s != [] {
      var n := |s| - 1;
      OneMore(f, s, n);
      assert s[..n + 1] == s;
      FlatMapHolds(f, s[..n], x);
      assert s[n] in s;
      forall e | e in s ensures e == s[n] || e in s[..n] {}
      forall e | e in s[..n] ensures e in s {}
    }
  }

  /** The completion record is on disk, and listed with either kind of slash. */
  predicate HasRecord(repository: Repository, p: Package, id: Id) {
    && "docs/v2/evidence/packages/" + id + "/COMPLETION.md" in repository.files
    && exists e :: e in p.evidence && SameButSlashes(e, "docs/v2/evidence/packages/" + id + "/COMPLETION.md")
  }

  predicate SameButSlashes(entry: string, path: string) {
    && |entry| == |path|
    && forall i :: 0 <= i < |path| ==> path[i] == if entry[i] == '\\' then '/' else entry[i]
  }

  lemma RecordIsListed(repository: Repository, p: Package, id: Id)
    ensures (CompletionPath(id) in repository.files && HasEvidence(p, CompletionPath(id))) <==>
              HasRecord(repository, p, id)
  {
    forall e ensures ForwardSlashes(e) == CompletionPath(id) <==> SameButSlashes(e, CompletionPath(id)) {}
    if HasEvidence(p, CompletionPath(id)) {
      var i :| 0 <= i < |p.evidence| && ForwardSlashes(p.evidence[i]) == CompletionPath(id);
      assert p.evidence[i] in p.evidence;
    }
  }

  /** The first package of that name is complete with its record. */
  ghost predicate DependencyIsDone(repository: Repository, packages: seq<Package>, d: Id) {
    exists k :: 0 <= k < |packages| && packages[k].id == d && packages[k].status == "complete"
      && HasRecord(repository, packages[k], d) && forall j :: 0 <= j < k ==> packages[j].id != d
  }

  lemma {:induction false} FoundIsFirst(packages: seq<Package>, id: Id)
    ensures var r := Find(packages, id);
      if r.None? then forall p :: p in packages ==> p.id != id
      else exists k :: 0 <= k < |packages| && r == Some(packages[k]) && packages[k].id == id
             && forall j :: 0 <= j < k ==> packages[j].id != id
  {
    if packages != [] {
      if packages[0].id == id {
        assert Find(packages, id) == Some(packages[0]);
      } else {
        FoundIsFirst(packages[1..], id);
        if Find(packages, id).Some? {
          var k :| 0 <= k < |packages[1..]| && Find(packages, id) == Some(packages[1..][k]) && packages[1..][k].id == id
                   && forall j :: 0 <= j < k ==> packages[1..][j].id != id;
          assert packages[k + 1] == packages[1..][k];
          forall j | 0 <= j < k + 1 ensures packages[j].id != id {
            if j > 0 { assert packages[j] == packages[1..][j - 1]; }
          }
        }
      }
    }
  }

  lemma DependencyIssueIff(repository: Repository, packages: seq<Package>, id: Id, d: Id, issue: Issue)
    ensures issue in DependencyIssue(repository, packages, id, d) <==>
              issue == DependencyNotComplete(id, d) && !DependencyIsDone(repository, packages, d)
  {
    FoundIsFirst(packages, d);
    var found := Find(packages, d);
    if found.Some? {
      RecordIsListed(repository, found.value, d);
      var k :| 0 <= k < |packages| && found == Some(packages[k]) && packages[k].id == d
               && forall j :: 0 <= j < k ==> packages[j].id != d;
      if DependencyIsDone(repository, packages, d) {
        var m :| 0 <= m < |packages| && packages[m].id == d && packages[m].status == "complete"
                 && HasRecord(repository, packages[m], d) && forall j :: 0 <= j < m ==> packages[j].id != d;
        assert m == k;
      }
    } else {
      assert forall m :: 0 <= m < |packages| ==> packages[m] in packages;
    }
  }

  lemma RecordIssueIff(repository: Repository, p: Package, issue: Issue)
    ensures issue in RecordIssues(repository, p) <==>
              || (issue == CompleteWithoutRecord(p.id) && p.status == "complete" && !HasRecord(repository, p, p.id))
              || (issue == RecordButNotComplete(p.id) && p.status != "complete"
                  && "docs/v2/evidence/packages/" + p.id + "/COMPLETION.md" in repository.files)
  {
    RecordIsListed(repository, p, p.id);
  }

  /** Exactly these completion issues are reported: a complete package without its listed record, a record of a
      package that is not complete, and a dependency of a started package that is not done. */
  lemma CompletionIssuesAre(deps: Dependencies, repository: Repository, packages: seq<Package>, issue: Issue)
    ensures issue in CompletionIssues(deps, repository, packages) <==>
              || (exists p :: p in packages && issue == CompleteWithoutRecord(p.id) && p.status == "complete"
                    && !HasRecord(repository, p, p.id))
              || (exists p :: p in packages && issue == RecordButNotComplete(p.id) && p.status != "complete"
                    && "docs/v2/evidence/packages/" + p.id + "/COMPLETION.md" in repository.files)
              || (exists p, d :: p in packages && issue == DependencyNotComplete(p.id, d) && p.status != "backlog"
                    && p.id in deps && d in deps[p.id] && !DependencyIsDone(repository, packages, d))
  {
    var recordIssues, dependencyIssues := RecordIssuesOf(repository), DependencyIssuesOf(deps, repository, packages);
    var started := Filter(IsStarted(), packages);
    FlatMapHolds(recordIssues, packages, issue);
    FlatMapHolds(dependencyIssues, started, issue);
    forall p ensures issue in recordIssues(p) <==> issue in RecordIssues(repository, p) {}
    forall p { RecordIssueIff(repository, p, issue); }
    forall p: Package { FilterMembers(IsStarted(), packages, p); }
    forall p: Package
      ensures issue in dependencyIssues(p) <==>
        exists d :: d in DependenciesOf(deps, p.id) && issue == DependencyNotComplete(p.id, d)
          && !DependencyIsDone(repository, packages, d)
    {
      FlatMapHolds(DependencyIssueOf(repository, packages, p.id), DependenciesOf(deps, p.id), issue);
      forall d { DependencyIssueIff(repository, packages, p.id, d, issue); }
    }
  }

  // ---------------------------------------------------------------- the package in focus

  lemma {:induction false} FilterFirst<T>(p: T -> bool, s: seq<T>, k: nat)
    requires k < |s| && p(s[k]) && forall j :: 0 <= j < k ==> !p(s[j])
    ensures Filter(p, s) != [] && Filter(p, s)[0] == s[k]
  {
    if k > 0 { FilterFirst(p, s[1..], k - 1); }
  }

  lemma {:induction false} NoneFiltered<T>(p: T -> bool, s: seq<T>)
    requires forall j :: 0 <= j < |s| ==> !p(s[j])
    ensures Filter(p, s) == []
  {
    if s != [] { NoneFiltered(p, s[1..]); }
  }

  /** The current package, the first of its name in the current phase, is looked at, ready or not. */
  lemma CurrentPackageIsInFocus(progress: Progress, k: nat)
    requires progress.currentPackage.Some?
    requires var packages := CurrentPackages(progress); var id := progress.currentPackage.value;
      k < |packages| && packages[k].id == id && forall j :: 0 <= j < k ==> packages[j].id != id
    ensures Focus(progress) == Some(CurrentPackages(progress)[k])
  {
    FilterFirst(HasId(progress.currentPackage.value), CurrentPackages(progress), k);
  }

  /** Without a current package in the phase, the first ready one is looked at, if there is one. */
  lemma FirstReadyIsInFocus(progress: Progress)
    requires progress.currentPackage.Some? ==>
      forall j :: 0 <= j < |CurrentPackages(progress)| ==>
        CurrentPackages(progress)[j].id != progress.currentPackage.value
    ensures var packages := CurrentPackages(progress);
      && (forall k :: 0 <= k < |packages| && packages[k].status == "ready"
                      && (forall j :: 0 <= j < k ==> packages[j].status != "ready") ==>
            Focus(progress) == Some(packages[k]))
      && ((forall j :: 0 <= j < |packages| ==> packages[j].status != "ready") ==> Focus(progress) == None)
  {
    var packages := CurrentPackages(progress);
    if progress.currentPackage.Some? { NoneFiltered(HasId(progress.currentPackage.value), packages); }
    forall k | 0 <= k < |packages| && packages[k].status == "ready"
               && (forall j :: 0 <= j < k ==> packages[j].status != "ready")
      ensures Focus(progress) == Some(packages[k])
    {
      FilterFirst(IsReady(), packages, k);
    }
    if forall j :: 0 <= j < |packages| ==> packages[j].status != "ready" { NoneFiltered(IsReady(), packages); }
  }

  /** The packages are those of the first phase of the current name. */
  lemma CurrentPhaseIsFirst(progress: Progress)
    ensures forall k :: 0 <= k < |progress.phases| && progress.phases[k].id == progress.currentPhase
                        && (forall j :: 0 <= j < k ==> progress.phases[j].id != progress.currentPhase) ==>
              CurrentPackages(progress) == progress.phases[k].packages
    ensures (forall j :: 0 <= j < |progress.phases| ==> progress.phases[j].id != progress.currentPhase) ==>
              CurrentPackages(progress) == []
  {
    forall k | 0 <= k < |progress.phases| && progress.phases[k].id == progress.currentPhase
               && (forall j :: 0 <= j < k ==> progress.phases[j].id != progress.currentPhase)
      ensures CurrentPackages(progress) == progress.phases[k].packages
    {
      FilterFirst(PhaseHasId(progress.currentPhase), progress.phases, k);
    }
    if forall j :: 0 <= j < |progress.phases| ==> progress.phases[j].id != progress.currentPhase {
      NoneFiltered(PhaseHasId(progress.currentPhase), progress.phases);
    }
  }

  /** Exactly these issues of the selection are reported. */
  lemma SelectionIssuesAre(progress: Progress, issue: Issue)
    ensures issue in SelectionIssues(progress) <==>
              || (issue == WrongVersion && progress.version != "2.1.1")
              || (issue == PhaseNotUnique && |Filter(PhaseHasId(progress.currentPhase), progress.phases)| != 1)
              || (issue == CurrentPackageNotUnique && progress.currentPackage.Some?
                  && |Filter(HasId(progress.currentPackage.value), CurrentPackages(progress))| != 1)
              || (issue == ManyReady && |Filter(IsReady(), CurrentPackages(progress))| > 1
                  && (progress.currentPackage.Some? ==>
                        Filter(HasId(progress.currentPackage.value), CurrentPackages(progress)) == []))
  {
  }

  /** Exactly these issues of the package in focus are reported. */
  lemma FocusIssuesAre(repository: Repository, p: Package, issue: Issue)
    ensures FocusIssues(repository, None) == []
    ensures issue in FocusIssues(repository, Some(p)) <==>
              || (exists b :: b in p.blockers && b !in repository.blockers && issue == BlockerMissing(p.id, b))
              || (issue == NoPackageRecord(p.id) && "docs/v2/work-packages/" + p.id + ".md" !in repository.files)
  {
    FlatMapHolds(MissingBlocker(repository, p.id), p.blockers, issue);
  }
}
