/** The plans as they are handed out: the order of files, which shard an invocation gets, and every refusal
    (scripts/test-shards.js). */
module ShardPlans {
  import opened CodeUnits
  import opened ShardBounds
  import opened ShardScheduler
  import opened Sorting

  /** The first place where two texts differ decides; a start of a text comes before it. */
  ghost predicate ComesBefore(a: Text, b: Text) {
    a <= b || exists k :: 0 <= k < |a| && k < |b| && a[..k] == b[..k] && a[k] < b[k]
  }

  lemma {:induction false} LexIsByFirstDifference(a: Text, b: Text)
    ensures LexLe(a, b) <==> ComesBefore(a, b)
  {
    if a != [] && b != [] {
      assert a == [a[0]] + a[1..] && b == [b[0]] + b[1..];
      LexIsByFirstDifference(a[1..], b[1..]);
      if a[0] == b[0] {
        ShiftDifference(a[0], a[1..], b[1..]);
      } else {
        assert a[..0] == b[..0];
        OnlyFirstDiffers(a, b);
      }
    }
  }

  lemma OnlyFirstDiffers(a: Text, b: Text)
    requires a != [] && b != [] && a[0] != b[0]
    ensures ComesBefore(a, b) <==> a[0] < b[0]
  {
    if a[0] < b[0] { assert a[..0] == b[..0]; }
    forall k | 0 < k < |a| && k < |b| ensures a[..k] != b[..k] {
      assert a[..k][0] != b[..k][0];
    }
  }

  lemma ShiftDifference(c: CodeUnit, a: Text, b: Text)
    ensures ComesBefore([c] + a, [c] + b) <==> ComesBefore(a, b)
  {
    var x, y := [c] + a, [c] + b;
    if ComesBefore(a, b) && !(a <= b) {
      var k :| 0 <= k < |a| && k < |b| && a[..k] == b[..k] && a[k] < b[k];
      assert x[..k + 1] == [c] + a[..k] && y[..k + 1] == [c] + b[..k];
    }
    if ComesBefore(x, y) && !(x <= y) {
      var k :| 0 <= k < |x| && k < |y| && x[..k] == y[..k] && x[k] < y[k];
      assert x[1..k] == x[..k][1..] && y[1..k] == y[..k][1..];
      assert a[..k - 1] == x[1..k] && b[..k - 1] == y[1..k];
    }
    if x <= y { assert a == x[1..] && b == y[1..] && x[1..] == y[..|x|][1..]; }
  }

  /** Ascending by code units. */
  ghost predicate Ascending(files: seq<File>) {
    forall i, j :: 0 <= i < j < |files| ==> ComesBefore(files[i], files[j])
  }

  /** Files are placed heaviest first, and files of the same weight in ascending order. */
  lemma PlacedByWeightThenName(w: File -> nat, files: seq<File>)
    ensures var placed := Sort(files, Before(w));
      && multiset(placed) == multiset(files)
      && forall i, j :: 0 <= i < j < |placed| ==>
           w(placed[i]) > w(placed[j]) || (w(placed[i]) == w(placed[j]) && ComesBefore(placed[i], placed[j]))
  {
    BeforeIsTotalOrder(w);
    SortSorts(files, Before(w));
    var placed := Sort(files, Before(w));
    forall i, j | 0 <= i < j < |placed|
      ensures w(placed[i]) > w(placed[j]) || (w(placed[i]) == w(placed[j]) && ComesBefore(placed[i], placed[j]))
    {
      assert Before(w)(placed[i], placed[j]);
      LexIsByFirstDifference(placed[i], placed[j]);
    }
  }

  lemma SortedAscends(files: seq<File>)
    ensures multiset(Sorted(files)) == multiset(files) && Ascending(Sorted(files))
  {
    LexIsTotalOrder();
    SortSorts(files, LexLe);
    var s := Sorted(files);
    forall i, j | 0 <= i < j < |s| ensures ComesBefore(s[i], s[j]) {
      assert LexLe(s[i], s[j]);
      LexIsByFirstDifference(s[i], s[j]);
    }
  }

  /** Shard `b` is handed out as the files placed there, in ascending order. */
  lemma ShardsAreHandedOutInOrder(w: File -> nat, files: seq<File>, m: nat, b: nat)
    requires b < m
    ensures var shard := Shards(w, files, m)[b];
      Ascending(shard) && multiset(shard) == multiset(Greedy(w, Sort(files, Before(w)), m)[b])
  {
    SortedAscends(Greedy(w, Sort(files, Before(w)), m)[b]);
  }

  /** The exact outcome of a partition: refused for a count below one, else for the first file in the list without
      a usable weight, else the shards by the weights that were read, each in ascending order. */
  lemma PartitionIsOrderedOrRefused(files: seq<File>, count: int, weightForFile: File -> Reading)
    ensures var r := Partition(files, count, weightForFile);
      if count < 1 then r == Failure(InvalidShardCount)
      else if exists k :: 0 <= k < |files| && weightForFile(files[k]).Unusable? then
        && r.Failure? && r.error.InvalidWeight?
        && exists k :: 0 <= k < |files| && weightForFile(files[k]).Unusable? && r.error.file == files[k]
             && forall j :: 0 <= j < k ==> weightForFile(files[j]).Weight?
      else
        && r.Success? && |r.value| == count && (forall b :: 0 <= b < count ==> Ascending(r.value[b]))
        && r.value == Shards(Weights(weightForFile), files, count)
        && forall f :: f in files ==> weightForFile(f) == Weight(Weights(weightForFile)(f))
  {
    var bad := FirstUnusable(files, weightForFile);
    if count >= 1 && bad == |files| {
      forall f | f in files ensures weightForFile(f).Weight? {
        var k :| 0 <= k < |files| && files[k] == f;
      }
      forall b | 0 <= b < count ensures Ascending(Partition(files, count, weightForFile).value[b]) {
        ShardsAreHandedOutInOrder(Weights(weightForFile), files, count, b);
      }
    }
  }

  /** An invocation of the CI runs exactly the shard of its index, and is refused for an index outside the count
      before anything else. */
  lemma CiRunsItsShard(files: seq<File>, count: int, index: int, weightForFile: File -> Reading)
    ensures var r := PlanInvocations(files, Ci(count, index), weightForFile);
      var all := Partition(files, count, weightForFile);
      if !(0 <= index < count) then r == Failure(InvalidShardIndex)
      else if all.Failure? then r == Failure(all.error)
      else |all.value| == count && r == Success([all.value[index]])
  {
  }

  /** Files named explicitly, or by the lifecycle CI, are one invocation as they are, whatever their weights. */
  lemma NamedFilesRunAsGiven(files: seq<File>, weightForFile: File -> Reading)
    ensures PlanInvocations(files, Explicit, weightForFile) == Success([files])
    ensures PlanInvocations(files, LifecycleCi, weightForFile) == Success([files])
  {
  }

  /** A local plan runs the nonempty shards in their order. */
  lemma {:induction false} NonEmptyInOrder(shards: seq<seq<File>>, b: nat)
    requires b < |shards| && shards[b] != []
    ensures var plan := NonEmptyShards(shards);
      |NonEmptyShards(shards[..b])| < |plan| && plan[|NonEmptyShards(shards[..b])|] == shards[b]
  {
    var n := |shards| - 1;
    if b < n {
      assert shards[..n][..b] == shards[..b];
      NonEmptyInOrder(shards[..n], b);
    }
  }
}
