/** What the shard planner guarantees: Graham's bound for longest-first placement, balance after
    every placement, independence of the input order, and that every file is run exactly once. */
module ShardBounds {
  import opened Sorting
  import opened CodeUnits
  import opened Options
  import opened Totals
  import opened ShardScheduler

  /** Any other way of giving the same files to `m` shards. */
  ghost predicate Assigns(shards: seq<seq<File>>, files: seq<File>, m: nat) {
    |shards| == m && multiset(Flatten(shards)) == multiset(files)
  }

  function MaxLoad(w: File -> nat, shards: seq<seq<File>>): (r: nat)
    ensures forall b :: 0 <= b < |shards| ==> Sum(w, shards[b]) <= r
    ensures shards != [] ==> exists b :: 0 <= b < |shards| && r == Sum(w, shards[b])
  {
    if shards == [] then 0
    else
      var n := |shards| - 1;
      var rest := MaxLoad(w, shards[..n]);
      assert forall b :: 0 <= b < n ==> shards[..n][b] == shards[b];
      assert rest == 0 || exists b :: 0 <= b < n && rest == Sum(w, shards[..n][b]) && rest == Sum(w, shards[b]);
      if Sum(w, shards[n]) >= rest then Sum(w, shards[n]) else rest
  }

  // ---------------------------------------------------------------- order and contents

  lemma BeforeIsTotalOrder(w: File -> nat)
    ensures TotalPreorder(Before(w)) && Antisymmetric(Before(w))
  {
    LexIsTotalOrder();
  }

  ghost predicate HeaviestFirst(w: File -> nat, s: seq<File>) {
    forall i, j :: 0 <= i < j < |s| ==> w(s[i]) >= w(s[j])
  }

  lemma SortedIsHeaviestFirst(w: File -> nat, files: seq<File>)
    ensures HeaviestFirst(w, Sort(files, Before(w)))
  {
    BeforeIsTotalOrder(w);
    SortSorts(files, Before(w));
  }

  lemma {:induction false} GreedyAssigns(w: File -> nat, s: seq<File>, m: nat)
    requires m >= 1
    ensures Assigns(Greedy(w, s, m), s, m)
  {
    var g := Greedy(w, s, m);
    if s == [] {
      FlattenOfEmpties(g);
    } else {
      var n := |s| - 1;
      GreedyAssigns(w, s[..n], m);
      var h := Greedy(w, s[..n], m);
      FlattenAppend(h, Lightest(w, h), s[n]);
      assert s == s[..n] + [s[n]];
    }
  }

  lemma ShardsAreGreedySorted(w: File -> nat, files: seq<File>, m: nat)
    requires m >= 1
    ensures var g := Greedy(w, Sort(files, Before(w)), m);
      forall b :: 0 <= b < m ==> multiset(Shards(w, files, m)[b]) == multiset(g[b])
                                 && Sum(w, Shards(w, files, m)[b]) == Sum(w, g[b])
  {
    var g := Greedy(w, Sort(files, Before(w)), m);
    forall b | 0 <= b < m
      ensures multiset(Shards(w, files, m)[b]) == multiset(g[b])
              && Sum(w, Shards(w, files, m)[b]) == Sum(w, g[b])
    {
      SumPermutation(w, Shards(w, files, m)[b], g[b]);
    }
  }

  /** The CI shards over all indices hold every file exactly as often as the input does. */
  lemma EveryFileInExactlyOneShard(w: File -> nat, files: seq<File>, m: nat)
    requires m >= 1
    ensures Assigns(Shards(w, files, m), files, m)
  {
    var s := Sort(files, Before(w));
    GreedyAssigns(w, s, m);
    ShardsAreGreedySorted(w, files, m);
    FlattenPointwise(Shards(w, files, m), Greedy(w, s, m));
  }

  lemma {:induction false} NonEmptyKeepsEverything(shards: seq<seq<File>>)
    ensures Flatten(NonEmptyShards(shards)) == Flatten(shards)
    ensures forall b :: 0 <= b < |NonEmptyShards(shards)| ==> NonEmptyShards(shards)[b] != []
  {
    if shards != [] {
      var n := |shards| - 1;
      NonEmptyKeepsEverything(shards[..n]);
      if shards[n] != [] {
        assert NonEmptyShards(shards)[..|NonEmptyShards(shards)| - 1] == NonEmptyShards(shards[..n]);
      } else {
        assert NonEmptyShards(shards) == NonEmptyShards(shards[..n]);
        assert Flatten(shards) == Flatten(shards[..n]);
      }
    }
  }

  /** A local plan runs every file exactly once and has no empty invocation; it fails exactly when the count,
      five if none is asked for, is below one or some file has no usable weight. */
  lemma LocalPlanRunsEveryFileOnce(files: seq<File>, requested: Option<int>, weightForFile: File -> Reading)
    ensures
      var plan := PlanInvocations(files, Local(requested), weightForFile);
      var count := LocalShardCount(requested);
      && (requested == None ==> count == 5)
      && (plan.Success? <==> count >= 1 && forall f :: f in files ==> weightForFile(f).Weight?)
      && (plan.Success? ==>
            && multiset(Flatten(plan.value)) == multiset(files)
            && (forall b :: 0 <= b < |plan.value| ==> plan.value[b] != [])
            && |plan.value| <= count)
  {
    var count := LocalShardCount(requested);
    PartitionOutcome(files, count, weightForFile);
    if count >= 1 {
      NonEmptyShardsCover(Weights(weightForFile), files, count);
      var plan := NonEmptyShards(Shards(Weights(weightForFile), files, count));
      assert multiset(Flatten(plan)) == multiset(files) && |plan| <= count;
    }
  }

  lemma PartitionOutcome(files: seq<File>, count: int, weightForFile: File -> Reading)
    ensures var r := Partition(files, count, weightForFile);
      && (r.Success? <==> count >= 1 && forall f :: f in files ==> weightForFile(f).Weight?)
      && (r.Success? ==> r.value == Shards(Weights(weightForFile), files, count))
  {
  }

  lemma NonEmptyShardsCover(w: File -> nat, files: seq<File>, m: nat)
    requires m >= 1
    ensures var plan := NonEmptyShards(Shards(w, files, m));
      && multiset(Flatten(plan)) == multiset(files) && |plan| <= m
      && forall b :: 0 <= b < |plan| ==> plan[b] != []
  {
    EveryFileInExactlyOneShard(w, files, m);
    NonEmptyKeepsEverything(Shards(w, files, m));
    NonEmptyIsNoLonger(Shards(w, files, m));
  }

  lemma {:induction false} NonEmptyIsNoLonger(shards: seq<seq<File>>)
    ensures |NonEmptyShards(shards)| <= |shards|
  {
    if shards != [] { NonEmptyIsNoLonger(shards[..|shards| - 1]); }
  }

  /** The CI invocations over all indices are together the whole file list. */
  lemma CiShardsCoverEveryFileOnce(files: seq<File>, count: nat, weightForFile: File -> Reading)
    requires count >= 1 && forall f :: f in files ==> weightForFile(f).Weight?
    ensures exists shards: seq<seq<File>> ::
      && Assigns(shards, files, count)
      && forall index :: 0 <= index < count ==>
           PlanInvocations(files, Ci(count, index), weightForFile) == Success([shards[index]])
  {
    var shards := Shards(Weights(weightForFile), files, count);
    EveryFileInExactlyOneShard(Weights(weightForFile), files, count);
    assert FirstUnusable(files, weightForFile) == |files|;
    forall index | 0 <= index < count
      ensures PlanInvocations(files, Ci(count, index), weightForFile) == Success([shards[index]])
    {
      assert SelectShard(files, count, index, weightForFile) == Success(shards[index]);
    }
  }

  /** The plan depends on which files there are, not on the order they were listed in. */
  lemma ShardsIgnoreInputOrder(w: File -> nat, files: seq<File>, reordered: seq<File>, m: nat)
    requires m >= 1 && multiset(files) == multiset(reordered)
    ensures Shards(w, files, m) == Shards(w, reordered, m)
  {
    BeforeIsTotalOrder(w);
    SortIgnoresInputOrder(files, reordered, Before(w));
  }

  // ---------------------------------------------------------------- balance

  /** No shard exceeds another by more than any one of its own files, its lightest included. */
  ghost predicate Balanced(w: File -> nat, shards: seq<seq<File>>) {
    forall b, c :: 0 <= b < |shards| && 0 <= c < |shards| ==> ExceedsByOneFile(w, shards[b], shards[c])
  }

  ghost predicate ExceedsByOneFile(w: File -> nat, shard: seq<File>, from: seq<File>) {
    forall f :: f in shard ==> Sum(w, shard) <= Sum(w, from) + w(f)
  }

  /** Placing a file no heavier than those already placed keeps the shards balanced. */
  lemma PlaceKeepsBalance(w: File -> nat, h: seq<seq<File>>, x: File, b: nat, c: nat)
    requires h != [] && b < |h| && c < |h|
    requires ExceedsByOneFile(w, h[b], h[c])
    requires forall f :: f in h[b] ==> w(x) <= w(f)
    ensures ExceedsByOneFile(w, Place(w, h, x)[b], Place(w, h, x)[c])
  {
    SumSnoc(w, h[Lightest(w, h)], x);
  }

  /** After every placement the shards are balanced. */
  lemma {:induction false} GreedyIsBalanced(w: File -> nat, s: seq<File>, m: nat)
    requires m >= 1 && HeaviestFirst(w, s)
    ensures Balanced(w, Greedy(w, s, m))
  {
    if s != [] {
      var n := |s| - 1;
      var h := Greedy(w, s[..n], m);
      GreedyIsBalanced(w, s[..n], m);
      forall b, c | 0 <= b < m && 0 <= c < m
        ensures ExceedsByOneFile(w, Greedy(w, s, m)[b], Greedy(w, s, m)[c])
      {
        assert ExceedsByOneFile(w, h[b], h[c]);
        forall f | f in h[b] ensures w(s[n]) <= w(f) { PlacedFileIsInput(w, s[..n], m, b, f); }
        PlaceKeepsBalance(w, h, s[n], b, c);
      }
    }
  }

  lemma PlacedFileIsInput(w: File -> nat, s: seq<File>, m: nat, b: nat, f: File)
    requires m >= 1 && b < m && f in Greedy(w, s, m)[b]
    ensures f in s
  {
    GreedyAssigns(w, s, m);
    FlattenMembers(Greedy(w, s, m), f);
    assert f in multiset(Flatten(Greedy(w, s, m)));
    assert f in multiset(s);
  }

  /** The handed-out shards are balanced too. */
  lemma ShardsAreBalanced(w: File -> nat, files: seq<File>, m: nat)
    requires m >= 1
    ensures Balanced(w, Shards(w, files, m))
  {
    var s := Sort(files, Before(w));
    var g, r := Greedy(w, s, m), Shards(w, files, m);
    SortedIsHeaviestFirst(w, files);
    GreedyIsBalanced(w, s, m);
    ShardsAreGreedySorted(w, files, m);
    forall b, c | 0 <= b < m && 0 <= c < m ensures ExceedsByOneFile(w, r[b], r[c]) {
      assert ExceedsByOneFile(w, g[b], g[c]);
      forall f | f in r[b] ensures f in g[b] { assert f in multiset(r[b]); }
    }
  }

  /** The heaviest shard exceeds any other by at most the weight of one file. */
  lemma ShardSpreadIsOneFile(w: File -> nat, files: seq<File>, m: nat, c: nat)
    requires m >= 1 && files != [] && c < m
    ensures exists f :: f in files && MaxLoad(w, Shards(w, files, m)) <= Sum(w, Shards(w, files, m)[c]) + w(f)
  {
    var r := Shards(w, files, m);
    ShardsAreBalanced(w, files, m);
    var b :| 0 <= b < m && MaxLoad(w, r) == Sum(w, r[b]);
    assert ExceedsByOneFile(w, r[b], r[c]);
    if r[b] == [] {
      assert files[0] in files;
    } else {
      var f := r[b][0];
      ShardFileIsInput(w, files, m, b, f);
      assert f in r[b];
    }
  }

  lemma ShardFileIsInput(w: File -> nat, files: seq<File>, m: nat, b: nat, f: File)
    requires m >= 1 && b < m && f in Shards(w, files, m)[b]
    ensures f in files
  {
    EveryFileInExactlyOneShard(w, files, m);
    FlattenMembers(Shards(w, files, m), f);
    assert f in multiset(Flatten(Shards(w, files, m)));
    assert f in multiset(files);
  }

  // ---------------------------------------------------------------- Graham's bound

  /** Counts how much of a shard of capacity `cap` a file takes next to files of weight at least
      `c`: nothing below `c`, all of it when even one more such file would not fit, else half. */
  function Crowding(w: File -> nat, c: nat, cap: nat): File -> nat {
    (f: File) => if w(f) < c then 0 else if w(f) + c > cap then 2 else 1
  }

  /** When three files of weight `c` exceed the capacity, a shard within it holds crowding at most two. */
  lemma {:induction false} CrowdingAtMostTwo(w: File -> nat, c: nat, cap: nat, shard: seq<File>)
    requires 3 * c > cap && Sum(w, shard) <= cap
    ensures Sum(Crowding(w, c, cap), shard) <= 2
  {
    CrowdingForcesWeight(w, c, cap, shard);
  }

  lemma {:induction false} CrowdingForcesWeight(w: File -> nat, c: nat, cap: nat, shard: seq<File>)
    requires 3 * c > cap
    ensures var v := Sum(Crowding(w, c, cap), shard); var load := Sum(w, shard);
      && (v >= 1 ==> load >= c)
      && (v >= 2 ==> load + c > cap)
      && (v >= 3 ==> load > cap)
  {
    if shard != [] { CrowdingForcesWeight(w, c, cap, shard[..|shard| - 1]); }
  }

  /** A shard of files of weight at least `c` that cannot take one more within capacity holds crowding two. */
  lemma FullShardHasCrowdingTwo(w: File -> nat, c: nat, cap: nat, shard: seq<File>)
    requires c <= cap && Sum(w, shard) + c > cap
    requires forall f :: f in shard ==> w(f) >= c
    ensures Sum(Crowding(w, c, cap), shard) >= 2
  {
    var v := Crowding(w, c, cap);
    var n := |shard| - 1;
    assert shard != [];
    if n == 0 {
      assert Sum(w, shard) == w(shard[0]) && Sum(v, shard) == v(shard[0]);
    } else {
      var m := n - 1;
      assert shard[..n][m] == shard[m];
      assert v(shard[n]) >= 1 && v(shard[m]) >= 1;
      assert Sum(v, shard) == Sum(v, shard[..n][..m]) + v(shard[m]) + v(shard[n]);
    }
  }

  /** The other plan holds crowding at most two per shard, and each of its files fits in a shard. */
  lemma OtherPlanCrowding(w: File -> nat, c: nat, cap: nat, files: seq<File>, m: nat, other: seq<seq<File>>)
    requires Assigns(other, files, m) && 3 * c > cap
    requires forall b :: 0 <= b < m ==> Sum(w, other[b]) <= cap
    ensures Sum(Crowding(w, c, cap), files) <= Times(m, 2)
    ensures forall f :: f in files ==> w(f) <= cap
  {
    var v := Crowding(w, c, cap);
    forall b | 0 <= b < m ensures Sum(v, other[b]) <= 2 { CrowdingAtMostTwo(w, c, cap, other[b]); }
    GroupSumAtMost(v, other, 2);
    GroupSumIsSumOfFlatten(v, other);
    SumPermutation(v, Flatten(other), files);
    forall f | f in files ensures w(f) <= cap {
      assert f in multiset(Flatten(other));
      FlattenMembers(other, f);
      var b :| 0 <= b < m && f in other[b];
      SumOfMember(w, other[b], f);
    }
  }

  /** The load of the shard the next file goes to, once the files of `placed` are placed. */
  function LightestLoad(w: File -> nat, placed: seq<File>, m: nat): nat
    requires m >= 1
  {
    var g := Greedy(w, placed, m);
    Sum(w, g[Lightest(w, g)])
  }

  /** If no shard of this plan can take one more file of weight `c`, the files placed so far hold
      crowding at least two per shard. */
  lemma FullPlanCrowding(w: File -> nat, c: nat, cap: nat, prefix: seq<File>, m: nat)
    requires m >= 1 && c <= cap
    requires forall f :: f in prefix ==> w(f) >= c
    requires LightestLoad(w, prefix, m) + c > cap
    ensures Sum(Crowding(w, c, cap), prefix) >= Times(m, 2)
  {
    var v := Crowding(w, c, cap);
    var g := Greedy(w, prefix, m);
    GreedyAssigns(w, prefix, m);
    forall b | 0 <= b < m ensures 2 <= Sum(v, g[b]) {
      forall f | f in g[b] ensures w(f) >= c { PlacedFileIsInput(w, prefix, m, b, f); }
      FullShardHasCrowdingTwo(w, c, cap, g[b]);
    }
    GroupSumAtLeast(v, g, 2);
    GroupSumIsSumOfFlatten(v, g);
    SumPermutation(v, Flatten(g), prefix);
  }

  /** The files in placement order, and another plan for all of them whose shards stay within `cap`. */
  ghost predicate Rival(w: File -> nat, files: seq<File>, m: nat, other: seq<seq<File>>, cap: nat) {
    && HeaviestFirst(w, files)
    && Assigns(other, files, m)
    && forall b :: 0 <= b < m ==> Sum(w, other[b]) <= cap
  }

  /** A heavy file: if three like it exceed the other plan's heaviest shard, placing it keeps its
      shard within that plan's heaviest shard. */
  lemma HeavyPlacement(w: File -> nat, files: seq<File>, i: nat, m: nat, other: seq<seq<File>>, cap: nat)
    requires m >= 1 && i < |files| && Rival(w, files, m, other, cap)
    requires 3 * w(files[i]) > cap
    ensures LightestLoad(w, files[..i], m) + w(files[i]) <= cap
  {
    var c := w(files[i]);
    var v := Crowding(w, c, cap);
    OtherPlanCrowding(w, c, cap, files, m, other);
    if LightestLoad(w, files[..i], m) + c > cap {
      FullPlanCrowding(w, c, cap, files[..i], m);
      SplitAt(v, files, i);
      assert false;
    }
  }

  lemma SplitAt(v: File -> nat, files: seq<File>, i: nat)
    requires i < |files|
    ensures Sum(v, files[..i]) + v(files[i]) <= Sum(v, files)
  {
    SumConcat(v, files[..i + 1], files[i + 1..]);
    assert files == files[..i + 1] + files[i + 1..];
    assert files[..i + 1] == files[..i] + [files[i]];
    SumSnoc(v, files[..i], files[i]);
  }

  /** Any file: the shard it goes to carries at most the average of the rest. */
  lemma AveragePlacement(w: File -> nat, files: seq<File>, i: nat, m: nat, other: seq<seq<File>>, cap: nat)
    requires m >= 1 && i < |files| && Rival(w, files, m, other, cap)
    ensures Times(m, LightestLoad(w, files[..i], m)) + w(files[i]) <= Times(m, cap)
  {
    var prefix := files[..i];
    var g := Greedy(w, prefix, m);
    GreedyAssigns(w, prefix, m);
    GroupSumAtLeast(w, g, LightestLoad(w, prefix, m));
    GroupSumIsSumOfFlatten(w, g);
    SumPermutation(w, Flatten(g), prefix);
    SplitAt(w, files, i);
    GroupSumAtMost(w, other, cap);
    GroupSumIsSumOfFlatten(w, other);
    SumPermutation(w, Flatten(other), files);
  }

  /** `load` is at most 4/3 - 1/(3m) times `cap`. */
  ghost predicate WithinFourThirds(m: nat, load: nat, cap: nat)
    requires m >= 1
  {
    Times(3 * m, load) <= Times(4 * m - 1, cap)
  }

  lemma LightArithmetic(m: nat, load: nat, c: nat, cap: nat)
    requires m >= 1 && Times(m, load) + c <= Times(m, cap) && 3 * c <= cap
    ensures WithinFourThirds(m, load + c, cap)
  {
    TimesIsProduct(m, load);
    TimesIsProduct(m, cap);
    TimesIsProduct(3 * m, load + c);
    TimesIsProduct(4 * m - 1, cap);
    LightProducts(m, load, c, cap);
  }

  lemma LightProducts(m: nat, load: nat, c: nat, cap: nat)
    requires m >= 1 && m * load + c <= m * cap && 3 * c <= cap
    ensures 3 * m * (load + c) <= (4 * m - 1) * cap
  {
    var products, total, share := m * load, m * cap, m * c;
    LeftProduct(m, load, c);
    RightProduct(m, cap);
    ShareOfCap(m, c, cap);
    assert products + c <= total && total - cap >= 3 * share - 3 * c;
  }

  lemma LeftProduct(m: nat, load: nat, c: nat)
    ensures 3 * m * (load + c) == 3 * (m * load) + 3 * (m * c)
  {
  }

  lemma RightProduct(m: nat, cap: nat)
    requires m >= 1
    ensures (4 * m - 1) * cap == 4 * (m * cap) - cap
  {
  }

  lemma ShareOfCap(m: nat, c: nat, cap: nat)
    requires m >= 1 && 3 * c <= cap
    ensures m * cap - cap >= 3 * (m * c) - 3 * c
  {
    MultiplyMonotone(m - 1, 3 * c, cap);
    assert (m - 1) * cap == m * cap - cap;
    assert (m - 1) * (3 * c) == 3 * (m * c) - 3 * c;
  }

  lemma HeavyArithmetic(m: nat, load: nat, cap: nat)
    requires m >= 1 && load <= cap
    ensures WithinFourThirds(m, load, cap)
  {
    TimesIsProduct(3 * m, load);
    TimesIsProduct(4 * m - 1, cap);
    HeavyProducts(m, load, cap);
  }

  lemma HeavyProducts(m: nat, load: nat, cap: nat)
    requires m >= 1 && load <= cap
    ensures 3 * m * load <= (4 * m - 1) * cap
  {
    MultiplyMonotone(3 * m, load, cap);
    MultiplyMonotone(m - 1, 0, cap);
    assert (4 * m - 1) * cap == 3 * m * cap + (m - 1) * cap;
  }

  lemma MultiplyMonotone(k: nat, a: nat, b: nat)
    requires a <= b
    ensures k * a <= k * b
  {
  }

  /** Placing any file keeps its shard within the bound. */
  lemma PlacementWithinBound(w: File -> nat, files: seq<File>, i: nat, m: nat, other: seq<seq<File>>, cap: nat)
    requires m >= 1 && i < |files| && Rival(w, files, m, other, cap)
    ensures WithinFourThirds(m, LightestLoad(w, files[..i], m) + w(files[i]), cap)
  {
    var load, c := LightestLoad(w, files[..i], m), w(files[i]);
    if 3 * c > cap {
      HeavyPlacement(w, files, i, m, other, cap);
      HeavyArithmetic(m, load + c, cap);
    } else {
      AveragePlacement(w, files, i, m, other, cap);
      LightArithmetic(m, load, c, cap);
    }
  }

  lemma {:induction false} GreedyWithinBound(w: File -> nat, files: seq<File>, i: nat, m: nat,
                                             other: seq<seq<File>>, cap: nat)
    requires m >= 1 && i <= |files| && Rival(w, files, m, other, cap)
    ensures forall b :: 0 <= b < m ==> WithinFourThirds(m, Sum(w, Greedy(w, files[..i], m)[b]), cap)
  {
    if i > 0 {
      GreedyWithinBound(w, files, i - 1, m, other, cap);
      PlacementWithinBound(w, files, i - 1, m, other, cap);
      assert files[..i][..i - 1] == files[..i - 1];
      var h := Greedy(w, files[..i - 1], m);
      SumSnoc(w, h[Lightest(w, h)], files[i - 1]);
    } else {
      HeavyArithmetic(m, 0, cap);
      assert forall b :: 0 <= b < m ==> Sum(w, Greedy(w, files[..i], m)[b]) == 0;
    }
  }

  /** Graham's bound: against every other distribution of the same files over the same number of
      shards, the heaviest planned shard is at most 4/3 - 1/(3m) times that one's heaviest. */
  lemma LongestFirstIsWithinFourThirds(w: File -> nat, files: seq<File>, m: nat, other: seq<seq<File>>)
    requires m >= 1 && Assigns(other, files, m)
    ensures 3 * m * MaxLoad(w, Shards(w, files, m)) <= (4 * m - 1) * MaxLoad(w, other)
  {
    var s := Sort(files, Before(w));
    SortedIsHeaviestFirst(w, files);
    GreedyWithinBound(w, s, |s|, m, other, MaxLoad(w, other));
    assert s[..|s|] == s;
    ShardsAreGreedySorted(w, files, m);
    var b :| 0 <= b < m && MaxLoad(w, Shards(w, files, m)) == Sum(w, Shards(w, files, m)[b]);
    assert WithinFourThirds(m, Sum(w, Greedy(w, s, m)[b]), MaxLoad(w, other));
    WithinFourThirdsAsProduct(m, Sum(w, Greedy(w, s, m)[b]), MaxLoad(w, other));
  }

  lemma WithinFourThirdsAsProduct(m: nat, load: nat, cap: nat)
    requires m >= 1 && WithinFourThirds(m, load, cap)
    ensures 3 * m * load <= (4 * m - 1) * cap
  {
    TimesIsProduct(3 * m, load);
    TimesIsProduct(4 * m - 1, cap);
  }
}
