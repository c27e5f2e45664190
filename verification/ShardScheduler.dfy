/** The test-shard planner: files are sorted heaviest first and each goes to the shard that is
    lightest at that moment (scripts/test-shards.js). */
module ShardScheduler {
  import opened Sorting
  import opened CodeUnits
  import opened Options
  import opened Totals

  type File = Text

  /** What `Number(weightForFile(file))` gives: a usable weight, or a value that is not finite or is negative. */
  datatype Reading = Unusable | Weight(value: nat)

  datatype Error = InvalidShardCount | InvalidShardIndex | InvalidWeight(file: File)

  datatype Result<+T> = Success(value: T) | Failure(error: Error)

  const LOCAL_ORDINARY_SHARD_COUNT := 5

  // ---------------------------------------------------------------- the plan as a function

  function Weights(weightForFile: File -> Reading): File -> nat {
    (f: File) => var r := weightForFile(f); if r.Weight? then r.value else 0
  }

  /** The comparator: heavier first, equal weights in code-unit order. */
  function Before(w: File -> nat): (File, File) -> bool {
    (a: File, b: File) => w(a) > w(b) || (w(a) == w(b) && LexLe(a, b))
  }

  /** The index of the lightest shard, the first one on a tie. */
  function Lightest(w: File -> nat, shards: seq<seq<File>>): (k: nat)
    requires shards != []
    ensures k < |shards|
    ensures forall j :: 0 <= j < |shards| ==> Sum(w, shards[k]) <= Sum(w, shards[j])
    ensures forall j :: 0 <= j < k ==> Sum(w, shards[k]) < Sum(w, shards[j])
  {
    var n := |shards| - 1;
    if n == 0 then 0
    else
      var k := Lightest(w, shards[..n]);
      assert forall j :: 0 <= j < n ==> shards[..n][j] == shards[j];
      if Sum(w, shards[n]) < Sum(w, shards[k]) then n else k
  }

  function Place(w: File -> nat, shards: seq<seq<File>>, f: File): (r: seq<seq<File>>)
    requires shards != []
    ensures |r| == |shards|
  {
    var k := Lightest(w, shards);
    shards[k := shards[k] + [f]]
  }

  /** The shards after the files of `s` were placed in order. */
  function Greedy(w: File -> nat, s: seq<File>, m: nat): (r: seq<seq<File>>)
    requires m >= 1
    ensures |r| == m
  {
    if s == [] then seq(m, _ => [])
    else Place(w, Greedy(w, s[..|s| - 1], m), s[|s| - 1])
  }

  /** A shard's files as they are handed out: in code-unit order. */
  function Sorted(files: seq<File>): seq<File> {
    Sort(files, LexLe)
  }

  /** The shards handed out: every shard's files in code-unit order. */
  function Shards(w: File -> nat, files: seq<File>, m: nat): (r: seq<seq<File>>)
    requires m >= 1
    ensures |r| == m
  {
    var placed := Greedy(w, Sort(files, Before(w)), m);
    seq(m, b requires 0 <= b < m => Sorted(placed[b]))
  }

  function FirstUnusable(files: seq<File>, weightForFile: File -> Reading): (k: nat)
    ensures k <= |files|
    ensures k < |files| ==> weightForFile(files[k]).Unusable?
    ensures forall j :: 0 <= j < k ==> weightForFile(files[j]).Weight?
  {
    if files == [] || weightForFile(files[0]).Unusable? then 0
    else 1 + FirstUnusable(files[1..], weightForFile)
  }

  function Partition(files: seq<File>, shardCount: int, weightForFile: File -> Reading): Result<seq<seq<File>>> {
    if shardCount < 1 then Failure(InvalidShardCount)
    else
      var bad := FirstUnusable(files, weightForFile);
      if bad < |files| then Failure(InvalidWeight(files[bad]))
      else Success(Shards(Weights(weightForFile), files, shardCount))
  }

  function SelectShard(files: seq<File>, shardCount: int, shardIndex: int, weightForFile: File -> Reading)
    : Result<seq<File>>
  {
    if shardIndex < 0 || shardIndex >= shardCount then Failure(InvalidShardIndex)
    else match Partition(files, shardCount, weightForFile)
      case Failure(e) => Failure(e)
      case Success(shards) => if shardIndex < |shards| then Success(shards[shardIndex]) else Failure(InvalidShardIndex)
  }

  /** How the runner was asked to invoke the tests. */
  datatype Mode = Explicit | LifecycleCi | Ci(shardCount: int, shardIndex: int) | Local(localShardCount: Option<int>)

  function NonEmptyShards(shards: seq<seq<File>>): seq<seq<File>> {
    if shards == [] then []
    else
      var n := |shards| - 1;
      NonEmptyShards(shards[..n]) + if shards[n] != [] then [shards[n]] else []
  }

  /** `options.localShardCount ?? LOCAL_ORDINARY_SHARD_COUNT`. */
  function LocalShardCount(requested: Option<int>): int {
    if requested.Some? then requested.value else LOCAL_ORDINARY_SHARD_COUNT
  }

  function PlanInvocations(files: seq<File>, mode: Mode, weightForFile: File -> Reading): Result<seq<seq<File>>> {
    match mode
    case Explicit => Success([files])
    case LifecycleCi => Success([files])
    case Ci(count, index) =>
      (match SelectShard(files, count, index, weightForFile)
       case Failure(e) => Failure(e)
       case Success(shard) => Success([shard]))
    case Local(count) =>
      (match Partition(files, LocalShardCount(count), weightForFile)
       case Failure(e) => Failure(e)
       case Success(shards) => Success(NonEmptyShards(shards)))
  }

  // ---------------------------------------------------------------- the code, step by step

  /** One mutable shard record. */
  class Shard {
    const index: nat
    var files: seq<File>
    var weight: nat

    constructor (index: nat)
      ensures this.index == index && files == [] && weight == 0
    {
      this.index := index;
      files, weight := [], 0;
    }
  }

  /** The shard records hold exactly the groups `g` and their running weights. */
  ghost predicate Holds(w: File -> nat, shards: seq<Shard>, g: seq<seq<File>>)
    reads shards
  {
    && |shards| == |g|
    && (forall i, j :: 0 <= i < j < |shards| ==> shards[i] != shards[j])
    && (forall i :: 0 <= i < |shards| ==>
          shards[i].index == i && shards[i].files == g[i] && shards[i].weight == Sum(w, g[i]))
  }

  /** The `reduce` of the placement loop. */
  method FindLightest(w: File -> nat, shards: seq<Shard>, ghost g: seq<seq<File>>) returns (target: Shard)
    requires shards != [] && Holds(w, shards, g)
    ensures target == shards[Lightest(w, g)]
  {
    target := shards[0];
    ghost var at := 0;
    for i := 1 to |shards|
      invariant 0 <= at < i && target == shards[at]
      invariant forall j :: 0 <= j < i ==> target.weight <= shards[j].weight
      invariant forall j :: 0 <= j < at ==> target.weight < shards[j].weight
    {
      var candidate := shards[i];
      if candidate.weight < target.weight {
        target, at := candidate, i;
      } else if candidate.weight > target.weight {
      } else if candidate.index < target.index {
        target, at := candidate, i;
      }
    }
    FirstLeastIsLightest(w, g, at);
  }

  lemma FirstLeastIsLightest(w: File -> nat, g: seq<seq<File>>, k: nat)
    requires k < |g|
    requires forall j :: 0 <= j < |g| ==> Sum(w, g[k]) <= Sum(w, g[j])
    requires forall j :: 0 <= j < k ==> Sum(w, g[k]) < Sum(w, g[j])
    ensures k == Lightest(w, g)
  {
  }

  method EmptyShards(w: File -> nat, shardCount: nat) returns (shards: seq<Shard>)
    ensures fresh(shards)
    ensures Holds(w, shards, seq(shardCount, _ => []))
  {
    shards := [];
    for i := 0 to shardCount
      invariant |shards| == i && fresh(shards)
      invariant Holds(w, shards, seq(i, _ => []))
    {
      var shard := new Shard(i);
      shards := shards + [shard];
    }
  }

  /** One turn of the placement loop. */
  method PlaceFile(w: File -> nat, shards: seq<Shard>, entry: File, ghost g: seq<seq<File>>)
    requires shards != [] && Holds(w, shards, g)
    modifies shards
    ensures Holds(w, shards, Place(w, g, entry))
  {
    var target := FindLightest(w, shards, g);
    target.files := target.files + [entry];
    target.weight := target.weight + w(entry);
    SumSnoc(w, g[Lightest(w, g)], entry);
  }

  /** The final `map`: every shard's files are put in order in place and handed out. */
  method HandOut(w: File -> nat, shards: seq<Shard>, ghost g: seq<seq<File>>, order: seq<File> -> seq<File>)
    returns (out: seq<seq<File>>)
    requires Holds(w, shards, g)
    modifies shards
    ensures |out| == |g| && forall b :: 0 <= b < |g| ==> out[b] == order(g[b])
  {
    out := [];
    for i := 0 to |shards|
      invariant |out| == i && |shards| == |g|
      invariant forall b, c :: 0 <= b < c < |shards| ==> shards[b] != shards[c]
      invariant forall b :: 0 <= b < i ==> out[b] == order(g[b])
      invariant forall b :: i <= b < |shards| ==> shards[b].files == g[b]
    {
      var shard := shards[i];
      shard.files := order(shard.files);
      out := out + [shard.files];
    }
  }

  /** The placement loop. */
  method PlaceInOrder(w: File -> nat, shards: seq<Shard>, weighted: seq<File>)
    requires shards != [] && Holds(w, shards, seq(|shards|, _ => []))
    modifies shards
    ensures Holds(w, shards, Greedy(w, weighted, |shards|))
  {
    ghost var g := Greedy(w, [], |shards|);
    for i := 0 to |weighted|
      invariant Holds(w, shards, g)
      invariant g == Greedy(w, weighted[..i], |shards|)
    {
      PlaceFile(w, shards, weighted[i], g);
      g := Place(w, g, weighted[i]);
      assert weighted[..i + 1][..i] == weighted[..i];
    }
    assert weighted[..|weighted|] == weighted;
  }

  /** Sorting, placement and the hand-out. */
  method PlaceAll(files: seq<File>, shardCount: nat, w: File -> nat) returns (out: seq<seq<File>>)
    requires shardCount >= 1
    ensures out == Shards(w, files, shardCount)
  {
    var weighted := Sort(files, Before(w));
    var shards := EmptyShards(w, shardCount);
    PlaceInOrder(w, shards, weighted);
    out := HandOut(w, shards, Greedy(w, weighted, shardCount), Sorted);
  }

  lemma ShardsAscend(w: File -> nat, files: seq<File>, m: nat)
    requires m >= 1
    ensures var shards := Shards(w, files, m);
      forall b, i, j :: 0 <= b < m && 0 <= i < j < |shards[b]| ==> LexLe(shards[b][i], shards[b][j])
  {
    LexIsTotalOrder();
    forall b | 0 <= b < m ensures SortedBy(Shards(w, files, m)[b], LexLe) {
      SortSorts(Greedy(w, Sort(files, Before(w)), m)[b], LexLe);
    }
  }

  method PartitionTestFiles(files: seq<File>, shardCount: int, weightForFile: File -> Reading)
    returns (r: Result<seq<seq<File>>>)
    ensures r == Partition(files, shardCount, weightForFile)
    ensures r.Success? ==>
              |r.value| == shardCount
              && forall b, i, j :: 0 <= b < |r.value| && 0 <= i < j < |r.value[b]| ==>
                   LexLe(r.value[b][i], r.value[b][j])
  {
    if shardCount < 1 { return Failure(InvalidShardCount); }
    for i := 0 to |files|
      invariant i <= FirstUnusable(files, weightForFile)
    {
      if weightForFile(files[i]).Unusable? { return Failure(InvalidWeight(files[i])); }
    }
    var out := PlaceAll(files, shardCount, Weights(weightForFile));
    ShardsAscend(Weights(weightForFile), files, shardCount);
    r := Success(out);
  }
}
