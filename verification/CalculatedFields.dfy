/** Validation of calculated fields and rejection of circular ones
    (scripts/render-digital-product-kit.py). Field names are references already normalised. */
module CalculatedFields {

  /** The operation text, once trimmed; anything outside the four names is `Unknown`. */
  datatype Operation = Multiply | Sum | Subtract | PercentOf | Unknown

  datatype Calculation = Calculation(target: string, operation: Operation, inputs: seq<string>)

  datatype Definition = Definition(target: string, operation: Operation, inputs: seq<string>,
                                   targetColumn: nat, inputColumns: seq<nat>)

  datatype Outcome =
    | Accepted(definitions: seq<Definition>)
    | AmbiguousNames
    | InvalidField(index: nat)
    | Circular(target: string)

  predicate Distinct(headers: seq<string>) {
    forall i, j :: 0 <= i < j < |headers| ==> headers[i] != headers[j]
  }

  /** The workbook column of a header, counted from one. */
  function ColumnOf(headers: seq<string>, name: string): (c: nat)
    requires name in headers
    ensures 1 <= c <= |headers| && headers[c - 1] == name
  {
    if headers[0] == name then 1 else 1 + ColumnOf(headers[1..], name)
  }

  predicate ValidCalculation(headers: seq<string>, targets: set<string>, c: Calculation) {
    && c.target in headers && c.target !in targets
    && c.operation != Unknown
    && 2 <= |c.inputs| <= 6
    && (forall i :: 0 <= i < |c.inputs| ==> c.inputs[i] in headers && c.inputs[i] != c.target)
    && (c.operation != Sum ==> |c.inputs| == 2)
  }

  function Targets(calculations: seq<Calculation>): set<string> {
    set c | c in calculations :: c.target
  }

  predicate AllValid(headers: seq<string>, calculations: seq<Calculation>) {
    forall k :: 0 <= k < |calculations| ==> ValidCalculation(headers, Targets(calculations[..k]), calculations[k])
  }

  function Define(headers: seq<string>, c: Calculation): Definition
    requires c.target in headers && forall i :: 0 <= i < |c.inputs| ==> c.inputs[i] in headers
  {
    Definition(c.target, c.operation, c.inputs, ColumnOf(headers, c.target),
               seq(|c.inputs|, i requires 0 <= i < |c.inputs| => ColumnOf(headers, c.inputs[i])))
  }

  function DefineAll(headers: seq<string>, calculations: seq<Calculation>): (r: seq<Definition>)
    requires AllValid(headers, calculations)
    ensures |r| == |calculations|
  {
    seq(|calculations|, k requires 0 <= k < |calculations| =>
      assert ValidCalculation(headers, Targets(calculations[..k]), calculations[k]);
      Define(headers, calculations[k]))
  }

  // ---------------------------------------------------------------- the dependency graph

  type Graph = map<string, seq<string>>

  function Dependencies(calculations: seq<Calculation>): (g: Graph)
    ensures g.Keys == Targets(calculations)
  {
    if calculations == [] then map[]
    else
      var n := |calculations| - 1;
      assert calculations == calculations[..n] + [calculations[n]];
      Dependencies(calculations[..n])[calculations[n].target := calculations[n].inputs]
  }

  /** One calculated field reads another. */
  predicate Edge(g: Graph, a: string, b: string) {
    a in g && b in g[a] && b in g
  }

  ghost predicate Path(g: Graph, p: seq<string>) {
    p != [] && forall i :: 0 <= i < |p| - 1 ==> Edge(g, p[i], p[i + 1])
  }

  ghost predicate PathFrom(g: Graph, p: seq<string>, a: string, b: string) {
    Path(g, p) && p[0] == a && p[|p| - 1] == b
  }

  ghost predicate Reach(g: Graph, a: string, b: string) {
    exists p :: PathFrom(g, p, a, b)
  }

  ghost predicate OnCycle(g: Graph, t: string) {
    exists v :: Edge(g, t, v) && Reach(g, v, t)
  }

  lemma ReachSelf(g: Graph, a: string)
    ensures Reach(g, a, a)
  {
    assert PathFrom(g, [a], a, a);
  }

  lemma ReachStep(g: Graph, a: string, b: string, c: string)
    requires Edge(g, a, b) && Reach(g, b, c)
    ensures Reach(g, a, c)
  {
    var p :| PathFrom(g, p, b, c);
    assert PathFrom(g, [a] + p, a, c);
  }

  /** A set closed under edges that holds the start and not the target separates them. */
  lemma {:induction false} ClosedSetSeparates(g: Graph, s: set<string>, target: string, p: seq<string>)
    requires target !in s
    requires forall n, d :: n in s && Edge(g, n, d) ==> d in s
    requires Path(g, p) && p[0] in s
    ensures p[|p| - 1] != target
  {
    if |p| > 1 {
      assert Edge(g, p[0], p[1]);
      assert Path(g, p[1..]) by {
        forall i | 0 <= i < |p[1..]| - 1
          ensures Edge(g, p[1..][i], p[1..][i + 1]) { assert Edge(g, p[i + 1], p[i + 2]); }
      }
      ClosedSetSeparates(g, s, target, p[1..]);
    }
  }

  /** What `calculation_definitions` lets through. */
  ghost predicate Accepts(headers: seq<string>, calculations: seq<Calculation>) {
    && Distinct(headers)
    && AllValid(headers, calculations)
    && forall t :: !OnCycle(Dependencies(calculations), t)
  }

  // ---------------------------------------------------------------- the code, step by step

  /** The growing set shared by the whole search. */
  class Visited {
    var seen: set<string>

    constructor ()
      ensures seen == {}
    {
      seen := {};
    }
  }

  /** `reaches(start, target, visiting)`. When it fails, what it added holds `start`, not the target,
      and leads nowhere outside the set. */
  method Reaches(g: Graph, start: string, target: string, visiting: Visited) returns (found: bool)
    modifies visiting
    ensures old(visiting.seen) <= visiting.seen
    ensures found ==> Reach(g, start, target)
    ensures !found ==> start in visiting.seen && start != target
    ensures !found ==> forall n :: n in visiting.seen && n !in old(visiting.seen) ==> n != target
    ensures !found ==> forall n, d :: n in visiting.seen && n !in old(visiting.seen) && Edge(g, n, d) ==>
        d in visiting.seen
    decreases g.Keys - visiting.seen
  {
    if start == target {
      ReachSelf(g, start);
      return true;
    }
    if start in visiting.seen { return false; }
    ghost var before := visiting.seen;
    visiting.seen := visiting.seen + {start};
    var inputs := if start in g then g[start] else [];
    for i := 0 to |inputs|
      invariant before + {start} <= visiting.seen
      invariant forall k :: 0 <= k < i && inputs[k] in g ==> inputs[k] in visiting.seen
      invariant forall n :: n in visiting.seen && n !in before ==> n != target
      invariant forall n, d :: n in visiting.seen && n !in before && n != start && Edge(g, n, d) ==> d in visiting.seen
    {
      var dependency := inputs[i];
      if dependency in g {
        found := Reaches(g, dependency, target, visiting);
        if found {
          ReachStep(g, start, dependency, target);
          return true;
        }
      }
    }
    found := false;
  }

  /** One field of the circularity check: does any of its inputs lead back to it? */
  method LeadsBack(g: Graph, target: string) returns (found: bool)
    requires target in g
    ensures found <==> OnCycle(g, target)
  {
    for i := 0 to |g[target]|
      invariant forall k :: 0 <= k < i && g[target][k] in g ==> !Reach(g, g[target][k], target)
    {
      var value := g[target][i];
      if value in g {
        var visiting := new Visited();
        found := Reaches(g, value, target, visiting);
        if found {
          assert Edge(g, target, value);
          return true;
        }
        if p :| PathFrom(g, p, value, target) {
          ClosedSetSeparates(g, visiting.seen, target, p);
        }
      }
    }
    found := false;
  }

  /** The loop over `dependencies.items()`. */
  method FirstCircular(calculations: seq<Calculation>) returns (k: nat)
    ensures k <= |calculations|
    ensures k < |calculations| ==> OnCycle(Dependencies(calculations), calculations[k].target)
    ensures forall j :: 0 <= j < k ==> !OnCycle(Dependencies(calculations), calculations[j].target)
    ensures k == |calculations| ==> forall t :: !OnCycle(Dependencies(calculations), t)
  {
    var g := Dependencies(calculations);
    k := 0;
    while k < |calculations|
      invariant k <= |calculations|
      invariant forall j :: 0 <= j < k ==> !OnCycle(g, calculations[j].target)
    {
      assert calculations[k].target in Targets(calculations);
      var circular := LeadsBack(g, calculations[k].target);
      if circular { return; }
      k := k + 1;
    }
    forall t ensures !OnCycle(g, t) {
      if t in g {
        var c :| c in calculations && c.target == t;
        var j :| 0 <= j < |calculations| && calculations[j] == c;
      }
    }
  }

  lemma OneMoreValid(headers: seq<string>, calculations: seq<Calculation>, k: nat)
    requires k < |calculations| && AllValid(headers, calculations[..k])
    requires ValidCalculation(headers, Targets(calculations[..k]), calculations[k])
    ensures AllValid(headers, calculations[..k + 1])
    ensures Targets(calculations[..k + 1]) == Targets(calculations[..k]) + {calculations[k].target}
    ensures DefineAll(headers, calculations[..k + 1])
         == DefineAll(headers, calculations[..k]) + [Define(headers, calculations[k])]
  {
    var more := calculations[..k + 1];
    assert more == calculations[..k] + [calculations[k]];
    forall j: nat | j < k + 1
      ensures ValidCalculation(headers, Targets(more[..j]), more[j])
    {
      if j < k {
        assert more[..j] == calculations[..k][..j] && more[j] == calculations[..k][j];
      } else {
        assert more[..j] == calculations[..k];
      }
    }
  }

  /** A definition names its calculation's target, operation and inputs, in order, and the columns under those
      names. */
  predicate Describes(headers: seq<string>, d: Definition, c: Calculation) {
    && d.target == c.target && d.operation == c.operation && d.inputs == c.inputs
    && 1 <= d.targetColumn <= |headers| && headers[d.targetColumn - 1] == c.target
    && |d.inputColumns| == |c.inputs|
    && forall i :: 0 <= i < |c.inputs| ==>
         1 <= d.inputColumns[i] <= |headers| && headers[d.inputColumns[i] - 1] == c.inputs[i]
  }

  lemma DefinitionsDescribe(headers: seq<string>, calculations: seq<Calculation>, k: nat)
    requires AllValid(headers, calculations) && k < |calculations|
    ensures Describes(headers, DefineAll(headers, calculations)[k], calculations[k])
  {
    assert ValidCalculation(headers, Targets(calculations[..k]), calculations[k]);
  }

  /** Everything a calculation is refused for. */
  lemma WhatIsRefused(headers: seq<string>, targets: set<string>, c: Calculation)
    ensures !ValidCalculation(headers, targets, c) <==>
              || c.target !in headers || c.target in targets
              || c.operation !in {Multiply, Sum, Subtract, PercentOf}
              || |c.inputs| < 2 || |c.inputs| > 6
              || (exists name :: name in c.inputs && (name !in headers || name == c.target))
              || (c.operation in {Multiply, Subtract, PercentOf} && |c.inputs| != 2)
  {
    if i :| 0 <= i < |c.inputs| && (c.inputs[i] !in headers || c.inputs[i] == c.target) {
      assert c.inputs[i] in c.inputs;
    }
  }

  method CalculationDefinitions(headers: seq<string>, calculations: seq<Calculation>) returns (r: Outcome)
    ensures r.AmbiguousNames? <==> exists i, j :: 0 <= i < j < |headers| && headers[i] == headers[j]
    ensures r.InvalidField? ==> r.index < |calculations| && AllValid(headers, calculations[..r.index])
                                && !ValidCalculation(headers, Targets(calculations[..r.index]), calculations[r.index])
    ensures r.InvalidField? || r.AmbiguousNames? || AllValid(headers, calculations)
    ensures r.Circular? ==>
              && OnCycle(Dependencies(calculations), r.target)
              && exists k :: 0 <= k < |calculations| && calculations[k].target == r.target
                   && forall j :: 0 <= j < k ==> !OnCycle(Dependencies(calculations), calculations[j].target)
    ensures r.Accepted? ==> r.definitions == DefineAll(headers, calculations)
    ensures r.Accepted? ==>
              && |r.definitions| == |calculations|
              && forall k :: 0 <= k < |calculations| ==> Describes(headers, r.definitions[k], calculations[k])
    ensures r.Accepted? <==> Accepts(headers, calculations)
  {
    if !Distinct(headers) { return AmbiguousNames; }
    var definitions: seq<Definition> := [];
    var targets: set<string> := {};
    for k := 0 to |calculations|
      invariant AllValid(headers, calculations[..k])
      invariant targets == Targets(calculations[..k])
      invariant definitions == DefineAll(headers, calculations[..k])
    {
      if !ValidCalculation(headers, targets, calculations[k]) { return InvalidField(k); }
      OneMoreValid(headers, calculations, k);
      targets := targets + {calculations[k].target};
      definitions := definitions + [Define(headers, calculations[k])];
    }
    assert calculations[..|calculations|] == calculations;
    var k := FirstCircular(calculations);
    forall j | 0 <= j < |calculations| ensures Describes(headers, definitions[j], calculations[j]) {
      DefinitionsDescribe(headers, calculations, j);
    }
    r := if k < |calculations| then Circular(calculations[k].target) else Accepted(definitions);
  }

  // ---------------------------------------------------------------- what acceptance means

  /** Every field is ranked above the calculated fields it reads. */
  ghost predicate Ranks(g: Graph, rank: map<string, nat>) {
    rank.Keys == g.Keys && forall a, b :: Edge(g, a, b) ==> rank[b] < rank[a]
  }

  ghost function Reachable(g: Graph, a: string): set<string> {
    set k | k in g.Keys && Reach(g, a, k)
  }

  /** Without a cycle, the number of fields reachable from each is a rank. */
  lemma AcyclicGraphHasRank(g: Graph)
    requires forall t :: !OnCycle(g, t)
    ensures Ranks(g, map a | a in g.Keys :: |Reachable(g, a)|)
  {
    forall a, b | Edge(g, a, b) ensures |Reachable(g, b)| < |Reachable(g, a)| {
      forall k | k in Reachable(g, b) ensures k in Reachable(g, a) { ReachStep(g, a, b, k); }
      ReachSelf(g, a);
      assert Reach(g, b, a) ==> OnCycle(g, a);
      assert a in Reachable(g, a) && a !in Reachable(g, b);
      ProperSubsetIsSmaller(Reachable(g, b), Reachable(g, a));
    }
  }

  lemma ProperSubsetIsSmaller<T>(a: set<T>, b: set<T>)
    requires a < b
    ensures |a| < |b|
  {
    assert b == a + (b - a);
  }

  lemma {:induction false} RankFallsAlongPath(g: Graph, rank: map<string, nat>, p: seq<string>)
    requires Ranks(g, rank) && Path(g, p) && p[0] in g
    ensures p[|p| - 1] in g && rank[p[|p| - 1]] <= rank[p[0]]
  {
    if |p| > 1 {
      assert Edge(g, p[0], p[1]);
      assert Path(g, p[1..]) by {
        forall i | 0 <= i < |p[1..]| - 1
          ensures Edge(g, p[1..][i], p[1..][i + 1]) { assert Edge(g, p[i + 1], p[i + 2]); }
      }
      RankFallsAlongPath(g, rank, p[1..]);
    }
  }

  /** No cycle exactly when a rank exists. */
  lemma AcyclicIffRanked(g: Graph)
    ensures (forall t :: !OnCycle(g, t)) <==> exists rank :: Ranks(g, rank)
  {
    if forall t :: !OnCycle(g, t) {
      AcyclicGraphHasRank(g);
    }
    if exists rank :: Ranks(g, rank) {
      var rank :| Ranks(g, rank);
      forall t ensures !OnCycle(g, t) {
        if v :| Edge(g, t, v) && Reach(g, v, t) {
          var p :| PathFrom(g, p, v, t);
          RankFallsAlongPath(g, rank, p);
        }
      }
    }
  }
}
