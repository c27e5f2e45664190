/** The workbook's formulas have exactly one solution on every row of an accepted definition set. */
module CalculatedSolutions {
  import opened CalculatedFields
  import opened CalculatedRows

  // ---------------------------------------------------------------- structure of accepted calculations

  lemma OneMoreDependency(calculations: seq<Calculation>, m: nat)
    requires m < |calculations|
    ensures Dependencies(calculations[..m + 1]) ==
              Dependencies(calculations[..m])[calculations[m].target := calculations[m].inputs]
  {
    assert calculations[..m + 1][..m] == calculations[..m];
  }

  /** A later calculation does not overwrite the entry of an earlier one with another target. */
  lemma {:induction false} DependenciesUpTo(calculations: seq<Calculation>, m: nat, k: nat)
    requires k < m <= |calculations|
    requires forall i :: k < i < m ==> calculations[i].target != calculations[k].target
    ensures var g := Dependencies(calculations[..m]);
      calculations[k].target in g && g[calculations[k].target] == calculations[k].inputs
  {
    OneMoreDependency(calculations, m - 1);
    if k < m - 1 { DependenciesUpTo(calculations, m - 1, k); }
  }

  lemma DependenciesAt(headers: seq<string>, calculations: seq<Calculation>, k: nat)
    requires AllValid(headers, calculations) && k < |calculations|
    ensures calculations[k].target in Dependencies(calculations)
    ensures Dependencies(calculations)[calculations[k].target] == calculations[k].inputs
  {
    forall i: nat | k < i < |calculations| ensures calculations[i].target != calculations[k].target {
      TargetsAreDistinct(headers, calculations, k, i);
    }
    DependenciesUpTo(calculations, |calculations|, k);
    assert calculations[..|calculations|] == calculations;
  }

  lemma TargetsAreDistinct(headers: seq<string>, calculations: seq<Calculation>, j: nat, k: nat)
    requires AllValid(headers, calculations) && j < k < |calculations|
    ensures calculations[j].target != calculations[k].target
  {
    assert ValidCalculation(headers, Targets(calculations[..k]), calculations[k]);
    assert calculations[..k][j] in calculations[..k];
  }

  /** What is known of input `i` of calculation `k`. */
  lemma InputFacts(headers: seq<string>, calculations: seq<Calculation>, k: nat, i: nat)
    requires AllValid(headers, calculations) && k < |calculations| && i < |calculations[k].inputs|
    ensures calculations[k].target in headers && calculations[k].inputs[i] in headers
    ensures calculations[k].inputs[i] != calculations[k].target
    ensures DefinitionAt(headers, calculations, k).inputColumns[i] == ColumnOf(headers, calculations[k].inputs[i])
    ensures DefinitionAt(headers, calculations, k).targetColumn == ColumnOf(headers, calculations[k].target)
    ensures IsTarget(calculations, calculations[k].inputs[i]) ==>
              Edge(Dependencies(calculations), calculations[k].target, calculations[k].inputs[i])
  {
    assert ValidCalculation(headers, Targets(calculations[..k]), calculations[k]);
    DependenciesAt(headers, calculations, k);
  }

  lemma TargetHasCalculation(calculations: seq<Calculation>, name: string) returns (k: nat)
    requires IsTarget(calculations, name)
    ensures k < |calculations| && calculations[k].target == name
  {
    var c :| c in calculations && c.target == name;
    k :| 0 <= k < |calculations| && calculations[k] == c;
  }

  /** A formula looks at its input columns only. */
  lemma FormulaReadsInputs(d: Definition, a: Sheet, b: Sheet)
    requires d.operation != Unknown && |d.inputColumns| >= 2
    requires forall i :: 0 <= i < |d.inputColumns| ==> a(d.inputColumns[i]) == b(d.inputColumns[i])
    ensures EvalFormula(FormulaOf(d), a) == EvalFormula(FormulaOf(d), b)
  {
    assert CellsAt(a, d.inputColumns) == CellsAt(b, d.inputColumns);
  }

  // ---------------------------------------------------------------- exactly one solution

  ghost function Column(headers: seq<string>, name: string): nat {
    if name in headers then ColumnOf(headers, name) else 0
  }

  /** The two sheets hold the same at every calculated field ranked below `n`. */
  ghost predicate SameBelow(headers: seq<string>, calculations: seq<Calculation>, rank: map<string, nat>, n: nat,
                            a: Sheet, b: Sheet) {
    forall name :: name in headers && name in rank && IsTarget(calculations, name) && rank[name] < n ==>
      a(Column(headers, name)) == b(Column(headers, name))
  }

  ghost predicate SameLeaves(headers: seq<string>, calculations: seq<Calculation>, a: Sheet, b: Sheet) {
    forall name :: name in headers && !IsTarget(calculations, name) ==>
      a(Column(headers, name)) == b(Column(headers, name))
  }

  /** Sheets alike at the leaves and below a field's rank give its formula the same value. */
  lemma SameInputsSameValue(headers: seq<string>, calculations: seq<Calculation>, rank: map<string, nat>, k: nat,
                            a: Sheet, b: Sheet)
    requires AllValid(headers, calculations) && k < |calculations|
    requires Ranks(Dependencies(calculations), rank)
    requires SameLeaves(headers, calculations, a, b)
    requires calculations[k].target in rank
        && SameBelow(headers, calculations, rank, rank[calculations[k].target], a, b)
    ensures var d := DefinitionAt(headers, calculations, k);
      EvalFormula(FormulaOf(d), a) == EvalFormula(FormulaOf(d), b)
  {
    var d := DefinitionAt(headers, calculations, k);
    forall i | 0 <= i < |d.inputColumns| ensures a(d.inputColumns[i]) == b(d.inputColumns[i]) {
      InputFacts(headers, calculations, k, i);
      var input := calculations[k].inputs[i];
      assert d.inputColumns[i] == Column(headers, input);
      if IsTarget(calculations, input) { assert rank[input] < rank[calculations[k].target]; }
    }
    FormulaReadsInputs(d, a, b);
  }

  lemma {:induction false} SolutionsAgreeBelow(headers: seq<string>, calculations: seq<Calculation>, row: seq<Cell>,
                                               rank: map<string, nat>, n: nat, a: Sheet, b: Sheet)
    requires AllValid(headers, calculations) && |row| == |headers|
    requires Ranks(Dependencies(calculations), rank)
    requires Satisfies(headers, calculations, row, a) && Satisfies(headers, calculations, row, b)
    ensures SameBelow(headers, calculations, rank, n, a, b)
  {
    if n > 0 {
      SolutionsAgreeBelow(headers, calculations, row, rank, n - 1, a, b);
      forall name | name in headers && name in rank && IsTarget(calculations, name) && rank[name] < n
        ensures a(Column(headers, name)) == b(Column(headers, name))
      {
        if rank[name] == n - 1 {
          var k := TargetHasCalculation(calculations, name);
          SameInputsSameValue(headers, calculations, rank, k, a, b);
          InputFacts(headers, calculations, k, 0);
          assert CellIsComputed(headers, calculations, k, a) && CellIsComputed(headers, calculations, k, b);
        }
      }
    }
  }

  /** Two sheets that satisfy every emitted formula on the same row hold the same in every column. */
  lemma SheetIsUnique(headers: seq<string>, calculations: seq<Calculation>, row: seq<Cell>, a: Sheet, b: Sheet)
    requires Accepts(headers, calculations) && |row| == |headers|
    requires Satisfies(headers, calculations, row, a) && Satisfies(headers, calculations, row, b)
    ensures forall name :: name in headers ==> a(ColumnOf(headers, name)) == b(ColumnOf(headers, name))
  {
    var g := Dependencies(calculations);
    AcyclicIffRanked(g);
    var rank :| Ranks(g, rank);
    forall name | name in headers ensures a(ColumnOf(headers, name)) == b(ColumnOf(headers, name)) {
      if IsTarget(calculations, name) {
        SolutionsAgreeBelow(headers, calculations, row, rank, rank[name] + 1, a, b);
        assert Column(headers, name) == ColumnOf(headers, name);
      }
    }
  }

  /** One round of recalculation. */
  ghost function Recalculate(headers: seq<string>, calculations: seq<Calculation>, row: seq<Cell>, sheet: Sheet): Sheet
    requires AllValid(headers, calculations) && |row| == |headers|
  {
    (column: nat) =>
      if k: nat :| k < |calculations| && DefinitionAt(headers, calculations, k).targetColumn == column
      then EvalFormula(FormulaOf(DefinitionAt(headers, calculations, k)), sheet)
      else if 1 <= column <= |row| then row[column - 1] else Blank
  }

  ghost function Rounds(headers: seq<string>, calculations: seq<Calculation>, row: seq<Cell>, n: nat): Sheet
    requires AllValid(headers, calculations) && |row| == |headers|
  {
    if n == 0 then (column: nat) => if 1 <= column <= |row| then row[column - 1] else Blank
    else Recalculate(headers, calculations, row, Rounds(headers, calculations, row, n - 1))
  }

  lemma ColumnsAreDistinct(headers: seq<string>, a: string, b: string)
    requires a in headers && b in headers && ColumnOf(headers, a) == ColumnOf(headers, b)
    ensures a == b
  {
  }

  lemma RecalculateAt(headers: seq<string>, calculations: seq<Calculation>, row: seq<Cell>, sheet: Sheet, k: nat)
    requires AllValid(headers, calculations) && |row| == |headers| && k < |calculations|
    ensures calculations[k].target in headers
    ensures Recalculate(headers, calculations, row, sheet)(ColumnOf(headers, calculations[k].target))
         == EvalFormula(FormulaOf(DefinitionAt(headers, calculations, k)), sheet)
  {
    InputFacts(headers, calculations, k, 0);
    var column := ColumnOf(headers, calculations[k].target);
    assert DefinitionAt(headers, calculations, k).targetColumn == column;
    forall j: nat | j < |calculations| && DefinitionAt(headers, calculations, j).targetColumn == column ensures j == k {
      InputFacts(headers, calculations, j, 0);
      ColumnsAreDistinct(headers, calculations[j].target, calculations[k].target);
      if j < k { TargetsAreDistinct(headers, calculations, j, k); }
      if k < j { TargetsAreDistinct(headers, calculations, k, j); }
    }
  }

  lemma RecalculateKeepsLeaf(headers: seq<string>, calculations: seq<Calculation>, row: seq<Cell>, sheet: Sheet,
                             name: string)
    requires AllValid(headers, calculations) && |row| == |headers|
    requires name in headers && !IsTarget(calculations, name)
    ensures Recalculate(headers, calculations, row, sheet)(ColumnOf(headers, name)) == row[ColumnOf(headers, name) - 1]
  {
    forall j: nat | j < |calculations|
      ensures DefinitionAt(headers, calculations, j).targetColumn != ColumnOf(headers, name)
    {
      InputFacts(headers, calculations, j, 0);
      if ColumnOf(headers, calculations[j].target) == ColumnOf(headers, name) {
        ColumnsAreDistinct(headers, calculations[j].target, name);
      }
      assert calculations[j] in calculations;
    }
  }

  lemma LeavesStay(headers: seq<string>, calculations: seq<Calculation>, row: seq<Cell>, n: nat)
    requires AllValid(headers, calculations) && |row| == |headers|
    ensures forall name :: name in headers && !IsTarget(calculations, name) ==>
              Rounds(headers, calculations, row, n)(Column(headers, name)) == row[ColumnOf(headers, name) - 1]
  {
    if n > 0 {
      forall name | name in headers && !IsTarget(calculations, name)
        ensures Rounds(headers, calculations, row, n)(Column(headers, name)) == row[ColumnOf(headers, name) - 1]
      {
        RecalculateKeepsLeaf(headers, calculations, row, Rounds(headers, calculations, row, n - 1), name);
      }
    }
  }

  /** Recalculating from sheets alike below a field's rank gives that field the same value. */
  lemma RecalculateAgrees(headers: seq<string>, calculations: seq<Calculation>, row: seq<Cell>, rank: map<string, nat>,
                          name: string, a: Sheet, b: Sheet)
    requires AllValid(headers, calculations) && |row| == |headers|
    requires Ranks(Dependencies(calculations), rank)
    requires SameLeaves(headers, calculations, a, b)
    requires IsTarget(calculations, name) && name in rank && SameBelow(headers, calculations, rank, rank[name], a, b)
    ensures Recalculate(headers, calculations, row, a)(Column(headers, name))
         == Recalculate(headers, calculations, row, b)(Column(headers, name))
  {
    var k := TargetHasCalculation(calculations, name);
    SameInputsSameValue(headers, calculations, rank, k, a, b);
    RecalculateAt(headers, calculations, row, a, k);
    RecalculateAt(headers, calculations, row, b, k);
  }

  lemma SameBelowFewer(headers: seq<string>, calculations: seq<Calculation>, rank: map<string, nat>, m: nat, n: nat,
                       a: Sheet, b: Sheet)
    requires m <= n && SameBelow(headers, calculations, rank, n, a, b)
    ensures SameBelow(headers, calculations, rank, m, a, b)
  {
  }

  lemma SettleStep(headers: seq<string>, calculations: seq<Calculation>, row: seq<Cell>, rank: map<string, nat>,
                   n: nat, a: Sheet, b: Sheet)
    requires AllValid(headers, calculations) && |row| == |headers|
    requires Ranks(Dependencies(calculations), rank)
    requires SameLeaves(headers, calculations, a, b) && SameBelow(headers, calculations, rank, n, a, b)
    ensures SameBelow(headers, calculations, rank, n + 1,
              Recalculate(headers, calculations, row, a), Recalculate(headers, calculations, row, b))
  {
    forall name | name in headers && name in rank && IsTarget(calculations, name) && rank[name] < n + 1
      ensures Recalculate(headers, calculations, row, a)(Column(headers, name))
           == Recalculate(headers, calculations, row, b)(Column(headers, name))
    {
      SameBelowFewer(headers, calculations, rank, rank[name], n, a, b);
      RecalculateAgrees(headers, calculations, row, rank, name, a, b);
    }
  }

  lemma SettleRound(headers: seq<string>, calculations: seq<Calculation>, row: seq<Cell>, rank: map<string, nat>,
                    n: nat, a: Sheet, b: Sheet, c: Sheet)
    requires AllValid(headers, calculations) && |row| == |headers|
    requires Ranks(Dependencies(calculations), rank)
    requires n > 0 && SameLeaves(headers, calculations, a, b) && SameBelow(headers, calculations, rank, n - 1, a, b)
    requires b == Recalculate(headers, calculations, row, a) && c == Recalculate(headers, calculations, row, b)
    ensures SameBelow(headers, calculations, rank, n, b, c)
  {
    SettleStep(headers, calculations, row, rank, n - 1, a, b);
  }

  /** Sheet `j + 1` is sheet `j` recalculated, and recalculation leaves the leaves alone. */
  ghost predicate Recalculated(headers: seq<string>, calculations: seq<Calculation>, row: seq<Cell>,
                               sheets: nat -> Sheet)
    requires AllValid(headers, calculations) && |row| == |headers|
  {
    forall j: nat, k: nat :: k == j + 1 ==>
      sheets(k) == Recalculate(headers, calculations, row, sheets(j))
        && SameLeaves(headers, calculations, sheets(j), sheets(k))
  }

  /** After `n` rounds every field ranked below `n` has settled. */
  lemma {:induction false} RoundsSettle(headers: seq<string>, calculations: seq<Calculation>, row: seq<Cell>,
                                        rank: map<string, nat>, sheets: nat -> Sheet, n: nat)
    requires AllValid(headers, calculations) && |row| == |headers|
    requires Ranks(Dependencies(calculations), rank)
    requires Recalculated(headers, calculations, row, sheets)
    ensures SameBelow(headers, calculations, rank, n, sheets(n), sheets(n + 1))
  {
    if n > 0 {
      RoundsSettle(headers, calculations, row, rank, sheets, n - 1);
      SettleRound(headers, calculations, row, rank, n, sheets(n - 1), sheets(n), sheets(n + 1));
    }
  }

  lemma NextRound(headers: seq<string>, calculations: seq<Calculation>, row: seq<Cell>, n: nat)
    requires AllValid(headers, calculations) && |row| == |headers|
    ensures Rounds(headers, calculations, row, n + 1)
         == Recalculate(headers, calculations, row, Rounds(headers, calculations, row, n))
  {
  }

  lemma RoundsSameLeaves(headers: seq<string>, calculations: seq<Calculation>, row: seq<Cell>, n: nat)
    requires AllValid(headers, calculations) && |row| == |headers|
    ensures SameLeaves(headers, calculations,
                       Rounds(headers, calculations, row, n), Rounds(headers, calculations, row, n + 1))
  {
    LeavesStay(headers, calculations, row, n);
    LeavesStay(headers, calculations, row, n + 1);
  }

  /** A sheet that one more round leaves as it is satisfies every formula. */
  lemma SettledSheetSatisfies(headers: seq<string>, calculations: seq<Calculation>, row: seq<Cell>, sheet: Sheet)
    requires AllValid(headers, calculations) && |row| == |headers|
    requires forall name :: name in headers ==>
               sheet(Column(headers, name)) == Recalculate(headers, calculations, row, sheet)(Column(headers, name))
    ensures Satisfies(headers, calculations, row, sheet)
  {
    forall name | name in headers && !IsTarget(calculations, name)
      ensures sheet(ColumnOf(headers, name)) == row[ColumnOf(headers, name) - 1]
    {
      RecalculateKeepsLeaf(headers, calculations, row, sheet, name);
      assert Column(headers, name) == ColumnOf(headers, name);
    }
    forall k: nat | k < |calculations| ensures CellIsComputed(headers, calculations, k, sheet) {
      InputFacts(headers, calculations, k, 0);
      RecalculateAt(headers, calculations, row, sheet, k);
      assert Column(headers, calculations[k].target) == ColumnOf(headers, calculations[k].target);
    }
  }

  /** The rounds of recalculation settle up to rank `n` after `n` rounds. */
  lemma RoundsSettleBelow(headers: seq<string>, calculations: seq<Calculation>, row: seq<Cell>,
                          rank: map<string, nat>, n: nat)
    requires AllValid(headers, calculations) && |row| == |headers| && Ranks(Dependencies(calculations), rank)
    requires Distinct(headers)
    ensures SameBelow(headers, calculations, rank, n,
                      Rounds(headers, calculations, row, n), Rounds(headers, calculations, row, n + 1))
  {
    var sheets := (j: nat) => Rounds(headers, calculations, row, j);
    forall j: nat, k: nat | k == j + 1
      ensures sheets(k) == Recalculate(headers, calculations, row, sheets(j))
          && SameLeaves(headers, calculations, sheets(j), sheets(k))
    {
      NextRound(headers, calculations, row, j);
      RoundsSameLeaves(headers, calculations, row, j);
    }
    RoundsSettle(headers, calculations, row, rank, sheets, n);
  }

  /** An accepted definition set has a sheet satisfying every emitted formula, for every row. */
  lemma SheetExists(headers: seq<string>, calculations: seq<Calculation>, row: seq<Cell>)
    requires Accepts(headers, calculations) && |row| == |headers|
    ensures exists sheet :: Satisfies(headers, calculations, row, sheet)
  {
    var g := Dependencies(calculations);
    AcyclicGraphHasRank(g);
    var rank := map a | a in g.Keys :: |Reachable(g, a)|;
    var n := |g.Keys| + 1;
    RoundsSettleBelow(headers, calculations, row, rank, n);
    forall a | a in rank ensures rank[a] < n { SubsetIsNoLarger(Reachable(g, a), g.Keys); }
    LastRoundSatisfies(headers, calculations, row, rank, n);
  }

  /** Once every rank has been passed, the sheet no longer changes. */
  lemma LastRoundSatisfies(headers: seq<string>, calculations: seq<Calculation>, row: seq<Cell>,
                           rank: map<string, nat>, n: nat)
    requires AllValid(headers, calculations) && |row| == |headers|
    requires rank.Keys == Dependencies(calculations).Keys && forall a :: a in rank ==> rank[a] < n
    requires SameBelow(headers, calculations, rank, n,
                       Rounds(headers, calculations, row, n), Rounds(headers, calculations, row, n + 1))
    ensures Satisfies(headers, calculations, row, Rounds(headers, calculations, row, n))
  {
    var sheet := Rounds(headers, calculations, row, n);
    RoundsSameLeaves(headers, calculations, row, n);
    NextRound(headers, calculations, row, n);
    forall name | name in headers
      ensures sheet(Column(headers, name)) == Recalculate(headers, calculations, row, sheet)(Column(headers, name))
    {
    }
    SettledSheetSatisfies(headers, calculations, row, sheet);
  }

  lemma SubsetIsNoLarger<T>(a: set<T>, b: set<T>)
    requires a <= b
    ensures |a| <= |b|
  {
    assert b == a + (b - a);
  }
}
