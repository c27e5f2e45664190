/** The coverage ranges lose nothing: expanding them gives back the formula cells, the counts add up,
    and runs are as long as they can be. */
module CoverageRoundTrip {
  import opened Sorting
  import opened Totals
  import opened FormulaCoverage

  datatype Place = Place(sheet: string, cell: CellName)

  function PlaceOf(): Fact -> seq<Place> {
    (f: Fact) => [Place(f.sheet, f.cell)]
  }

  /** The cells of the facts, in order. */
  function Cells(facts: seq<Fact>): seq<Place> {
    FlatMap(PlaceOf(), facts)
  }

  /** The cells a coverage item stands for, read from its sheet and range alone. */
  function Expand(): Item -> seq<Place> {
    (item: Item) =>
      match item.range
      case One(c) => [Place(item.sheet, c)]
      case Span(At(c, a), At(_, b)) =>
        if a <= b then seq(b - a + 1, i requires 0 <= i < b - a + 1 => Place(item.sheet, At(c, a + i))) else []
      case Span(_, _) => []
  }

  function Expanded(items: seq<Item>): seq<Place> {
    FlatMap(Expand(), items)
  }

  // ---------------------------------------------------------------- one run

  /** All facts of one sheet and column. */
  ghost predicate OneColumn(entries: seq<Fact>, sheet: string, column: string) {
    forall i :: 0 <= i < |entries| ==>
      entries[i].sheet == sheet && entries[i].cell.At? && entries[i].cell.column == column
  }

  ghost predicate Consecutive(run: seq<Fact>) {
    forall i :: 0 <= i < |run| ==> Row(run[i]) == Row(run[0]) + i
  }

  lemma {:induction false} CellsByIndex(facts: seq<Fact>)
    ensures |Cells(facts)| == |facts|
    ensures forall i :: 0 <= i < |facts| ==> Cells(facts)[i] == Place(facts[i].sheet, facts[i].cell)
  {
    if facts != [] { CellsByIndex(facts[..|facts| - 1]); }
  }

  /** A run's item expands to exactly the run's cells. */
  lemma RunItemExpands(run: seq<Fact>, sheet: string, column: string)
    requires run != [] && OneColumn(run, sheet, column) && Consecutive(run)
    ensures Expand()(RunItem(run)) == Cells(run)
  {
    CellsByIndex(run);
    var a := run[0].cell.row;
    forall i | 0 <= i < |run| ensures Cells(run)[i] == Place(sheet, At(column, a + i)) {
      assert Row(run[i]) == Row(run[0]) + i;
    }
  }

  lemma {:induction false} RunsFromJoinUp(open: seq<Fact>, rest: seq<Fact>)
    requires open != []
    ensures Flatten(RunsFrom(open, rest)) == open + rest
    decreases |rest|
  {
    if rest == [] {
      FlattenCons(open, []);
      assert [open] + [] == [open] && Flatten<Fact>([]) == [];
    } else {
      var next, after := rest[0], rest[1..];
      assert rest == [next] + after;
      if Row(next) == Row(open[|open| - 1]) + 1 {
        RunsFromJoinUp(open + [next], after);
        ConcatAssociates(open, [next], after);
      } else {
        RunsFromJoinUp([next], after);
        FlattenCons(open, RunsFrom([next], after));
      }
    }
  }

  lemma RunsJoinUp(entries: seq<Fact>)
    ensures Flatten(Runs(entries)) == entries
  {
    if entries != [] {
      RunsFromJoinUp([entries[0]], entries[1..]);
    }
  }

  lemma {:induction false} RunsFromAreConsecutive(open: seq<Fact>, rest: seq<Fact>)
    requires open != [] && Consecutive(open)
    ensures forall i :: 0 <= i < |RunsFrom(open, rest)| ==> Consecutive(RunsFrom(open, rest)[i])
    decreases |rest|
  {
    if rest != [] {
      if Row(rest[0]) == Row(open[|open| - 1]) + 1 {
        RunsFromAreConsecutive(open + [rest[0]], rest[1..]);
      } else {
        RunsFromAreConsecutive([rest[0]], rest[1..]);
      }
    }
  }

  lemma RunsAreConsecutive(entries: seq<Fact>)
    ensures forall i :: 0 <= i < |Runs(entries)| ==> Consecutive(Runs(entries)[i])
  {
    if entries != [] { RunsFromAreConsecutive([entries[0]], entries[1..]); }
  }

  // ---------------------------------------------------------------- one group

  ghost predicate WellGrouped(groups: seq<Group>) {
    && (forall i :: 0 <= i < |groups| ==> OneColumn(groups[i].entries, groups[i].sheet, groups[i].column))
    && (forall i, j :: 0 <= i < j < |groups| ==>
        (groups[i].sheet, groups[i].column) != (groups[j].sheet, groups[j].column))
  }

  lemma SortKeepsColumn(entries: seq<Fact>, sheet: string, column: string)
    requires OneColumn(entries, sheet, column)
    ensures OneColumn(Sort(entries, RowLe()), sheet, column)
  {
    var sorted := Sort(entries, RowLe());
    forall i | 0 <= i < |sorted| ensures sorted[i] in entries { assert sorted[i] in multiset(sorted); }
  }

  lemma RunIsPart(entries: seq<Fact>, sheet: string, column: string, i: nat)
    requires OneColumn(entries, sheet, column) && i < |Runs(entries)|
    ensures OneColumn(Runs(entries)[i], sheet, column)
  {
    RunsJoinUp(entries);
    var run := Runs(entries)[i];
    forall k | 0 <= k < |run| ensures run[k] in entries {
      FlattenMembers(Runs(entries), run[k]);
    }
  }

  lemma {:induction false} RunItemsExpand(runs: seq<seq<Fact>>, sheet: string, column: string)
    requires forall i :: 0 <= i < |runs| ==> runs[i] != [] && OneColumn(runs[i], sheet, column) && Consecutive(runs[i])
    ensures Expanded(RunItems(runs)) == Cells(Flatten(runs))
  {
    if runs != [] {
      var n := |runs| - 1;
      RunItemsExpand(runs[..n], sheet, column);
      assert RunItems(runs)[..n] == RunItems(runs[..n]);
      RunItemExpands(runs[n], sheet, column);
      FlatMapConcat(PlaceOf(), Flatten(runs[..n]), runs[n]);
    }
  }

  lemma GroupExpands(g: Group)
    requires OneColumn(g.entries, g.sheet, g.column)
    ensures multiset(Expanded(GroupItems(g))) == multiset(Cells(g.entries))
  {
    var sorted := Sort(g.entries, RowLe());
    SortKeepsColumn(g.entries, g.sheet, g.column);
    RunsAreConsecutive(sorted);
    RunsJoinUp(sorted);
    forall i | 0 <= i < |Runs(sorted)| ensures OneColumn(Runs(sorted)[i], g.sheet, g.column) {
      RunIsPart(sorted, g.sheet, g.column, i);
    }
    RunItemsExpand(Runs(sorted), g.sheet, g.column);
    FlatMapPermutation(PlaceOf(), sorted, g.entries);
  }

  // ---------------------------------------------------------------- all groups

  function EntriesOf(): Group -> seq<Fact> {
    (g: Group) => g.entries
  }

  function AllEntries(groups: seq<Group>): seq<Fact> {
    FlatMap(EntriesOf(), groups)
  }

  lemma AllEntriesCons(g: Group, rest: seq<Group>)
    ensures AllEntries([g] + rest) == g.entries + AllEntries(rest)
  {
    FlatMapConcat(EntriesOf(), [g], rest);
    FlatMapOne(EntriesOf(), g);
  }

  lemma {:induction false} AddToAddsOne(groups: seq<Group>, f: Fact)
    requires f.cell.At?
    ensures multiset(AllEntries(AddTo(groups, f))) == multiset(AllEntries(groups)) + multiset{f}
  {
    if groups == [] {
      FlatMapOne(EntriesOf(), Group(f.sheet, f.cell.column, [f]));
    } else {
      var g, rest := groups[0], groups[1..];
      assert groups == [g] + rest;
      AllEntriesCons(g, rest);
      if g.sheet == f.sheet && g.column == f.cell.column {
        AllEntriesCons(g.(entries := g.entries + [f]), rest);
      } else {
        AddToAddsOne(rest, f);
        AllEntriesCons(g, AddTo(rest, f));
      }
    }
  }

  ghost predicate HasKey(groups: seq<Group>, sheet: string, column: string) {
    exists i :: 0 <= i < |groups| && groups[i].sheet == sheet && groups[i].column == column
  }

  lemma {:induction false} AddToStaysGrouped(groups: seq<Group>, f: Fact)
    requires f.cell.At? && WellGrouped(groups)
    ensures WellGrouped(AddTo(groups, f))
    ensures forall sheet, column :: HasKey(AddTo(groups, f), sheet, column) ==>
              HasKey(groups, sheet, column) || (sheet == f.sheet && column == f.cell.column)
  {
    if groups != [] {
      var g, rest := groups[0], groups[1..];
      var r := AddTo(groups, f);
      if g.sheet == f.sheet && g.column == f.cell.column {
        forall sheet, column | HasKey(r, sheet, column) ensures HasKey(groups, sheet, column) {
          var i :| 0 <= i < |r| && r[i].sheet == sheet && r[i].column == column;
          assert groups[i].sheet == sheet && groups[i].column == column;
        }
      } else {
        AddToStaysGrouped(rest, f);
        forall sheet, column | HasKey(AddTo(rest, f), sheet, column)
          ensures HasKey(rest, sheet, column) || (sheet == f.sheet && column == f.cell.column)
          ensures (sheet, column) != (g.sheet, g.column)
        {
          if HasKey(rest, sheet, column) {
            var i :| 0 <= i < |rest| && rest[i].sheet == sheet && rest[i].column == column;
            assert groups[i + 1] == rest[i];
          }
        }
        forall j | 1 <= j < |r| ensures (r[0].sheet, r[0].column) != (r[j].sheet, r[j].column) {
          assert r[j] == AddTo(rest, f)[j - 1];
          assert HasKey(AddTo(rest, f), r[j].sheet, r[j].column);
        }
        forall sheet, column | HasKey(r, sheet, column)
          ensures HasKey(groups, sheet, column) || (sheet == f.sheet && column == f.cell.column)
        {
          var i :| 0 <= i < |r| && r[i].sheet == sheet && r[i].column == column;
          if i == 0 {
            assert groups[0].sheet == sheet;
          } else {
            assert HasKey(AddTo(rest, f), sheet, column);
            if HasKey(rest, sheet, column) {
              var k :| 0 <= k < |rest| && rest[k].sheet == sheet && rest[k].column == column;
              assert groups[k + 1].sheet == sheet;
            }
          }
        }
      }
    }
  }

  lemma {:induction false} GroupedIsWellGrouped(facts: seq<Fact>)
    ensures WellGrouped(Grouped(facts))
  {
    if facts != [] {
      var n := |facts| - 1;
      GroupedIsWellGrouped(facts[..n]);
      if facts[n].cell.At? { AddToStaysGrouped(Grouped(facts[..n]), facts[n]); }
    }
  }

  lemma {:induction false} GroupsExpand(groups: seq<Group>)
    requires WellGrouped(groups)
    ensures multiset(Expanded(AllGroupItems(groups))) == multiset(Cells(AllEntries(groups)))
  {
    if groups != [] {
      var n := |groups| - 1;
      GroupsExpand(groups[..n]);
      GroupExpands(groups[n]);
      FlatMapConcat(Expand(), AllGroupItems(groups[..n]), GroupItems(groups[n]));
      FlatMapConcat(PlaceOf(), AllEntries(groups[..n]), groups[n].entries);
    }
  }

  lemma CellsOfOneMore(entries: seq<Fact>, more: seq<Fact>, f: Fact)
    requires multiset(more) == multiset(entries) + multiset{f}
    ensures multiset(Cells(more)) == multiset(Cells(entries)) + multiset{Place(f.sheet, f.cell)}
  {
    FlatMapPermutation(PlaceOf(), more, entries + [f]);
    FlatMapConcat(PlaceOf(), entries, [f]);
    FlatMapOne(PlaceOf(), f);
  }

  lemma {:induction false} SortingOutLosesNothing(facts: seq<Fact>)
    ensures multiset(Expanded(OtherItems(facts))) + multiset(Cells(AllEntries(Grouped(facts)))) ==
        multiset(Cells(facts))
  {
    if facts != [] {
      var n := |facts| - 1;
      SortingOutLosesNothing(facts[..n]);
      SortingOutOneMore(facts);
    }
  }

  lemma SortingOutOneMore(facts: seq<Fact>)
    requires facts != []
    ensures var n := |facts| - 1; var place := multiset{Place(facts[n].sheet, facts[n].cell)};
      var other := facts[n].cell.Other?;
      && multiset(Expanded(OtherItems(facts)))
         == multiset(Expanded(OtherItems(facts[..n]))) + (if other then place else multiset{})
      && multiset(Cells(AllEntries(Grouped(facts))))
         == multiset(Cells(AllEntries(Grouped(facts[..n])))) + (if other then multiset{} else place)
  {
    var n := |facts| - 1;
    if facts[n].cell.At? {
      AddToAddsOne(Grouped(facts[..n]), facts[n]);
      CellsOfOneMore(AllEntries(Grouped(facts[..n])), AllEntries(Grouped(facts)), facts[n]);
      assert OtherItems(facts) == OtherItems(facts[..n]);
    } else {
      FlatMapConcat(Expand(), OtherItems(facts[..n]), [SingleItem(facts[n])]);
      FlatMapOne(Expand(), SingleItem(facts[n]));
    }
  }

  /** Expanding the coverage ranges gives back exactly the input formula cells, with repetitions. */
  lemma CoverageExpandsToInput(facts: seq<Fact>, keyLe: (Item, Item) -> bool)
    ensures multiset(Expanded(Coverage(facts, keyLe))) == multiset(Cells(facts))
  {
    var others, items := OtherItems(facts), AllGroupItems(Grouped(facts));
    FlatMapPermutation(Expand(), Coverage(facts, keyLe), others + items);
    FlatMapConcat(Expand(), others, items);
    GroupedIsWellGrouped(facts);
    GroupsExpand(Grouped(facts));
    SortingOutLosesNothing(facts);
  }

  // ---------------------------------------------------------------- counts

  function CountOf(): Item -> nat {
    (item: Item) => item.count
  }

  /** An item counts exactly the cells its range stands for. */
  ghost predicate CountsItsCells(item: Item) {
    |Expand()(item)| == item.count
  }

  lemma {:induction false} GroupItemsCount(groups: seq<Group>)
    requires WellGrouped(groups)
    ensures forall x :: x in AllGroupItems(groups) ==> CountsItsCells(x)
  {
    if groups != [] {
      var n := |groups| - 1;
      var g := groups[n];
      GroupItemsCount(groups[..n]);
      forall x | x in GroupItems(g) ensures CountsItsCells(x) {
        var sorted := Sort(g.entries, RowLe());
        var i :| 0 <= i < |Runs(sorted)| && x == RunItem(Runs(sorted)[i]);
        SortKeepsColumn(g.entries, g.sheet, g.column);
        RunsAreConsecutive(sorted);
        RunIsPart(sorted, g.sheet, g.column, i);
        RunItemExpands(Runs(sorted)[i], g.sheet, g.column);
        CellsByIndex(Runs(sorted)[i]);
      }
    }
  }

  lemma {:induction false} OtherItemsCount(facts: seq<Fact>)
    ensures forall x :: x in OtherItems(facts) ==> CountsItsCells(x) && x.range.One? && x.range.cell.Other?
  {
    if facts != [] { OtherItemsCount(facts[..|facts| - 1]); }
  }

  /** Every item counts the cells of its range, and the counts sum to the number of facts. */
  lemma CountsAddUp(facts: seq<Fact>, keyLe: (Item, Item) -> bool)
    ensures forall x :: x in Coverage(facts, keyLe) ==> CountsItsCells(x)
    ensures Sum(CountOf(), Coverage(facts, keyLe)) == |facts|
  {
    var coverage := Coverage(facts, keyLe);
    GroupedIsWellGrouped(facts);
    GroupItemsCount(Grouped(facts));
    OtherItemsCount(facts);
    forall x | x in coverage ensures CountsItsCells(x) {
      assert x in multiset(coverage);
      assert x in multiset(OtherItems(facts) + AllGroupItems(Grouped(facts)));
    }
    FlatMapLength(Expand(), CountOf(), coverage);
    CoverageExpandsToInput(facts, keyLe);
    CellsByIndex(facts);
    assert |multiset(Expanded(coverage))| == |Expanded(coverage)| && |multiset(Cells(facts))| == |Cells(facts)|;
  }

  // ---------------------------------------------------------------- runs are maximal

  function FirstCell(item: Item): CellName {
    if item.range.One? then item.range.cell else item.range.first
  }

  function LastCell(item: Item): CellName {
    if item.range.One? then item.range.cell else item.range.last
  }

  /** `y` starts in the row after the one `x` ends in, in the same sheet and column. */
  ghost predicate Adjacent(x: Item, y: Item) {
    && x.sheet == y.sheet
    && LastCell(x).At? && FirstCell(y).At?
    && LastCell(x).column == FirstCell(y).column
    && LastCell(x).row + 1 == FirstCell(y).row
  }

  ghost predicate DistinctCells(facts: seq<Fact>) {
    forall i, j :: 0 <= i < j < |facts| ==> (facts[i].sheet, facts[i].cell) != (facts[j].sheet, facts[j].cell)
  }

  ghost predicate Rising(entries: seq<Fact>) {
    forall i, j :: 0 <= i < j < |entries| ==> Row(entries[i]) < Row(entries[j])
  }

  function LastRow(run: seq<Fact>): nat
    requires run != []
  {
    Row(run[|run| - 1])
  }

  /** Runs from row `low` on, with a row missing between any two. */
  ghost predicate Gapped(runs: seq<seq<Fact>>, low: nat) {
    && (forall i :: 0 <= i < |runs| ==> runs[i] != [] && low <= Row(runs[i][0]) <= LastRow(runs[i]))
    && (forall i, j :: 0 <= i < j < |runs| ==> LastRow(runs[i]) + 1 < Row(runs[j][0]))
  }

  lemma EarlierRunKeepsGaps(open: seq<Fact>, runs: seq<seq<Fact>>, low: nat)
    requires Gapped(runs, low) && open != [] && Row(open[0]) <= LastRow(open) && LastRow(open) + 1 < low
    ensures Gapped([open] + runs, Row(open[0]))
  {
    var all := [open] + runs;
    forall i | 1 <= i < |all| ensures all[i] == runs[i - 1] {}
  }

  /** Between two runs of rising entries a row is missing. */
  lemma {:induction false} RunsFromLeaveGaps(open: seq<Fact>, rest: seq<Fact>)
    requires open != [] && Row(open[0]) <= LastRow(open)
    requires Rising(rest) && (rest != [] ==> LastRow(open) < Row(rest[0]))
    ensures Gapped(RunsFrom(open, rest), Row(open[0]))
    decreases |rest|
  {
    if rest != [] {
      assert Rising(rest[1..]);
      assert |rest| > 1 ==> Row(rest[0]) < Row(rest[1]);
      if Row(rest[0]) == LastRow(open) + 1 {
        RunsFromLeaveGaps(open + [rest[0]], rest[1..]);
      } else {
        RunsFromLeaveGaps([rest[0]], rest[1..]);
        EarlierRunKeepsGaps(open, RunsFrom([rest[0]], rest[1..]), Row(rest[0]));
      }
    }
  }

  lemma RunsLeaveGaps(entries: seq<Fact>)
    requires Rising(entries) && entries != []
    ensures Gapped(Runs(entries), Row(entries[0]))
  {
    assert |entries| > 1 ==> Row(entries[0]) < Row(entries[1]);
    RunsFromLeaveGaps([entries[0]], entries[1..]);
  }

  lemma RunsOfRisingAreNotAdjacent(entries: seq<Fact>, sheet: string, column: string, i: nat, j: nat)
    requires Rising(entries) && OneColumn(entries, sheet, column)
    requires i < |Runs(entries)| && j < |Runs(entries)|
    ensures !Adjacent(RunItem(Runs(entries)[i]), RunItem(Runs(entries)[j]))
  {
    assert entries != [];
    RunsLeaveGaps(entries);
    RunIsPart(entries, sheet, column, i);
    RunIsPart(entries, sheet, column, j);
  }

  /** Distinct cells of one column, sorted by row, have rising rows. */
  lemma SortedColumnRises(g: Group)
    requires OneColumn(g.entries, g.sheet, g.column) && DistinctCells(g.entries)
    ensures Rising(Sort(g.entries, RowLe()))
  {
    var sorted := Sort(g.entries, RowLe());
    SortSorts(g.entries, RowLe());
    SortKeepsColumn(g.entries, g.sheet, g.column);
    DistinctSurvivesReordering(g.entries, sorted);
  }

  lemma DistinctSurvivesReordering(a: seq<Fact>, b: seq<Fact>)
    requires DistinctCells(a) && multiset(a) == multiset(b)
    ensures DistinctCells(b)
  {
    forall i, j | 0 <= i < j < |b| ensures (b[i].sheet, b[i].cell) != (b[j].sheet, b[j].cell) {
      TwoOccurrences(b, i, j);
      if (b[i].sheet, b[i].cell) == (b[j].sheet, b[j].cell) {
        assert b[i] in multiset(a) && b[j] in multiset(a);
        var k :| 0 <= k < |a| && a[k] == b[i];
        var l :| 0 <= l < |a| && a[l] == b[j];
        assert k == l;
        OneOccurrence(a, k);
      }
    }
  }

  lemma TwoOccurrences(b: seq<Fact>, i: nat, j: nat)
    requires i < j < |b|
    ensures b[i] == b[j] ==> multiset(b)[b[i]] >= 2
  {
    assert b == b[..i] + [b[i]] + b[i + 1..j] + [b[j]] + b[j + 1..];
  }

  lemma OneOccurrence(a: seq<Fact>, k: nat)
    requires DistinctCells(a) && k < |a|
    ensures multiset(a)[a[k]] == 1
  {
    assert a == a[..k] + [a[k]] + a[k + 1..];
    assert a[k] !in a[..k] && a[k] !in a[k + 1..];
  }

  /** Every group's item carries the group's sheet and column. */
  lemma GroupItemKey(g: Group, x: Item)
    requires OneColumn(g.entries, g.sheet, g.column) && x in GroupItems(g)
    ensures x.sheet == g.sheet && FirstCell(x).At? && LastCell(x).At?
    ensures FirstCell(x).column == g.column && LastCell(x).column == g.column
  {
    var sorted := Sort(g.entries, RowLe());
    var i :| 0 <= i < |Runs(sorted)| && x == RunItem(Runs(sorted)[i]);
    SortKeepsColumn(g.entries, g.sheet, g.column);
    RunIsPart(sorted, g.sheet, g.column, i);
  }

  lemma GroupItemsAreNotAdjacent(g: Group, x: Item, y: Item)
    requires OneColumn(g.entries, g.sheet, g.column) && DistinctCells(g.entries)
    requires x in GroupItems(g) && y in GroupItems(g)
    ensures !Adjacent(x, y)
  {
    var sorted := Sort(g.entries, RowLe());
    SortedColumnRises(g);
    SortKeepsColumn(g.entries, g.sheet, g.column);
    var i :| 0 <= i < |Runs(sorted)| && x == RunItem(Runs(sorted)[i]);
    var j :| 0 <= j < |Runs(sorted)| && y == RunItem(Runs(sorted)[j]);
    RunsOfRisingAreNotAdjacent(sorted, g.sheet, g.column, i, j);
  }

  lemma {:induction false} AllGroupItemsMember(groups: seq<Group>, x: Item)
    requires x in AllGroupItems(groups)
    ensures exists i :: 0 <= i < |groups| && x in GroupItems(groups[i])
  {
    var n := |groups| - 1;
    if x in GroupItems(groups[n]) {
    } else {
      AllGroupItemsMember(groups[..n], x);
      var i :| 0 <= i < n && x in GroupItems(groups[..n][i]);
      assert x in GroupItems(groups[i]);
    }
  }

  ghost predicate AllDistinct(groups: seq<Group>) {
    forall i :: 0 <= i < |groups| ==> DistinctCells(groups[i].entries)
  }

  lemma {:induction false} GroupsStayDistinct(groups: seq<Group>)
    requires DistinctCells(AllEntries(groups))
    ensures AllDistinct(groups)
  {
    if groups != [] {
      var n := |groups| - 1;
      var init, last := AllEntries(groups[..n]), groups[n].entries;
      assert AllEntries(groups) == init + last;
      PartsAreDistinct(init, last);
      GroupsStayDistinct(groups[..n]);
      forall i | 0 <= i < |groups| ensures DistinctCells(groups[i].entries) {
        if i < n { assert groups[..n][i] == groups[i]; }
      }
    }
  }

  lemma PartsAreDistinct(a: seq<Fact>, b: seq<Fact>)
    requires DistinctCells(a + b)
    ensures DistinctCells(a) && DistinctCells(b)
  {
    forall i, j | 0 <= i < j < |a| ensures (a[i].sheet, a[i].cell) != (a[j].sheet, a[j].cell) {
      assert (a + b)[i] == a[i] && (a + b)[j] == a[j];
    }
    forall i, j | 0 <= i < j < |b| ensures (b[i].sheet, b[i].cell) != (b[j].sheet, b[j].cell) {
      assert (a + b)[|a| + i] == b[i] && (a + b)[|a| + j] == b[j];
    }
  }

  function Others(facts: seq<Fact>): seq<Fact> {
    if facts == [] then []
    else
      var n := |facts| - 1;
      Others(facts[..n]) + if facts[n].cell.Other? then [facts[n]] else []
  }

  lemma GroupedKeepsOneMore(facts: seq<Fact>)
    requires facts != []
    ensures var n := |facts| - 1; var other := facts[n].cell.Other?;
      && multiset(Others(facts)) == multiset(Others(facts[..n])) + (if other then multiset{facts[n]} else multiset{})
      && multiset(AllEntries(Grouped(facts))) == multiset(AllEntries(Grouped(facts[..n])))
          + (if other then multiset{} else multiset{facts[n]})
  {
    var n := |facts| - 1;
    if facts[n].cell.At? {
      AddToAddsOne(Grouped(facts[..n]), facts[n]);
      assert Others(facts) == Others(facts[..n]);
    }
  }

  lemma {:induction false} GroupedKeepsFacts(facts: seq<Fact>)
    ensures multiset(Others(facts)) + multiset(AllEntries(Grouped(facts))) == multiset(facts)
  {
    if facts != [] {
      var n := |facts| - 1;
      GroupedKeepsFacts(facts[..n]);
      GroupedKeepsOneMore(facts);
      MultisetSnoc(facts);
    }
  }

  /** For distinct cells the runs are as long as they can be: no two ranges of one sheet and column touch. */
  lemma RunsAreMaximal(facts: seq<Fact>, keyLe: (Item, Item) -> bool)
    requires DistinctCells(facts)
    ensures forall x, y :: x in Coverage(facts, keyLe) && y in Coverage(facts, keyLe) ==> !Adjacent(x, y)
  {
    var groups := Grouped(facts);
    GroupedIsWellGrouped(facts);
    GroupedKeepsFacts(facts);
    DistinctSurvivesReordering(facts, Others(facts) + AllEntries(groups));
    PartsAreDistinct(Others(facts), AllEntries(groups));
    GroupsStayDistinct(groups);
    OtherItemsCount(facts);
    forall x, y | x in Coverage(facts, keyLe) && y in Coverage(facts, keyLe) ensures !Adjacent(x, y) {
      var all := OtherItems(facts) + AllGroupItems(groups);
      assert x in multiset(Coverage(facts, keyLe)) && y in multiset(Coverage(facts, keyLe));
      assert x in multiset(all) && y in multiset(all);
      if x !in OtherItems(facts) && y !in OtherItems(facts) {
        AllGroupItemsMember(groups, x);
        AllGroupItemsMember(groups, y);
        var i :| 0 <= i < |groups| && x in GroupItems(groups[i]);
        var j :| 0 <= j < |groups| && y in GroupItems(groups[j]);
        GroupItemKey(groups[i], x);
        GroupItemKey(groups[j], y);
        if Adjacent(x, y) {
          assert i == j;
          GroupItemsAreNotAdjacent(groups[i], x, y);
        }
      }
    }
  }

  // ---------------------------------------------------------------- samples

  /** The samples keep to the limit exactly when there are few enough facts or the limit is at least
      two: with a limit of zero or one the slice from the end takes everything. */
  lemma SamplesKeepToLimit(facts: seq<Fact>, maximum: nat)
    ensures |TakeSamples(facts, maximum).facts| <= maximum <==> |facts| <= maximum || maximum >= 2
    ensures maximum < 2 ==> TakeSamples(facts, maximum).facts == facts
    ensures TakeSamples(facts, maximum).complete <==> |facts| <= maximum
    ensures maximum >= 2 && |facts| > maximum ==>
      exists k :: 1 <= k && 2 * k <= maximum < 2 * k + 2
        && TakeSamples(facts, maximum).facts == facts[..k] + facts[|facts| - k..]
  {
    if maximum < 2 {
      assert facts[..0] + facts == facts;
    } else if |facts| > maximum {
      var k := maximum / 2;
      assert TakeSamples(facts, maximum).facts == facts[..k] + facts[|facts| - k..];
    }
  }
}
