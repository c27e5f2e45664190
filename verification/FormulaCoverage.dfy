/** The run-length summary of a workbook's formula cells (scripts/render-digital-product-kit.py). */
module FormulaCoverage {
  import opened Sorting
  import opened Totals

  /** A cell name: letters and a row number, or anything else the pattern does not match. */
  datatype CellName = At(column: string, row: nat) | Other(name: string)

  datatype Fact = Fact(sheet: string, cell: CellName, formula: string)

  datatype Range = One(cell: CellName) | Span(first: CellName, last: CellName)

  datatype Item = Item(sheet: string, range: Range, count: nat, firstFormula: string, lastFormula: string)

  /** A dictionary entry of the grouping; the groups are kept in insertion order. */
  datatype Group = Group(sheet: string, column: string, entries: seq<Fact>)

  datatype Samples = Samples(facts: seq<Fact>, complete: bool)

  // ---------------------------------------------------------------- the summary as a function

  /** Python's `s[-k:]`: everything when `k` is zero. */
  function LastOnes<T>(s: seq<T>, k: nat): seq<T>
    requires k <= |s|
  {
    if k == 0 then s else s[|s| - k..]
  }

  function TakeSamples(facts: seq<Fact>, maximum: nat): Samples {
    if |facts| <= maximum then Samples(facts, true)
    else Samples(facts[..maximum / 2] + LastOnes(facts, maximum / 2), false)
  }

  function SingleItem(f: Fact): Item {
    Item(f.sheet, One(f.cell), 1, f.formula, f.formula)
  }

  /** The items of cells whose name is not a column and a row, in order. */
  function OtherItems(facts: seq<Fact>): seq<Item> {
    if facts == [] then []
    else
      var n := |facts| - 1;
      OtherItems(facts[..n]) + if facts[n].cell.Other? then [SingleItem(facts[n])] else []
  }

  /** `grouped.setdefault((sheet, column), []).append(fact)` on the dictionary's insertion order. */
  function AddTo(groups: seq<Group>, f: Fact): seq<Group>
    requires f.cell.At?
  {
    if groups == [] then [Group(f.sheet, f.cell.column, [f])]
    else if groups[0].sheet == f.sheet && groups[0].column == f.cell.column
    then [groups[0].(entries := groups[0].entries + [f])] + groups[1..]
    else [groups[0]] + AddTo(groups[1..], f)
  }

  function Grouped(facts: seq<Fact>): seq<Group> {
    if facts == [] then []
    else
      var n := |facts| - 1;
      if facts[n].cell.At? then AddTo(Grouped(facts[..n]), facts[n]) else Grouped(facts[..n])
  }

  function Row(f: Fact): nat {
    if f.cell.At? then f.cell.row else 0
  }

  function RowLe(): (Fact, Fact) -> bool {
    (a: Fact, b: Fact) => Row(a) <= Row(b)
  }

  /** The runs of the open run `open` and the entries after it: a run goes on while the next row is
      the one after its last. */
  function RunsFrom(open: seq<Fact>, rest: seq<Fact>): (r: seq<seq<Fact>>)
    requires open != []
    ensures r != [] && forall i :: 0 <= i < |r| ==> r[i] != []
    decreases |rest|
  {
    if rest == [] then [open]
    else if Row(rest[0]) == Row(open[|open| - 1]) + 1 then RunsFrom(open + [rest[0]], rest[1..])
    else [open] + RunsFrom([rest[0]], rest[1..])
  }

  function Runs(entries: seq<Fact>): (r: seq<seq<Fact>>)
    ensures forall i :: 0 <= i < |r| ==> r[i] != []
  {
    if entries == [] then [] else RunsFrom([entries[0]], entries[1..])
  }

  function RunItem(run: seq<Fact>): Item
    requires run != []
  {
    var first, last := run[0], run[|run| - 1];
    var range := if |run| == 1 then One(first.cell) else Span(first.cell, last.cell);
    Item(first.sheet, range, |run|, first.formula, last.formula)
  }

  function RunItems(runs: seq<seq<Fact>>): (r: seq<Item>)
    requires forall i :: 0 <= i < |runs| ==> runs[i] != []
    ensures |r| == |runs|
  {
    seq(|runs|, i requires 0 <= i < |runs| => RunItem(runs[i]))
  }

  function GroupItems(g: Group): seq<Item> {
    RunItems(Runs(Sort(g.entries, RowLe())))
  }

  function AllGroupItems(groups: seq<Group>): seq<Item> {
    if groups == [] then [] else AllGroupItems(groups[..|groups| - 1]) + GroupItems(groups[|groups| - 1])
  }

  /** The coverage; `keyLe` compares items by sheet and range text. */
  function Coverage(facts: seq<Fact>, keyLe: (Item, Item) -> bool): seq<Item> {
    Sort(OtherItems(facts) + AllGroupItems(Grouped(facts)), keyLe)
  }

  // ---------------------------------------------------------------- the code, step by step

  method SplitRuns(entries: seq<Fact>) returns (runs: seq<seq<Fact>>)
    requires entries != []
    ensures runs == Runs(entries)
  {
    var current := [entries[0]];
    runs := [];
    for i := 1 to |entries|
      invariant current != [] && Runs(entries) == runs + RunsFrom(current, entries[i..])
    {
      assert entries[i..][1..] == entries[i + 1..];
      if Row(entries[i]) == Row(current[|current| - 1]) + 1 {
        current := current + [entries[i]];
      } else {
        ConcatAssociates(runs, [current], RunsFrom([entries[i]], entries[i + 1..]));
        runs := runs + [current];
        current := [entries[i]];
      }
    }
    runs := runs + [current];
  }

  /** The loop over the facts. */
  method SortOut(facts: seq<Fact>) returns (others: seq<Item>, grouped: seq<Group>)
    ensures others == OtherItems(facts) && grouped == Grouped(facts)
    ensures forall g :: g in grouped ==> g.entries != []
  {
    others, grouped := [], [];
    for i := 0 to |facts|
      invariant others == OtherItems(facts[..i])
      invariant grouped == Grouped(facts[..i])
      invariant forall g :: g in grouped ==> g.entries != []
    {
      assert facts[..i + 1][..i] == facts[..i];
      if facts[i].cell.Other? {
        others := others + [SingleItem(facts[i])];
      } else {
        AddToKeepsEntries(grouped, facts[i]);
        grouped := AddTo(grouped, facts[i]);
      }
    }
    assert facts[..|facts|] == facts;
  }

  /** The loop over the groups. */
  method CoverGroups(others: seq<Item>, grouped: seq<Group>) returns (coverage: seq<Item>)
    requires forall g :: g in grouped ==> g.entries != []
    ensures coverage == others + AllGroupItems(grouped)
  {
    coverage := others;
    for i := 0 to |grouped|
      invariant coverage == others + AllGroupItems(grouped[..i])
    {
      assert grouped[i] in grouped;
      var runs := SplitRuns(Sort(grouped[i].entries, RowLe()));
      assert grouped[..i + 1][..i] == grouped[..i];
      ConcatAssociates(others, AllGroupItems(grouped[..i]), RunItems(runs));
      coverage := coverage + RunItems(runs);
    }
    assert grouped[..|grouped|] == grouped;
  }

  method CompactFormulaEvidence(facts: seq<Fact>, maximumSamples: nat, keyLe: (Item, Item) -> bool)
    returns (samples: Samples, coverage: seq<Item>)
    ensures samples == TakeSamples(facts, maximumSamples)
    ensures coverage == Coverage(facts, keyLe)
  {
    if |facts| <= maximumSamples {
      samples := Samples(facts, true);
    } else {
      var half := maximumSamples / 2;
      samples := Samples(facts[..half] + LastOnes(facts, half), false);
    }
    var others, grouped := SortOut(facts);
    coverage := CoverGroups(others, grouped);
    coverage := Sort(coverage, keyLe);
  }

  lemma {:induction false} AddToKeepsEntries(groups: seq<Group>, f: Fact)
    requires f.cell.At? && forall g :: g in groups ==> g.entries != []
    ensures forall g :: g in AddTo(groups, f) ==> g.entries != []
  {
    if groups != [] { AddToKeepsEntries(groups[1..], f); }
  }
}
