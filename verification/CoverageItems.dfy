/** What a coverage item shows besides its cells (scripts/render-digital-product-kit.py): the formulas at its two
    ends, a range exactly for several cells, and its place in the order. */
module CoverageItems {
  import opened CoverageRoundTrip
  import opened FormulaCoverage
  import opened Sorting
  import opened Totals

  /** Facts of the sheet at the two ends of the range carry the item's formulas, and the item names a range
      exactly if it counts several cells. */
  ghost predicate ShowsItsEnds(facts: seq<Fact>, item: Item) {
    && (item.range.One? <==> item.count == 1)
    && (exists f :: f in facts && f.sheet == item.sheet && f.cell == FirstCell(item) && f.formula == item.firstFormula)
    && exists f :: f in facts && f.sheet == item.sheet && f.cell == LastCell(item) && f.formula == item.lastFormula
  }

  lemma RunShowsItsEnds(facts: seq<Fact>, run: seq<Fact>, sheet: string, column: string)
    requires run != [] && OneColumn(run, sheet, column) && forall f :: f in run ==> f in facts
    ensures ShowsItsEnds(facts, RunItem(run))
  {
    var item, first, last := RunItem(run), run[0], run[|run| - 1];
    assert first in run && last in run;
    assert first in facts && first.sheet == item.sheet && first.cell == FirstCell(item);
    assert last in facts && last.sheet == item.sheet && last.cell == LastCell(item);
  }

  lemma SingleShowsItsEnds(facts: seq<Fact>, f: Fact)
    requires f in facts
    ensures ShowsItsEnds(facts, SingleItem(f))
  {
    var item := SingleItem(f);
    assert f.sheet == item.sheet && f.cell == FirstCell(item) == LastCell(item);
  }

  lemma RunsHoldEntries(entries: seq<Fact>, i: nat)
    requires i < |Runs(entries)|
    ensures forall f :: f in Runs(entries)[i] ==> f in entries
  {
    RunsJoinUp(entries);
    forall f | f in Runs(entries)[i] ensures f in entries { FlattenMembers(Runs(entries), f); }
  }

  lemma GroupShowsItsEnds(facts: seq<Fact>, g: Group, item: Item)
    requires OneColumn(g.entries, g.sheet, g.column) && (forall f :: f in g.entries ==> f in facts)
    requires item in GroupItems(g)
    ensures ShowsItsEnds(facts, item)
  {
    var sorted := Sort(g.entries, RowLe());
    SortKeepsColumn(g.entries, g.sheet, g.column);
    var i :| 0 <= i < |RunItems(Runs(sorted))| && RunItems(Runs(sorted))[i] == item;
    RunIsPart(sorted, g.sheet, g.column, i);
    RunsHoldEntries(sorted, i);
    forall f | f in Runs(sorted)[i] ensures f in facts {
      assert f in multiset(sorted);
      assert f in multiset(g.entries);
    }
    RunShowsItsEnds(facts, Runs(sorted)[i], g.sheet, g.column);
  }

  lemma {:induction false} GroupsShowTheirEnds(facts: seq<Fact>, groups: seq<Group>, item: Item)
    requires WellGrouped(groups) && (forall g, f :: g in groups && f in g.entries ==> f in facts)
    requires item in AllGroupItems(groups)
    ensures ShowsItsEnds(facts, item)
  {
    var n := |groups| - 1;
    assert groups[n] in groups;
    if item in GroupItems(groups[n]) {
      GroupShowsItsEnds(facts, groups[n], item);
    } else {
      forall g | g in groups[..n] ensures g in groups {}
      GroupsShowTheirEnds(facts, groups[..n], item);
    }
  }

  lemma {:induction false} AddedEntries(groups: seq<Group>, f: Fact, g: Group, e: Fact)
    requires f.cell.At? && g in AddTo(groups, f) && e in g.entries
    ensures e == f || exists h :: h in groups && e in h.entries
  {
    if groups != [] {
      if groups[0].sheet == f.sheet && groups[0].column == f.cell.column {
        if g in groups[1..] { assert g in groups; } else { assert groups[0] in groups; }
      } else if g == groups[0] {
        assert groups[0] in groups;
      } else {
        AddedEntries(groups[1..], f, g, e);
        if e != f {
          var h :| h in groups[1..] && e in h.entries;
          assert h in groups;
        }
      }
    }
  }

  lemma {:induction false} GroupedEntries(facts: seq<Fact>, g: Group, e: Fact)
    requires g in Grouped(facts) && e in g.entries
    ensures e in facts
  {
    var n := |facts| - 1;
    if facts[n].cell.At? {
      AddedEntries(Grouped(facts[..n]), facts[n], g, e);
      if e != facts[n] {
        var h :| h in Grouped(facts[..n]) && e in h.entries;
        GroupedEntries(facts[..n], h, e);
      }
    } else {
      GroupedEntries(facts[..n], g, e);
    }
  }

  lemma {:induction false} OtherItemsAreSingle(facts: seq<Fact>, item: Item)
    requires item in OtherItems(facts)
    ensures exists f :: f in facts && item == SingleItem(f)
  {
    var n := |facts| - 1;
    if item in OtherItems(facts[..n]) {
      OtherItemsAreSingle(facts[..n], item);
      var f :| f in facts[..n] && item == SingleItem(f);
      assert f in facts;
    } else {
      assert facts[n] in facts && item == SingleItem(facts[n]);
    }
  }

  /** Every item of the coverage shows the formulas at the ends of its range, and names a range exactly if it
      counts several cells. */
  lemma ItemsShowTheirEnds(facts: seq<Fact>, keyLe: (Item, Item) -> bool, item: Item)
    requires item in Coverage(facts, keyLe)
    ensures ShowsItsEnds(facts, item)
  {
    var others, grouped := OtherItems(facts), Grouped(facts);
    assert item in multiset(Coverage(facts, keyLe));
    assert item in multiset(others + AllGroupItems(grouped));
    if item in others {
      OtherItemsAreSingle(facts, item);
      var f :| f in facts && item == SingleItem(f);
      SingleShowsItsEnds(facts, f);
    } else {
      GroupedIsWellGrouped(facts);
      forall g, f | g in grouped && f in g.entries ensures f in facts { GroupedEntries(facts, g, f); }
      GroupsShowTheirEnds(facts, grouped, item);
    }
  }

  /** The coverage is in the order of its key. */
  lemma CoverageIsInOrder(facts: seq<Fact>, keyLe: (Item, Item) -> bool)
    requires TotalPreorder(keyLe)
    ensures SortedBy(Coverage(facts, keyLe), keyLe)
  {
    SortSorts(OtherItems(facts) + AllGroupItems(Grouped(facts)), keyLe);
  }
}
