/** Agreement of samples and workbook over whole definition sets: listed in dependency order, with percentages
    that have nothing to divide by, and listed out of order. */
module CalculatedOrder {
  import opened CalculatedAgreement
  import opened CalculatedFields
  import opened CalculatedRows
  import opened CalculatedSolutions
  import opened Options

  // ---------------------------------------------------------------- definitions in dependency order

  /** Every calculated input is the target of an earlier calculation. */
  ghost predicate InOrder(calculations: seq<Calculation>) {
    forall k, i :: 0 <= k < |calculations| && 0 <= i < |calculations[k].inputs| ==> InputComesFirst(calculations, k, i)
  }

  ghost predicate InputComesFirst(calculations: seq<Calculation>, k: nat, i: nat)
    requires k < |calculations| && i < |calculations[k].inputs|
  {
    IsTarget(calculations, calculations[k].inputs[i]) ==> IsTarget(calculations[..k], calculations[k].inputs[i])
  }

  /** No stored cell is an error: rows come from the source text. */
  ghost predicate NoFaults(row: seq<Cell>) {
    forall i :: 0 <= i < |row| ==> !row[i].Fault?
  }

  ghost function InputCells(headers: seq<string>, calculations: seq<Calculation>, sheet: Sheet, k: nat): (r: seq<Cell>)
    requires AllValid(headers, calculations) && k < |calculations|
    ensures |r| == |calculations[k].inputs| >= 2
  {
    CellsAt(sheet, DefinitionAt(headers, calculations, k).inputColumns)
  }

  ghost predicate CalculationFits(parse: Reader, headers: seq<string>, calculations: seq<Calculation>, sheet: Sheet,
                                  k: nat)
    requires AllValid(headers, calculations) && k < |calculations|
  {
    FormulaFits(parse, calculations[k].operation, InputCells(headers, calculations, sheet, k))
  }

  /** A sheet of the set's formulas over the row, with the definitions in dependency order. */
  ghost predicate Comparable(headers: seq<string>, calculations: seq<Calculation>, row: seq<Cell>, sheet: Sheet) {
    && AllValid(headers, calculations) && |row| == |headers| && NoFaults(row)
    && Satisfies(headers, calculations, row, sheet) && InOrder(calculations)
  }

  /** In order, the sample sees the workbook's own input cells while everything earlier agrees. */
  lemma SeesTheWorkbook(parse: Reader, headers: seq<string>, calculations: seq<Calculation>, row: seq<Cell>,
                        sheet: Sheet, k: nat, i: nat)
    requires Comparable(headers, calculations, row, sheet)
    requires k < |calculations| && i < |calculations[k].inputs|
    requires AgreeUpTo(parse, headers, calculations, row, sheet, k)
    ensures SameInput(Seen(headers, calculations, row, sheet, k, i), InputCells(headers, calculations, sheet, k)[i])
  {
    InputFacts(headers, calculations, k, i);
    assert InputComesFirst(calculations, k, i);
    var name := calculations[k].inputs[i];
    assert Column(headers, name) == ColumnOf(headers, name);
    if IsTarget(calculations[..k], name) {
      var j := TargetHasCalculation(calculations[..k], name);
      InputFacts(headers, calculations, j, 0);
      assert AgreesAt(parse, headers, calculations, row, sheet, j);
    }
  }

  lemma FitsInOrder(parse: Reader, headers: seq<string>, calculations: seq<Calculation>, row: seq<Cell>, sheet: Sheet,
                    k: nat)
    requires Comparable(headers, calculations, row, sheet) && k < |calculations| && parse("") == None
    requires AgreeUpTo(parse, headers, calculations, row, sheet, k)
    ensures SeenInputsFit(parse, headers, calculations, row, sheet, k) <==>
              CalculationFits(parse, headers, calculations, sheet, k)
  {
    var d := DefinitionAt(headers, calculations, k);
    assert ValidCalculation(headers, Targets(calculations[..k]), calculations[k]);
    var seen := seq(|d.inputColumns|,
      i requires 0 <= i < |d.inputColumns| => Seen(headers, calculations, row, sheet, k, i));
    forall i: nat | i < |seen| ensures SameInput(seen[i], sheet(d.inputColumns[i])) {
      SeesTheWorkbook(parse, headers, calculations, row, sheet, k, i);
    }
    EvaluatorsAgreeOnce(parse, d, seen, sheet);
    assert NumericValues(parse, seen) == SeenInputs(parse, headers, calculations, row, sheet, k);
    assert CellIsComputed(headers, calculations, k, sheet);
  }

  /** Definitions in dependency order, any row: the samples agree with the workbook exactly if the input cells
      of every formula meet its operation's condition. */
  lemma SampleAgreesIffFormulasFit(parse: Reader, headers: seq<string>, calculations: seq<Calculation>, row: seq<Cell>,
                                   sheet: Sheet)
    requires Comparable(headers, calculations, row, sheet) && parse("") == None
    ensures AllAgree(parse, headers, calculations, row, sheet) <==>
              forall k :: 0 <= k < |calculations| ==> CalculationFits(parse, headers, calculations, sheet, k)
  {
    SampleAgreesIffSeenInputsFit(parse, headers, calculations, row, sheet);
    if AllAgree(parse, headers, calculations, row, sheet) {
      forall k | 0 <= k < |calculations| ensures CalculationFits(parse, headers, calculations, sheet, k) {
        ShorterAgrees(parse, headers, calculations, row, sheet, k, |calculations|);
        FitsInOrder(parse, headers, calculations, row, sheet, k);
      }
    }
    if forall k :: 0 <= k < |calculations| ==> CalculationFits(parse, headers, calculations, sheet, k) {
      ghost var agree := (n: nat) => n <= |calculations| && AgreeUpTo(parse, headers, calculations, row, sheet, n);
      forall k: nat | k < |calculations| && agree(k) ensures agree(k + 1) {
        FitsInOrder(parse, headers, calculations, row, sheet, k);
        OneMoreAgrees(parse, headers, calculations, row, sheet, k);
      }
      Climb(agree, |calculations|, |calculations|);
    }
  }

  // ---------------------------------------------------------------- numeric rows

  ghost predicate NumericLeaves(headers: seq<string>, calculations: seq<Calculation>, row: seq<Cell>)
    requires |row| == |headers|
  {
    forall name :: name in headers && !IsTarget(calculations, name) ==> row[ColumnOf(headers, name) - 1].Num?
  }

  /** A percentage whose guard holds: an operand is empty, or the whole is zero. */
  ghost predicate ShowsNothing(headers: seq<string>, calculations: seq<Calculation>, sheet: Sheet, k: nat)
    requires AllValid(headers, calculations) && k < |calculations|
  {
    var cells := InputCells(headers, calculations, sheet, k);
    calculations[k].operation == PercentOf && (LooksEmpty(cells[0]) || LooksEmpty(cells[1]) || cells[1] == Num(0.0))
  }

  /** Calculation `k` is an input of the arithmetic formula of calculation `m`. */
  ghost predicate FeedsArithmetic(calculations: seq<Calculation>, k: nat, m: nat)
    requires k < |calculations| && m < |calculations|
  {
    calculations[m].operation != PercentOf && calculations[k].target in calculations[m].inputs
  }

  ghost predicate NoEmptyShareFeedsArithmetic(headers: seq<string>, calculations: seq<Calculation>, sheet: Sheet)
    requires AllValid(headers, calculations)
  {
    forall k, m :: 0 <= k < |calculations| && 0 <= m < |calculations| ==>
      !(ShowsNothing(headers, calculations, sheet, k) && FeedsArithmetic(calculations, k, m))
  }

  /** What a calculated cell can hold over numeric leaves. */
  ghost predicate NumberOrEmptyShare(headers: seq<string>, calculations: seq<Calculation>, sheet: Sheet, k: nat)
    requires AllValid(headers, calculations) && k < |calculations|
  {
    CellOf(headers, calculations, sheet, k).Num?
    || (CellOf(headers, calculations, sheet, k) == Text("") && ShowsNothing(headers, calculations, sheet, k))
  }

  /** All calculated cells of rank below `n` are numbers or empty percentages. */
  ghost predicate SoundBelow(headers: seq<string>, calculations: seq<Calculation>, rank: map<string, nat>,
                             sheet: Sheet, n: nat)
    requires AllValid(headers, calculations)
  {
    forall k :: 0 <= k < |calculations| && calculations[k].target in rank && rank[calculations[k].target] < n ==>
      NumberOrEmptyShare(headers, calculations, sheet, k)
  }

  /** An input cell is a number, or the empty text of a percentage of lower rank. */
  lemma InputIsNumberOrEmptyShare(headers: seq<string>, calculations: seq<Calculation>, row: seq<Cell>,
                                  rank: map<string, nat>, sheet: Sheet, k: nat, i: nat) returns (j: nat)
    requires AllValid(headers, calculations) && |row| == |headers| && NumericLeaves(headers, calculations, row)
    requires Satisfies(headers, calculations, row, sheet) && Ranks(Dependencies(calculations), rank)
    requires k < |calculations| && i < |calculations[k].inputs| && calculations[k].target in rank
    requires SoundBelow(headers, calculations, rank, sheet, rank[calculations[k].target])
    ensures var cell := InputCells(headers, calculations, sheet, k)[i];
      cell.Num?
      || (cell == Text("") && j < |calculations| && calculations[j].target == calculations[k].inputs[i]
          && ShowsNothing(headers, calculations, sheet, j))
  {
    InputFacts(headers, calculations, k, i);
    j := 0;
    var name := calculations[k].inputs[i];
    if IsTarget(calculations, name) {
      j := TargetHasCalculation(calculations, name);
      InputFacts(headers, calculations, j, 0);
      assert NumberOrEmptyShare(headers, calculations, sheet, j);
    }
  }

  /** A percentage over numbers and empty texts is a number, or shows nothing by its guard. */
  lemma ShareIsNumberOrEmpty(headers: seq<string>, calculations: seq<Calculation>, sheet: Sheet, k: nat)
    requires AllValid(headers, calculations) && k < |calculations| && calculations[k].operation == PercentOf
    requires CellIsComputed(headers, calculations, k, sheet)
    requires forall i :: 0 <= i < |InputCells(headers, calculations, sheet, k)| ==>
               var c := InputCells(headers, calculations, sheet, k)[i]; c.Num? || c == Text("")
    ensures NumberOrEmptyShare(headers, calculations, sheet, k)
  {
    var cells := InputCells(headers, calculations, sheet, k);
    assert cells[0] == cells[0] && cells[1] == cells[1];
  }

  /** An arithmetic formula over numbers is a number. */
  lemma ArithmeticIsNumber(headers: seq<string>, calculations: seq<Calculation>, sheet: Sheet, k: nat)
    requires AllValid(headers, calculations) && k < |calculations| && calculations[k].operation != PercentOf
    requires CellIsComputed(headers, calculations, k, sheet) && AllNumbers(InputCells(headers, calculations, sheet, k))
    ensures CellOf(headers, calculations, sheet, k).Num?
  {
    var cells := InputCells(headers, calculations, sheet, k);
    assert cells[0].Num? && cells[1].Num?;
    assert sheet(DefinitionAt(headers, calculations, k).inputColumns[0]) == cells[0];
  }

  /** Below every rank, calculated cells are numbers or empty percentages, if no empty percentage feeds
      arithmetic. */
  lemma {:induction false} NumericBelow(headers: seq<string>, calculations: seq<Calculation>, row: seq<Cell>,
                                        rank: map<string, nat>, sheet: Sheet, n: nat)
    requires AllValid(headers, calculations) && |row| == |headers| && NumericLeaves(headers, calculations, row)
    requires Satisfies(headers, calculations, row, sheet) && Ranks(Dependencies(calculations), rank)
    requires NoEmptyShareFeedsArithmetic(headers, calculations, sheet)
    ensures SoundBelow(headers, calculations, rank, sheet, n)
  {
    if n > 0 {
      NumericBelow(headers, calculations, row, rank, sheet, n - 1);
      forall k | 0 <= k < |calculations| && calculations[k].target in rank && rank[calculations[k].target] == n - 1
        ensures NumberOrEmptyShare(headers, calculations, sheet, k)
      {
        NumericAt(headers, calculations, row, rank, sheet, k);
      }
    }
  }

  lemma NumericAt(headers: seq<string>, calculations: seq<Calculation>, row: seq<Cell>, rank: map<string, nat>,
                  sheet: Sheet, k: nat)
    requires AllValid(headers, calculations) && |row| == |headers| && NumericLeaves(headers, calculations, row)
    requires Satisfies(headers, calculations, row, sheet) && Ranks(Dependencies(calculations), rank)
    requires NoEmptyShareFeedsArithmetic(headers, calculations, sheet)
    requires k < |calculations| && calculations[k].target in rank
    requires SoundBelow(headers, calculations, rank, sheet, rank[calculations[k].target])
    ensures NumberOrEmptyShare(headers, calculations, sheet, k)
    ensures calculations[k].operation != PercentOf ==> AllNumbers(InputCells(headers, calculations, sheet, k))
  {
    var cells := InputCells(headers, calculations, sheet, k);
    assert CellIsComputed(headers, calculations, k, sheet);
    forall i: nat | i < |cells|
      ensures cells[i].Num? || (cells[i] == Text("") && calculations[k].operation == PercentOf)
    {
      var j := InputIsNumberOrEmptyShare(headers, calculations, row, rank, sheet, k, i);
      if !cells[i].Num? { assert !FeedsArithmetic(calculations, j, k); }
    }
    if calculations[k].operation == PercentOf {
      ShareIsNumberOrEmpty(headers, calculations, sheet, k);
    } else {
      ArithmeticIsNumber(headers, calculations, sheet, k);
    }
  }

  /** Over numeric leaves, every arithmetic formula is given numbers exactly if no percentage that shows
      nothing feeds one. */
  lemma FitsIffNoEmptyShareFeedsArithmetic(parse: Reader, headers: seq<string>, calculations: seq<Calculation>,
                                           row: seq<Cell>, sheet: Sheet)
    requires Accepts(headers, calculations) && |row| == |headers| && NumericLeaves(headers, calculations, row)
    requires Satisfies(headers, calculations, row, sheet) && parse("") == None
    ensures (forall k :: 0 <= k < |calculations| ==> CalculationFits(parse, headers, calculations, sheet, k)) <==>
              NoEmptyShareFeedsArithmetic(headers, calculations, sheet)
  {
    if NoEmptyShareFeedsArithmetic(headers, calculations, sheet) {
      var g := Dependencies(calculations);
      AcyclicIffRanked(g);
      var rank :| Ranks(g, rank);
      forall k | 0 <= k < |calculations| ensures CalculationFits(parse, headers, calculations, sheet, k) {
        DependenciesAt(headers, calculations, k);
        NumericBelow(headers, calculations, row, rank, sheet, rank[calculations[k].target] + 1);
        SoundFits(parse, headers, calculations, row, rank, sheet, k);
      }
    }
    forall k, m | 0 <= k < |calculations| && 0 <= m < |calculations| && ShowsNothing(headers, calculations, sheet, k)
                  && FeedsArithmetic(calculations, k, m)
      ensures !CalculationFits(parse, headers, calculations, sheet, m)
    {
      EmptyShareSpoils(parse, headers, calculations, row, sheet, k, m);
    }
  }

  lemma SoundFits(parse: Reader, headers: seq<string>, calculations: seq<Calculation>, row: seq<Cell>,
                  rank: map<string, nat>, sheet: Sheet, k: nat)
    requires AllValid(headers, calculations) && |row| == |headers| && NumericLeaves(headers, calculations, row)
    requires Satisfies(headers, calculations, row, sheet) && Ranks(Dependencies(calculations), rank)
    requires NoEmptyShareFeedsArithmetic(headers, calculations, sheet)
    requires k < |calculations| && calculations[k].target in rank
    requires SoundBelow(headers, calculations, rank, sheet, rank[calculations[k].target] + 1)
    ensures CalculationFits(parse, headers, calculations, sheet, k)
  {
    assert ValidCalculation(headers, Targets(calculations[..k]), calculations[k]);
    if calculations[k].operation == PercentOf {
      var i := InputIsNumberOrEmptyShare(headers, calculations, row, rank, sheet, k, 0);
      var j := InputIsNumberOrEmptyShare(headers, calculations, row, rank, sheet, k, 1);
      ShareCellsFit(parse, InputCells(headers, calculations, sheet, k));
    } else {
      NumericAt(headers, calculations, row, rank, sheet, k);
      NumbersFit(parse, calculations[k].operation, InputCells(headers, calculations, sheet, k));
    }
  }

  lemma ShareCellsFit(parse: Reader, cells: seq<Cell>)
    requires |cells| == 2
    requires (cells[0].Num? || cells[0] == Text("")) && (cells[1].Num? || cells[1] == Text(""))
    ensures FormulaFits(parse, PercentOf, cells)
  {
  }

  lemma NumbersFit(parse: Reader, operation: Operation, cells: seq<Cell>)
    requires |cells| >= 2 && AllNumbers(cells) && operation != Unknown
    ensures FormulaFits(parse, operation, cells)
  {
    NoTextNoNumbers(parse, cells);
  }

  lemma {:induction false} NoTextNoNumbers(parse: Reader, cells: seq<Cell>)
    requires AllNumbers(cells)
    ensures TextNumbers(parse, cells) == []
  {
    if cells != [] {
      assert cells[|cells| - 1].Num?;
      NoTextNoNumbers(parse, cells[..|cells| - 1]);
    }
  }

  /** A percentage that shows nothing spoils the arithmetic it feeds. */
  lemma EmptyShareSpoils(parse: Reader, headers: seq<string>, calculations: seq<Calculation>, row: seq<Cell>,
                         sheet: Sheet, k: nat, m: nat)
    requires AllValid(headers, calculations) && |row| == |headers| && Satisfies(headers, calculations, row, sheet)
    requires k < |calculations| && m < |calculations| && parse("") == None
    requires ShowsNothing(headers, calculations, sheet, k) && FeedsArithmetic(calculations, k, m)
    requires NumericLeaves(headers, calculations, row)
    ensures !CalculationFits(parse, headers, calculations, sheet, m)
  {
    var i :| 0 <= i < |calculations[m].inputs| && calculations[m].inputs[i] == calculations[k].target;
    InputFacts(headers, calculations, m, i);
    InputFacts(headers, calculations, k, 0);
    assert CellIsComputed(headers, calculations, k, sheet);
    var cells := InputCells(headers, calculations, sheet, m);
    assert cells[i] == CellOf(headers, calculations, sheet, k);
    TextSpoils(parse, calculations[m].operation, cells, i);
  }

  lemma TextSpoils(parse: Reader, operation: Operation, cells: seq<Cell>, i: nat)
    requires |cells| >= 2 && i < |cells| && operation != PercentOf && parse("") == None
    requires cells[i] == Text("") || cells[i].Fault?
    ensures !FormulaFits(parse, operation, cells)
  {
  }
}
