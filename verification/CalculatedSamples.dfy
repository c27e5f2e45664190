/** What the sample checks of calculated fields are worth: with nonzero denominators they always agree with
    the workbook, and where they do not, the exact reason. */
module CalculatedSamples {
  import opened CalculatedAgreement
  import opened CalculatedFields
  import opened CalculatedOrder
  import opened CalculatedRows
  import opened CalculatedSolutions
  import opened Options

  // ---------------------------------------------------------------- numeric rows, definitions in order

  /** Over numeric leaves and in dependency order, the samples agree exactly if no percentage that shows
      nothing, because an operand is empty or the whole is zero, feeds an arithmetic formula. */
  lemma SampleAgreesIffNoEmptyShareFeedsArithmetic(parse: Reader, headers: seq<string>, calculations: seq<Calculation>,
                                                   row: seq<Cell>, sheet: Sheet)
    requires Accepts(headers, calculations) && Comparable(headers, calculations, row, sheet) && parse("") == None
    requires NumericLeaves(headers, calculations, row)
    ensures AllAgree(parse, headers, calculations, row, sheet) <==>
              NoEmptyShareFeedsArithmetic(headers, calculations, sheet)
  {
    SampleAgreesIffFormulasFit(parse, headers, calculations, row, sheet);
    FitsIffNoEmptyShareFeedsArithmetic(parse, headers, calculations, row, sheet);
  }

  ghost predicate NonzeroDenominators(headers: seq<string>, calculations: seq<Calculation>, sheet: Sheet)
    requires AllValid(headers, calculations)
  {
    forall k :: 0 <= k < |calculations| && calculations[k].operation == PercentOf ==>
      InputCells(headers, calculations, sheet, k)[1] != Num(0.0)
  }

  ghost predicate AllTargetsNumeric(headers: seq<string>, calculations: seq<Calculation>, sheet: Sheet)
    requires AllValid(headers, calculations)
  {
    forall k :: 0 <= k < |calculations| ==> CellOf(headers, calculations, sheet, k).Num?
  }

  ghost predicate NumericBelowRank(headers: seq<string>, calculations: seq<Calculation>, rank: map<string, nat>,
                                   sheet: Sheet, n: nat)
    requires AllValid(headers, calculations)
  {
    forall k :: 0 <= k < |calculations| && calculations[k].target in rank && rank[calculations[k].target] < n ==>
      CellOf(headers, calculations, sheet, k).Num?
  }

  lemma InputsBelowAreNumbers(headers: seq<string>, calculations: seq<Calculation>, row: seq<Cell>,
                              rank: map<string, nat>, sheet: Sheet, k: nat)
    requires AllValid(headers, calculations) && |row| == |headers| && NumericLeaves(headers, calculations, row)
    requires Satisfies(headers, calculations, row, sheet) && Ranks(Dependencies(calculations), rank)
    requires k < |calculations| && calculations[k].target in rank
    requires NumericBelowRank(headers, calculations, rank, sheet, rank[calculations[k].target])
    ensures AllNumbers(InputCells(headers, calculations, sheet, k))
  {
    var cells := InputCells(headers, calculations, sheet, k);
    forall i: nat | i < |cells| ensures cells[i].Num? {
      InputFacts(headers, calculations, k, i);
      if IsTarget(calculations, calculations[k].inputs[i]) {
        var j := TargetHasCalculation(calculations, calculations[k].inputs[i]);
        InputFacts(headers, calculations, j, 0);
        assert CellOf(headers, calculations, sheet, j).Num?;
      }
    }
  }

  lemma FormulaOverNumbersIsNumber(headers: seq<string>, calculations: seq<Calculation>, sheet: Sheet, k: nat)
    requires AllValid(headers, calculations) && k < |calculations| && CellIsComputed(headers, calculations, k, sheet)
    requires AllNumbers(InputCells(headers, calculations, sheet, k))
    requires NonzeroDenominators(headers, calculations, sheet)
    ensures CellOf(headers, calculations, sheet, k).Num?
  {
    if calculations[k].operation == PercentOf {
      var cells := InputCells(headers, calculations, sheet, k);
      assert cells[0].Num? && cells[1].Num? && cells[1] != Num(0.0);
    } else {
      ArithmeticIsNumber(headers, calculations, sheet, k);
    }
  }

  lemma {:induction false} NonzeroMeansNumericBelow(headers: seq<string>, calculations: seq<Calculation>,
                                                    row: seq<Cell>, rank: map<string, nat>, sheet: Sheet, n: nat)
    requires AllValid(headers, calculations) && |row| == |headers| && NumericLeaves(headers, calculations, row)
    requires Satisfies(headers, calculations, row, sheet) && Ranks(Dependencies(calculations), rank)
    requires NonzeroDenominators(headers, calculations, sheet)
    ensures NumericBelowRank(headers, calculations, rank, sheet, n)
  {
    if n > 0 {
      NonzeroMeansNumericBelow(headers, calculations, row, rank, sheet, n - 1);
      forall k | 0 <= k < |calculations| && calculations[k].target in rank && rank[calculations[k].target] == n - 1
        ensures CellOf(headers, calculations, sheet, k).Num?
      {
        InputsBelowAreNumbers(headers, calculations, row, rank, sheet, k);
        FormulaOverNumbersIsNumber(headers, calculations, sheet, k);
      }
    }
  }

  /** With numeric leaves and nonzero denominators every calculated cell is a number, however the definitions
      are listed. */
  lemma NonzeroMeansNumeric(headers: seq<string>, calculations: seq<Calculation>, row: seq<Cell>, sheet: Sheet)
    requires Accepts(headers, calculations) && |row| == |headers| && NumericLeaves(headers, calculations, row)
    requires Satisfies(headers, calculations, row, sheet) && NonzeroDenominators(headers, calculations, sheet)
    ensures AllTargetsNumeric(headers, calculations, sheet)
  {
    var g := Dependencies(calculations);
    AcyclicIffRanked(g);
    var rank :| Ranks(g, rank);
    forall k | 0 <= k < |calculations| ensures CellOf(headers, calculations, sheet, k).Num? {
      DependenciesAt(headers, calculations, k);
      NonzeroMeansNumericBelow(headers, calculations, row, rank, sheet, rank[calculations[k].target] + 1);
    }
  }

  /** Numeric inputs, nonzero denominators and dependency order: the in-order samples equal the workbook's
      unique solution on the whole row. */
  lemma NonzeroDenominatorsAgree(parse: Reader, headers: seq<string>, calculations: seq<Calculation>, row: seq<Cell>,
                                 sheet: Sheet)
    requires Accepts(headers, calculations) && Comparable(headers, calculations, row, sheet) && parse("") == None
    requires NumericLeaves(headers, calculations, row) && NonzeroDenominators(headers, calculations, sheet)
    ensures AllAgree(parse, headers, calculations, row, sheet) && AllTargetsNumeric(headers, calculations, sheet)
  {
    NonzeroMeansNumeric(headers, calculations, row, sheet);
    forall k | 0 <= k < |calculations| ensures !ShowsNothing(headers, calculations, sheet, k) {
      InputFacts(headers, calculations, k, 0);
      assert CellIsComputed(headers, calculations, k, sheet) && CellOf(headers, calculations, sheet, k).Num?;
    }
    SampleAgreesIffNoEmptyShareFeedsArithmetic(parse, headers, calculations, row, sheet);
  }

  // ---------------------------------------------------------------- order matters

  /** A row with numeric leaves on which every formula shows a number; its calculated cells hold anything. */
  ghost predicate NumericRow(headers: seq<string>, calculations: seq<Calculation>, row: seq<Cell>, sheet: Sheet)
    requires AllValid(headers, calculations)
  {
    && |row| == |headers| && NoFaults(row) && NumericLeaves(headers, calculations, row)
    && Satisfies(headers, calculations, row, sheet) && AllTargetsNumeric(headers, calculations, sheet)
  }

  ghost predicate AgreesOnNumericRows(parse: Reader, headers: seq<string>, calculations: seq<Calculation>)
    requires AllValid(headers, calculations)
  {
    forall row, sheet :: NumericRow(headers, calculations, row, sheet) ==>
      AllAgree(parse, headers, calculations, row, sheet)
  }

  ghost predicate HasNumericRow(headers: seq<string>, calculations: seq<Calculation>)
    requires AllValid(headers, calculations)
  {
    exists row, sheet :: NumericRow(headers, calculations, row, sheet)
  }

  /** The row with its calculated cells emptied. */
  function Blanked(headers: seq<string>, calculations: seq<Calculation>, row: seq<Cell>): (r: seq<Cell>)
    requires |row| == |headers|
    ensures |r| == |row|
  {
    seq(|row|, i requires 0 <= i < |row| => if IsTarget(calculations, headers[i]) then Blank else row[i])
  }

  lemma BlankedIsNumericRow(headers: seq<string>, calculations: seq<Calculation>, row: seq<Cell>, sheet: Sheet)
    requires AllValid(headers, calculations) && NumericRow(headers, calculations, row, sheet)
    ensures NumericRow(headers, calculations, Blanked(headers, calculations, row), sheet)
  {
    var blanked := Blanked(headers, calculations, row);
    forall name | name in headers && !IsTarget(calculations, name)
      ensures blanked[ColumnOf(headers, name) - 1] == row[ColumnOf(headers, name) - 1]
    {
    }
  }

  /** On an emptied row a calculation with an input listed too late has no sample, while the workbook shows a
      number. */
  lemma LateInputDisagrees(parse: Reader, headers: seq<string>, calculations: seq<Calculation>, row: seq<Cell>,
                           sheet: Sheet, k: nat, i: nat)
    requires AllValid(headers, calculations) && NumericRow(headers, calculations, row, sheet)
    requires k < |calculations| && i < |calculations[k].inputs| && !InputComesFirst(calculations, k, i)
    ensures !SeenInputsFit(parse, headers, calculations, Blanked(headers, calculations, row), sheet, k)
  {
    var blanked := Blanked(headers, calculations, row);
    InputFacts(headers, calculations, k, i);
    assert Seen(headers, calculations, blanked, sheet, k, i) == Blank;
    MissingInputDisagrees(parse, headers, calculations, blanked, sheet, k, i);
  }

  lemma MissingInputDisagrees(parse: Reader, headers: seq<string>, calculations: seq<Calculation>, row: seq<Cell>,
                              sheet: Sheet, k: nat, i: nat)
    requires AllValid(headers, calculations) && |row| == |headers|
    requires k < |calculations| && i < |calculations[k].inputs|
    requires Seen(headers, calculations, row, sheet, k, i) == Blank && CellOf(headers, calculations, sheet, k).Num?
    ensures !SeenInputsFit(parse, headers, calculations, row, sheet, k)
  {
    assert SeenInputs(parse, headers, calculations, row, sheet, k)[i] == None;
  }

  /** The samples of an accepted set agree with the workbook on every numeric row exactly if every calculated
      input is listed before the calculation that reads it, or no row is numeric at all. */
  lemma AgreesOnNumericRowsIffInOrder(parse: Reader, headers: seq<string>, calculations: seq<Calculation>)
    requires Accepts(headers, calculations) && parse("") == None
    ensures AgreesOnNumericRows(parse, headers, calculations) <==>
              InOrder(calculations) || !HasNumericRow(headers, calculations)
  {
    if InOrder(calculations) {
      forall row, sheet | NumericRow(headers, calculations, row, sheet)
        ensures AllAgree(parse, headers, calculations, row, sheet)
      {
        NumericSheetAgrees(parse, headers, calculations, row, sheet);
      }
    } else if HasNumericRow(headers, calculations) {
      var row, sheet :| NumericRow(headers, calculations, row, sheet);
      var k, i :| 0 <= k < |calculations| && 0 <= i < |calculations[k].inputs| && !InputComesFirst(calculations, k, i);
      BlankedIsNumericRow(headers, calculations, row, sheet);
      LateInputDisagrees(parse, headers, calculations, row, sheet, k, i);
      SampleAgreesIffSeenInputsFit(parse, headers, calculations, Blanked(headers, calculations, row), sheet);
    }
  }

  lemma NumericSheetAgrees(parse: Reader, headers: seq<string>, calculations: seq<Calculation>, row: seq<Cell>,
                           sheet: Sheet)
    requires Accepts(headers, calculations) && parse("") == None && InOrder(calculations)
    requires NumericRow(headers, calculations, row, sheet)
    ensures AllAgree(parse, headers, calculations, row, sheet)
  {
    forall k | 0 <= k < |calculations| ensures !ShowsNothing(headers, calculations, sheet, k) {
      InputFacts(headers, calculations, k, 0);
      assert CellIsComputed(headers, calculations, k, sheet) && CellOf(headers, calculations, sheet, k).Num?;
    }
    SampleAgreesIffNoEmptyShareFeedsArithmetic(parse, headers, calculations, row, sheet);
  }
}
