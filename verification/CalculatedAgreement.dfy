/** When the in-order sample evaluation agrees with the workbook's formulas, for every row: also for rows
    whose calculated cells were filled in, and for blank and text cells. */
module CalculatedAgreement {
  import opened CalculatedFields
  import opened CalculatedRows
  import opened CalculatedSolutions
  import opened Options

  /** Reads numbers written as text. */
  type Reader = string -> Option<real>

  // ---------------------------------------------------------------- what agreement means

  /** A sample result and a workbook cell say the same: a number, or nothing and an empty text. */
  ghost predicate Agrees(result: Option<real>, cell: Cell) {
    if result.Some? then cell == Num(result.value) else cell == Text("")
  }

  ghost function CellOf(headers: seq<string>, calculations: seq<Calculation>, sheet: Sheet, k: nat): Cell
    requires AllValid(headers, calculations) && k < |calculations|
  {
    sheet(DefinitionAt(headers, calculations, k).targetColumn)
  }

  ghost predicate AgreesAt(parse: Reader, headers: seq<string>, calculations: seq<Calculation>, row: seq<Cell>,
                           sheet: Sheet, k: nat)
    requires AllValid(headers, calculations) && |row| == |headers| && k < |calculations|
  {
    Agrees(Result(parse, headers, calculations, row, k), CellOf(headers, calculations, sheet, k))
  }

  ghost predicate AgreeUpTo(parse: Reader, headers: seq<string>, calculations: seq<Calculation>, row: seq<Cell>,
                            sheet: Sheet, n: nat)
    requires AllValid(headers, calculations) && |row| == |headers| && n <= |calculations|
  {
    forall k :: 0 <= k < n ==> AgreesAt(parse, headers, calculations, row, sheet, k)
  }

  /** The samples of the whole row agree with the workbook. */
  ghost predicate AllAgree(parse: Reader, headers: seq<string>, calculations: seq<Calculation>, row: seq<Cell>,
                           sheet: Sheet)
    requires AllValid(headers, calculations) && |row| == |headers|
  {
    AgreeUpTo(parse, headers, calculations, row, sheet, |calculations|)
  }

  // ---------------------------------------------------------------- what the sample sees

  lemma {:induction false} AfterOfUntouched(parse: Reader, calculations: seq<Calculation>, start: Values, name: string)
    requires !IsTarget(calculations, name)
    ensures Lookup(After(parse, calculations, start), name) == Lookup(start, name)
  {
    if calculations != [] {
      var n := |calculations| - 1;
      assert calculations[n] in calculations;
      assert forall c :: c in calculations[..n] ==> c in calculations;
      AfterOfUntouched(parse, calculations[..n], start, name);
    }
  }

  lemma {:induction false} AfterOfTarget(parse: Reader, headers: seq<string>, calculations: seq<Calculation>,
                                         row: seq<Cell>, n: nat, j: nat)
    requires AllValid(headers, calculations) && |row| == |headers| && j < n <= |calculations|
    ensures Lookup(After(parse, calculations[..n], Start(headers, row)), calculations[j].target)
         == AsCell(Result(parse, headers, calculations, row, j))
  {
    assert calculations[..n][..n - 1] == calculations[..n - 1];
    if j < n - 1 {
      TargetsAreDistinct(headers, calculations, j, n - 1);
      AfterOfTarget(parse, headers, calculations, row, n - 1, j);
    }
  }

  /** A workbook value as the sample keeps it: numbers, and nothing for anything else. */
  function Kept(c: Cell): Cell {
    if c.Num? then c else Blank
  }

  /** Input `i` of calculation `k`: the workbook's value if it is calculated earlier, else the stored cell,
      which for a field calculated later is what the row held before. */
  ghost function Seen(headers: seq<string>, calculations: seq<Calculation>, row: seq<Cell>, sheet: Sheet, k: nat,
                      i: nat): Cell
    requires AllValid(headers, calculations) && |row| == |headers|
    requires k < |calculations| && i < |calculations[k].inputs|
  {
    var name := calculations[k].inputs[i];
    if IsTarget(calculations[..k], name) then Kept(sheet(Column(headers, name)))
    else if name in headers then row[ColumnOf(headers, name) - 1]
    else Blank
  }

  ghost function SeenInputs(parse: Reader, headers: seq<string>, calculations: seq<Calculation>, row: seq<Cell>,
                            sheet: Sheet, k: nat): (r: seq<Option<real>>)
    requires AllValid(headers, calculations) && |row| == |headers| && k < |calculations|
    ensures |r| == |calculations[k].inputs| >= 2
  {
    assert ValidCalculation(headers, Targets(calculations[..k]), calculations[k]);
    seq(|calculations[k].inputs|, i requires 0 <= i < |calculations[k].inputs| =>
      NumericValue(parse, Seen(headers, calculations, row, sheet, k, i)))
  }

  /** Calculation `k` evaluated on what it sees, compared with what its formula shows. */
  ghost predicate SeenInputsFit(parse: Reader, headers: seq<string>, calculations: seq<Calculation>, row: seq<Cell>,
                                sheet: Sheet, k: nat)
    requires AllValid(headers, calculations) && |row| == |headers| && k < |calculations|
  {
    Agrees(Compute(calculations[k].operation, SeenInputs(parse, headers, calculations, row, sheet, k)),
           CellOf(headers, calculations, sheet, k))
  }

  /** While all earlier calculations agree, the sample sees just that. */
  lemma SampleSees(parse: Reader, headers: seq<string>, calculations: seq<Calculation>, row: seq<Cell>, sheet: Sheet,
                   k: nat, i: nat)
    requires AllValid(headers, calculations) && |row| == |headers|
    requires k < |calculations| && i < |calculations[k].inputs|
    requires AgreeUpTo(parse, headers, calculations, row, sheet, k)
    ensures Lookup(After(parse, calculations[..k], Start(headers, row)), calculations[k].inputs[i])
         == Seen(headers, calculations, row, sheet, k, i)
  {
    InputFacts(headers, calculations, k, i);
    var name := calculations[k].inputs[i];
    if IsTarget(calculations[..k], name) {
      var j := TargetHasCalculation(calculations[..k], name);
      AfterOfTarget(parse, headers, calculations, row, k, j);
      InputFacts(headers, calculations, j, 0);
      assert AgreesAt(parse, headers, calculations, row, sheet, j);
    } else {
      AfterOfUntouched(parse, calculations[..k], Start(headers, row), name);
    }
  }

  lemma ResultIsOfSeenInputs(parse: Reader, headers: seq<string>, calculations: seq<Calculation>, row: seq<Cell>,
                             sheet: Sheet, k: nat)
    requires AllValid(headers, calculations) && |row| == |headers| && k < |calculations|
    requires AgreeUpTo(parse, headers, calculations, row, sheet, k)
    ensures Result(parse, headers, calculations, row, k)
         == Compute(calculations[k].operation, SeenInputs(parse, headers, calculations, row, sheet, k))
  {
    var c, values := calculations[k], After(parse, calculations[..k], Start(headers, row));
    forall i: nat | i < |c.inputs|
      ensures Lookup(values, c.inputs[i]) == Seen(headers, calculations, row, sheet, k, i) {
      SampleSees(parse, headers, calculations, row, sheet, k, i);
    }
    assert Inputs(parse, c, values) == SeenInputs(parse, headers, calculations, row, sheet, k);
  }

  lemma {:induction false} Climb(p: nat -> bool, top: nat, n: nat)
    requires n <= top && p(0) && forall k: nat :: k < top && p(k) ==> p(k + 1)
    ensures p(n)
  {
    if n > 0 { Climb(p, top, n - 1); }
  }

  lemma OneMoreAgrees(parse: Reader, headers: seq<string>, calculations: seq<Calculation>, row: seq<Cell>, sheet: Sheet,
                      k: nat)
    requires AllValid(headers, calculations) && |row| == |headers| && k < |calculations|
    requires AgreeUpTo(parse, headers, calculations, row, sheet, k)
    ensures AgreeUpTo(parse, headers, calculations, row, sheet, k + 1) <==>
              SeenInputsFit(parse, headers, calculations, row, sheet, k)
  {
    ResultIsOfSeenInputs(parse, headers, calculations, row, sheet, k);
    assert AgreeUpTo(parse, headers, calculations, row, sheet, k + 1) <==>
             AgreesAt(parse, headers, calculations, row, sheet, k);
  }

  /** The exact rule for every row, whatever its cells hold and however the definitions are listed: the
      samples agree exactly if each calculation, given the workbook's values of what is calculated earlier and
      the stored cells of everything else, results in what its formula shows. */
  lemma SampleAgreesIffSeenInputsFit(parse: Reader, headers: seq<string>, calculations: seq<Calculation>,
                                     row: seq<Cell>, sheet: Sheet)
    requires AllValid(headers, calculations) && |row| == |headers|
    ensures AllAgree(parse, headers, calculations, row, sheet) <==>
              forall k :: 0 <= k < |calculations| ==> SeenInputsFit(parse, headers, calculations, row, sheet, k)
  {
    if forall k :: 0 <= k < |calculations| ==> SeenInputsFit(parse, headers, calculations, row, sheet, k) {
      ghost var agree := (n: nat) => n <= |calculations| && AgreeUpTo(parse, headers, calculations, row, sheet, n);
      forall k: nat | k < |calculations| && agree(k) ensures agree(k + 1) {
        OneMoreAgrees(parse, headers, calculations, row, sheet, k);
      }
      Climb(agree, |calculations|, |calculations|);
    }
    if AllAgree(parse, headers, calculations, row, sheet) {
      forall k | 0 <= k < |calculations| ensures SeenInputsFit(parse, headers, calculations, row, sheet, k) {
        ShorterAgrees(parse, headers, calculations, row, sheet, k, |calculations|);
        ShorterAgrees(parse, headers, calculations, row, sheet, k + 1, |calculations|);
        OneMoreAgrees(parse, headers, calculations, row, sheet, k);
      }
    }
  }

  lemma ShorterAgrees(parse: Reader, headers: seq<string>, calculations: seq<Calculation>, row: seq<Cell>, sheet: Sheet,
                      k: nat, n: nat)
    requires AllValid(headers, calculations) && |row| == |headers| && k <= n <= |calculations|
    requires AgreeUpTo(parse, headers, calculations, row, sheet, n)
    ensures AgreeUpTo(parse, headers, calculations, row, sheet, k)
  {
  }

  // ---------------------------------------------------------------- one formula and one evaluation

  ghost predicate AllNumbers(cells: seq<Cell>) {
    forall i :: 0 <= i < |cells| ==> cells[i].Num?
  }

  ghost predicate AllBlank(cells: seq<Cell>) {
    forall i :: 0 <= i < |cells| ==> cells[i] == Blank
  }

  /** Numbers, and text that reads as a number. */
  ghost predicate AllNumeric(parse: Reader, cells: seq<Cell>) {
    forall i :: 0 <= i < |cells| ==> NumericValue(parse, cells[i]).Some?
  }

  /** The numbers the sample reads out of text cells; `SUM` passes over those cells. */
  function TextNumbers(parse: Reader, cells: seq<Cell>): seq<real> {
    if cells == [] then []
    else
      var n := |cells| - 1;
      TextNumbers(parse, cells[..n])
      + if cells[n].Text? && parse(cells[n].text).Some? then [parse(cells[n].text).value] else []
  }

  /** The condition on the input cells of a formula. */
  ghost predicate FormulaFits(parse: Reader, operation: Operation, cells: seq<Cell>)
    requires |cells| >= 2
  {
    match operation
    case Multiply => AllNumbers(cells) || AllBlank(cells)
    case Subtract => AllNumbers(cells) || AllBlank(cells)
    case Sum => AllBlank(cells) || (AllNumeric(parse, cells) && AddUp(TextNumbers(parse, cells)) == 0.0)
    case PercentOf => AllNumbers(cells) || LooksEmpty(cells[0]) || LooksEmpty(cells[1]) || cells[1] == Num(0.0)
    case Unknown => false
  }

  /** The sample sees the workbook's cell, or nothing where the workbook shows an empty text. */
  ghost predicate SameInput(seen: Cell, cell: Cell) {
    (seen == cell && !cell.Fault?) || (seen == Blank && cell == Text(""))
  }

  /** What `numeric_value` reads out of each cell. */
  function NumericValues(parse: Reader, cells: seq<Cell>): (r: seq<Option<real>>)
    ensures |r| == |cells|
  {
    seq(|cells|, i requires 0 <= i < |cells| => NumericValue(parse, cells[i]))
  }

  lemma PairFits(parse: Reader, d: Definition, cells: seq<Cell>, sheet: Sheet)
    requires d.operation in {Multiply, Subtract} && |d.inputColumns| == 2 && cells == CellsAt(sheet, d.inputColumns)
    requires forall i :: 0 <= i < 2 ==> !cells[i].Fault?
    ensures Agrees(Compute(d.operation, NumericValues(parse, cells)), EvalFormula(FormulaOf(d), sheet)) <==>
              FormulaFits(parse, d.operation, cells)
  {
    var p, q := cells[0], cells[1];
    assert p == sheet(d.inputColumns[0]) && q == sheet(d.inputColumns[1]);
    assert NumericValues(parse, cells)[0] == NumericValue(parse, p);
    assert NumericValues(parse, cells)[1] == NumericValue(parse, q);
    assert AllBlank(cells) <==> p == Blank && q == Blank;
    assert AllNumbers(cells) <==> p.Num? && q.Num?;
  }

  lemma ShareFits(parse: Reader, d: Definition, cells: seq<Cell>, sheet: Sheet)
    requires d.operation == PercentOf && |d.inputColumns| == 2 && cells == CellsAt(sheet, d.inputColumns)
    requires parse("") == None && forall i :: 0 <= i < 2 ==> !cells[i].Fault?
    ensures Agrees(Compute(d.operation, NumericValues(parse, cells)), EvalFormula(FormulaOf(d), sheet)) <==>
              FormulaFits(parse, d.operation, cells)
  {
    var p, q := cells[0], cells[1];
    assert p == sheet(d.inputColumns[0]) && q == sheet(d.inputColumns[1]);
    assert NumericValues(parse, cells)[0] == NumericValue(parse, p);
    assert NumericValues(parse, cells)[1] == NumericValue(parse, q);
    assert AllNumbers(cells) <==> p.Num? && q.Num?;
  }

  function Unwrapped(values: seq<Option<real>>): seq<real>
    requires forall i :: 0 <= i < |values| ==> values[i].Some?
  {
    seq(|values|, i requires 0 <= i < |values| => values[i].value)
  }

  lemma AddUpSnoc(xs: seq<real>, x: real)
    ensures AddUp(xs + [x]) == AddUp(xs) + x
  {
    assert (xs + [x])[..|xs|] == xs;
  }

  /** The sample's sum is the workbook's plus the numbers read out of text. */
  lemma {:induction false} SumSplits(parse: Reader, cells: seq<Cell>)
    requires AllNumeric(parse, cells)
    ensures AddUp(Unwrapped(NumericValues(parse, cells))) == AddUp(Numbers(cells)) + AddUp(TextNumbers(parse, cells))
  {
    if cells != [] {
      var n := |cells| - 1;
      var before := cells[..n];
      assert AllNumeric(parse, before);
      SumSplits(parse, before);
      var values := Unwrapped(NumericValues(parse, before));
      var x := NumericValue(parse, cells[n]).value;
      assert NumericValue(parse, cells[n]).Some?;
      assert Unwrapped(NumericValues(parse, cells)) == values + [x];
      AddUpSnoc(values, x);
      if cells[n].Num? {
        AddUpSnoc(Numbers(before), x);
        assert TextNumbers(parse, before) + [] == TextNumbers(parse, before);
      } else {
        AddUpSnoc(TextNumbers(parse, before), x);
        assert Numbers(before) + [] == Numbers(before);
      }
    }
  }

  lemma SumFits(parse: Reader, d: Definition, cells: seq<Cell>, sheet: Sheet)
    requires d.operation == Sum && |d.inputColumns| >= 2 && cells == CellsAt(sheet, d.inputColumns)
    requires forall i :: 0 <= i < |cells| ==> !cells[i].Fault?
    ensures Agrees(Compute(d.operation, NumericValues(parse, cells)), EvalFormula(FormulaOf(d), sheet)) <==>
              FormulaFits(parse, d.operation, cells)
  {
    var values := NumericValues(parse, cells);
    forall i | 0 <= i < |cells|
      ensures cells[i] == sheet(d.inputColumns[i]) && values[i] == NumericValue(parse, cells[i]) {}
    assert AllBlank(cells) <==> forall i :: 0 <= i < |d.inputColumns| ==> sheet(d.inputColumns[i]) == Blank;
    if AllNumeric(parse, cells) {
      SumSplits(parse, cells);
      assert Compute(Sum, values) == Some(AddUp(Unwrapped(values)));
      assert NumericValue(parse, cells[0]).Some?;
    } else {
      var i :| 0 <= i < |cells| && NumericValue(parse, cells[i]).None?;
      assert values[i].None?;
    }
  }

  /** One calculation, whatever its input cells hold: the evaluation of what the sample sees agrees with the
      formula exactly if the input cells meet the operation's condition. */
  lemma EvaluatorsAgreeOnce(parse: Reader, d: Definition, seen: seq<Cell>, sheet: Sheet)
    requires d.operation != Unknown && |seen| == |d.inputColumns| >= 2 && (d.operation != Sum ==> |seen| == 2)
    requires parse("") == None
    requires forall i :: 0 <= i < |seen| ==> SameInput(seen[i], sheet(d.inputColumns[i]))
    ensures Agrees(Compute(d.operation, NumericValues(parse, seen)), EvalFormula(FormulaOf(d), sheet)) <==>
              FormulaFits(parse, d.operation, CellsAt(sheet, d.inputColumns))
  {
    var cells := CellsAt(sheet, d.inputColumns);
    forall i | 0 <= i < |seen|
      ensures NumericValue(parse, seen[i]) == NumericValue(parse, cells[i]) && !cells[i].Fault?
    {
      assert SameInput(seen[i], sheet(d.inputColumns[i]));
    }
    assert NumericValues(parse, seen) == NumericValues(parse, cells);
    match d.operation {
      case Sum => SumFits(parse, d, cells, sheet);
      case PercentOf => ShareFits(parse, d, cells, sheet);
      case _ => PairFits(parse, d, cells, sheet);
    }
  }
}
