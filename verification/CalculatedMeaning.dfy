/** What each operation means, for the formula in the workbook and for the sample evaluation
    (scripts/render-digital-product-kit.py): in the order of the inputs, over numbers, blanks and texts. */
module CalculatedMeaning {
  import opened CalculatedAgreement
  import opened CalculatedFields
  import opened CalculatedRows
  import opened Options

  /** A number, or a blank, which arithmetic takes for zero. */
  predicate IsNumeric(c: Cell) {
    c.Num? || c == Blank
  }

  function AsNumber(c: Cell): real {
    if c.Num? then c.value else 0.0
  }

  /** The formulas of two inputs over numbers and blanks: nothing while both are blank, then the product, the
      first minus the second. A text makes them an error. */
  lemma TwoInputFormula(d: Definition, sheet: Sheet)
    requires d.operation in {Multiply, Subtract} && |d.inputColumns| == 2
    ensures var p, q := sheet(d.inputColumns[0]), sheet(d.inputColumns[1]);
      EvalFormula(FormulaOf(d), sheet) ==
        if p == Blank && q == Blank then Text("")
        else if !IsNumeric(p) || !IsNumeric(q) then Fault
        else if d.operation == Multiply then Num(AsNumber(p) * AsNumber(q))
        else Num(AsNumber(p) - AsNumber(q))
  {
  }

  /** The first input as a share of the second: nothing while either is empty or the second is zero. */
  lemma ShareFormula(d: Definition, sheet: Sheet)
    requires d.operation == PercentOf && |d.inputColumns| == 2
    ensures var p, q := sheet(d.inputColumns[0]), sheet(d.inputColumns[1]);
      EvalFormula(FormulaOf(d), sheet) ==
        if p.Fault? || q.Fault? then Fault
        else if p in {Blank, Text("")} || q in {Blank, Text("")} || q == Num(0.0) then Text("")
        else if p.Num? && q.Num? then Num(p.value / q.value)
        else Fault
  {
  }

  /** The numbers of the cells, one after the other, added to what came before. */
  function RunningTotal(cells: seq<Cell>, n: nat): real
    requires n <= |cells|
  {
    if n == 0 then 0.0 else RunningTotal(cells, n - 1) + AsNumber(cells[n - 1])
  }

  lemma {:induction false} TotalOfNumbers(cells: seq<Cell>, n: nat)
    requires n <= |cells|
    ensures AddUp(Numbers(cells[..n])) == RunningTotal(cells, n)
  {
    if n > 0 {
      TotalOfNumbers(cells, n - 1);
      assert cells[..n][..n - 1] == cells[..n - 1];
      var before := Numbers(cells[..n - 1]);
      if cells[n - 1].Num? {
        AddUpSnoc(before, cells[n - 1].value);
      } else {
        assert before + [] == before;
      }
    }
  }

  /** The sum formula: nothing while every input is blank, an error if one is an error, else all numbers added;
      texts and blanks are passed over. */
  lemma SumFormula(d: Definition, sheet: Sheet)
    requires d.operation == Sum && |d.inputColumns| >= 2
    ensures var cells := CellsAt(sheet, d.inputColumns);
      EvalFormula(FormulaOf(d), sheet) ==
        if forall i :: 0 <= i < |cells| ==> cells[i] == Blank then Text("")
        else if exists i :: 0 <= i < |cells| && cells[i].Fault? then Fault
        else Num(RunningTotal(cells, |cells|))
  {
    var cells := CellsAt(sheet, d.inputColumns);
    TotalOfNumbers(cells, |cells|);
    assert cells[..|cells|] == cells;
    assert (forall i :: 0 <= i < |cells| ==> cells[i] == Blank) <==>
             forall i :: 0 <= i < |d.inputColumns| ==> sheet(d.inputColumns[i]) == Blank
    by {
      forall i | 0 <= i < |cells| ensures cells[i] == sheet(d.inputColumns[i]) {}
    }
  }

  /** The sample evaluation of two inputs: no result while one has no number; else the product, the first minus
      the second, or the first by the second unless that is zero. */
  lemma SampleMeaning(operation: Operation, inputs: seq<Option<real>>)
    requires operation in {Multiply, Subtract, PercentOf} && |inputs| == 2
    ensures Compute(operation, inputs) ==
              if inputs[0].None? || inputs[1].None? then None
              else if operation == Multiply then Some(inputs[0].value * inputs[1].value)
              else if operation == Subtract then Some(inputs[0].value - inputs[1].value)
              else if inputs[1].value == 0.0 then None else Some(inputs[0].value / inputs[1].value)
  {
    if inputs[0].None? || inputs[1].None? { assert exists i :: 0 <= i < |inputs| && inputs[i].None?; }
  }

  function TotalRead(parse: Reader, cells: seq<Cell>, n: nat): real
    requires n <= |cells| && forall i :: 0 <= i < |cells| ==> NumericValue(parse, cells[i]).Some?
  {
    if n == 0 then 0.0 else TotalRead(parse, cells, n - 1) + NumericValue(parse, cells[n - 1]).value
  }

  lemma {:induction false} TotalOfRead(parse: Reader, cells: seq<Cell>, n: nat)
    requires n <= |cells| && forall i :: 0 <= i < |cells| ==> NumericValue(parse, cells[i]).Some?
    ensures AddUp(Unwrapped(NumericValues(parse, cells))[..n]) == TotalRead(parse, cells, n)
  {
    if n > 0 {
      TotalOfRead(parse, cells, n - 1);
      var values := Unwrapped(NumericValues(parse, cells));
      assert values[..n] == values[..n - 1] + [values[n - 1]];
      AddUpSnoc(values[..n - 1], values[n - 1]);
    }
  }

  lemma SampleSum(parse: Reader, cells: seq<Cell>)
    requires |cells| >= 2
    ensures Compute(Sum, NumericValues(parse, cells)) ==
              if exists i :: 0 <= i < |cells| && NumericValue(parse, cells[i]).None? then None
              else Some(TotalRead(parse, cells, |cells|))
  {
    var values := NumericValues(parse, cells);
    forall i | 0 <= i < |cells| ensures values[i] == NumericValue(parse, cells[i]) {}
    if forall i :: 0 <= i < |cells| ==> NumericValue(parse, cells[i]).Some? {
      TotalOfRead(parse, cells, |cells|);
      var numbers := Unwrapped(values);
      assert numbers[..|cells|] == numbers;
      assert numbers == seq(|values|, i requires 0 <= i < |values| => values[i].value);
    }
  }

  /** What a cell gives the sample: a number, a text that reads as one, nothing else. */
  lemma WhatCellsRead(parse: Reader, x: real, t: string)
    ensures NumericValue(parse, Num(x)) == Some(x) && NumericValue(parse, Text(t)) == parse(t)
    ensures NumericValue(parse, Blank) == None && NumericValue(parse, Fault) == None
  {
  }
}
