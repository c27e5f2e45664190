/** The two evaluators of calculated fields: the formulas written into the workbook, as a
    spreadsheet computes them, and the in-order sample evaluation
    (scripts/render-digital-product-kit.py). */
module CalculatedRows {
  import opened CalculatedFields
  import opened Options

  /** What a workbook cell holds. A formula that gives "" shows an empty text, not a blank. */
  datatype Cell = Blank | Num(value: real) | Text(text: string) | Fault

  /** Cell contents by column. */
  type Sheet = nat -> Cell

  // ---------------------------------------------------------------- the emitted formulas

  datatype Body = Product(a: nat, b: nat) | Total(columns: seq<nat>) | Difference(a: nat, b: nat)

  datatype Formula =
    | IfAnyFilled(columns: seq<nat>, body: Body)   // =IF(COUNTA(columns)=0,"",body)
    | Share(part: nat, whole: nat)                 // =IF(OR(part="",whole="",whole=0),"",part/whole)

  function FormulaOf(d: Definition): Formula
    requires d.operation != Unknown && |d.inputColumns| >= 2
  {
    var c := d.inputColumns;
    match d.operation
    case Multiply => IfAnyFilled(c, Product(c[0], c[1]))
    case Sum => IfAnyFilled(c, Total(c))
    case Subtract => IfAnyFilled(c, Difference(c[0], c[1]))
    case PercentOf => Share(c[0], c[1])
  }

  /** A cell as an operand of `*`, `-` or `/`: a blank counts as zero, text is an error. */
  function Operand(c: Cell): Option<real> {
    match c
    case Blank => Some(0.0)
    case Num(x) => Some(x)
    case _ => None
  }

  function AddUp(xs: seq<real>): real {
    if xs == [] then 0.0 else AddUp(xs[..|xs| - 1]) + xs[|xs| - 1]
  }

  /** `SUM`: numbers are added, blanks and text are skipped, an error spoils the sum. */
  function SumCells(cells: seq<Cell>): Cell {
    if exists i :: 0 <= i < |cells| && cells[i].Fault? then Fault
    else Num(AddUp(Numbers(cells)))
  }

  function Numbers(cells: seq<Cell>): seq<real> {
    if cells == [] then []
    else
      var n := |cells| - 1;
      Numbers(cells[..n]) + if cells[n].Num? then [cells[n].value] else []
  }

  function CellsAt(sheet: Sheet, columns: seq<nat>): (r: seq<Cell>)
    ensures |r| == |columns|
  {
    seq(|columns|, i requires 0 <= i < |columns| => sheet(columns[i]))
  }

  function EvalBody(b: Body, sheet: Sheet): Cell {
    match b
    case Product(x, y) =>
      (match (Operand(sheet(x)), Operand(sheet(y)))
       case (Some(p), Some(q)) => Num(p * q)
       case _ => Fault)
    case Difference(x, y) =>
      (match (Operand(sheet(x)), Operand(sheet(y)))
       case (Some(p), Some(q)) => Num(p - q)
       case _ => Fault)
    case Total(columns) => SumCells(CellsAt(sheet, columns))
  }

  predicate LooksEmpty(c: Cell) {
    c == Blank || c == Text("")
  }

  function EvalFormula(f: Formula, sheet: Sheet): Cell {
    match f
    case IfAnyFilled(columns, body) =>
      if forall i :: 0 <= i < |columns| ==> sheet(columns[i]) == Blank then Text("") else EvalBody(body, sheet)
    case Share(part, whole) =>
      var p, q := sheet(part), sheet(whole);
      if p.Fault? || q.Fault? then Fault
      else if LooksEmpty(p) || LooksEmpty(q) || q == Num(0.0) then Text("")
      else if p.Num? && q.Num? then Num(p.value / q.value)
      else Fault
  }

  predicate IsTarget(calculations: seq<Calculation>, name: string) {
    name in Targets(calculations)
  }

  /** The sheet holds the row's own cells outside the calculated columns, and every calculated cell
      is what its formula gives on the sheet. */
  ghost predicate Satisfies(headers: seq<string>, calculations: seq<Calculation>, row: seq<Cell>, sheet: Sheet)
    requires AllValid(headers, calculations) && |row| == |headers|
  {
    && (forall name :: name in headers && !IsTarget(calculations, name) ==>
          sheet(ColumnOf(headers, name)) == row[ColumnOf(headers, name) - 1])
    && forall k :: 0 <= k < |calculations| ==> CellIsComputed(headers, calculations, k, sheet)
  }

  ghost predicate CellIsComputed(headers: seq<string>, calculations: seq<Calculation>, k: nat, sheet: Sheet)
    requires AllValid(headers, calculations) && k < |calculations|
  {
    var d := DefinitionAt(headers, calculations, k);
    sheet(d.targetColumn) == EvalFormula(FormulaOf(d), sheet)
  }

  function DefinitionAt(headers: seq<string>, calculations: seq<Calculation>, k: nat): (d: Definition)
    requires AllValid(headers, calculations) && k < |calculations|
    ensures d == DefineAll(headers, calculations)[k]
    ensures d.operation == calculations[k].operation && d.operation != Unknown
    ensures |d.inputColumns| == |calculations[k].inputs| >= 2
  {
    assert ValidCalculation(headers, Targets(calculations[..k]), calculations[k]);
    DefineAll(headers, calculations)[k]
  }

  // ---------------------------------------------------------------- the sample evaluation

  /** `numeric_value`; `parse` reads numbers written as text. */
  function NumericValue(parse: string -> Option<real>, c: Cell): Option<real> {
    match c
    case Num(x) => Some(x)
    case Text(t) => parse(t)
    case _ => None
  }

  function Compute(operation: Operation, inputs: seq<Option<real>>): Option<real>
    requires |inputs| >= 2
  {
    if exists i :: 0 <= i < |inputs| && inputs[i].None? then None
    else match operation
      case Multiply => Some(inputs[0].value * inputs[1].value)
      case Sum => Some(AddUp(seq(|inputs|, i requires 0 <= i < |inputs| => inputs[i].value)))
      case Subtract => Some(inputs[0].value - inputs[1].value)
      case PercentOf => if inputs[1].value != 0.0 then Some(inputs[0].value / inputs[1].value) else None
      case Unknown => None
  }

  type Values = map<string, Cell>

  function Lookup(values: Values, name: string): Cell {
    if name in values then values[name] else Blank
  }

  function Inputs(parse: string -> Option<real>, c: Calculation, values: Values): (r: seq<Option<real>>)
    ensures |r| == |c.inputs|
  {
    seq(|c.inputs|, i requires 0 <= i < |c.inputs| => NumericValue(parse, Lookup(values, c.inputs[i])))
  }

  function Evaluate(parse: string -> Option<real>, c: Calculation, values: Values): Option<real> {
    if |c.inputs| >= 2 then Compute(c.operation, Inputs(parse, c, values)) else None
  }

  function AsCell(r: Option<real>): Cell {
    if r.Some? then Num(r.value) else Blank
  }

  /** The values once the calculations were evaluated in order. */
  function After(parse: string -> Option<real>, calculations: seq<Calculation>, start: Values): Values {
    if calculations == [] then start
    else
      var n := |calculations| - 1;
      var before := After(parse, calculations[..n], start);
      before[calculations[n].target := AsCell(Evaluate(parse, calculations[n], before))]
  }

  function Start(headers: seq<string>, row: seq<Cell>): Values
    requires |row| == |headers|
  {
    map name | name in headers :: row[ColumnOf(headers, name) - 1]
  }

  /** The sample result of calculation `k`. */
  function Result(parse: string -> Option<real>, headers: seq<string>, calculations: seq<Calculation>, row: seq<Cell>,
                  k: nat): Option<real>
    requires |row| == |headers| && k < |calculations|
  {
    Evaluate(parse, calculations[k], After(parse, calculations[..k], Start(headers, row)))
  }

  /** One row of `sample_calculation_checks`. */
  method SampleRow(parse: string -> Option<real>, headers: seq<string>, calculations: seq<Calculation>, row: seq<Cell>)
    returns (results: seq<Option<real>>)
    requires |row| == |headers| && Distinct(headers)
    ensures |results| == |calculations|
    ensures forall k :: 0 <= k < |results| ==> results[k] == Result(parse, headers, calculations, row, k)
  {
    var values: Values := map[];
    for index := 0 to |headers|
      invariant values.Keys == set i | 0 <= i < index :: headers[i]
      invariant forall i :: 0 <= i < index ==> values[headers[i]] == row[i]
    {
      values := values[headers[index] := row[index]];
    }
    assert values == Start(headers, row);
    results := [];
    for k := 0 to |calculations|
      invariant |results| == k
      invariant values == After(parse, calculations[..k], Start(headers, row))
      invariant forall j :: 0 <= j < k ==> results[j] == Result(parse, headers, calculations, row, j)
    {
      var definition := calculations[k];
      var result := Evaluate(parse, definition, values);
      values := values[definition.target := AsCell(result)];
      results := results + [result];
      assert calculations[..k + 1][..k] == calculations[..k];
    }
  }
}
