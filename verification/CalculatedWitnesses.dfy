/** Two accepted definition sets on which the samples and the workbook part: one listed out of order, and one
    where a percentage with a zero whole feeds a sum. The four column names are any distinct ones. */
module CalculatedWitnesses {
  import opened CalculatedAgreement
  import opened CalculatedFields
  import opened CalculatedOrder
  import opened CalculatedRows
  import opened CalculatedSolutions
  import opened Options

  // ---------------------------------------------------------------- sets of two calculations

  lemma TwoDependencies(first: Calculation, second: Calculation)
    requires first.target != second.target
    ensures Dependencies([first, second]) == map[first.target := first.inputs, second.target := second.inputs]
  {
    assert [first, second][..1] == [first] && [first][..0] == [];
    assert Dependencies([first]) == map[first.target := first.inputs];
  }

  lemma TwoAreAccepted(headers: seq<string>, first: Calculation, second: Calculation)
    requires Distinct(headers) && first.target != second.target
    requires ValidCalculation(headers, {}, first) && ValidCalculation(headers, {first.target}, second)
    requires !(second.target in first.inputs && first.target in second.inputs)
    ensures Accepts(headers, [first, second])
  {
    var calculations := [first, second];
    assert calculations[..0] == [] && calculations[..1] == [first];
    assert Targets(calculations[..0]) == {} && Targets(calculations[..1]) == {first.target};
    TwoDependencies(first, second);
    var g := Dependencies(calculations);
    ghost var rank: map<string, nat> :=
      if second.target in first.inputs then map[first.target := 1, second.target := 0]
      else map[first.target := 0, second.target := 1];
    assert Ranks(g, rank);
    AcyclicIffRanked(g);
  }

  lemma ColumnAt(headers: seq<string>, i: nat)
    requires Distinct(headers) && i < |headers|
    ensures ColumnOf(headers, headers[i]) == i + 1
  {
  }

  lemma NumbersSnoc(cells: seq<Cell>, c: Cell)
    ensures Numbers(cells + [c]) == Numbers(cells) + if c.Num? then [c.value] else []
  {
    assert (cells + [c])[..|cells|] == cells;
  }

  lemma NumbersOfTwo(p: Cell, b: real)
    ensures AddUp(Numbers([p, Num(b)])) == (if p.Num? then p.value else 0.0) + b
  {
    NumbersSnoc([], p);
    NumbersSnoc([p], Num(b));
    assert [] + [p] == [p] && [p] + [Num(b)] == [p, Num(b)];
    if p.Num? {
      assert [] + [p.value] == [p.value] && [p.value] + [b] == [p.value, b];
      AddUpTwo(p.value, b);
    } else {
      AddUpSnoc([], b);
    }
  }

  lemma AddUpTwo(a: real, b: real)
    ensures AddUp([a, b]) == a + b
  {
    AddUpSnoc([], a);
    AddUpSnoc([a], b);
    assert [] + [a] == [a] && [a] + [b] == [a, b];
  }

  /** A sum of two cells that are numbers or text: text counts for nothing. */
  lemma SumOfTwo(d: Definition, sheet: Sheet, p: Cell, b: real)
    requires d.operation == Sum && |d.inputColumns| == 2
    requires sheet(d.inputColumns[0]) == p && sheet(d.inputColumns[1]) == Num(b) && (p.Num? || p.Text?)
    ensures EvalFormula(FormulaOf(d), sheet) == Num((if p.Num? then p.value else 0.0) + b)
  {
    var cells := [p, Num(b)];
    assert CellsAt(sheet, d.inputColumns) == cells;
    NumbersOfTwo(p, b);
    assert forall i :: 0 <= i < |cells| ==> !cells[i].Fault?;
    assert SumCells(cells) == Num(AddUp(Numbers(cells)));
  }

  lemma SumOfTwoIsComputed(headers: seq<string>, calculations: seq<Calculation>, sheet: Sheet, k: nat, a: real, b: real)
    requires AllValid(headers, calculations) && k < |calculations|
    requires calculations[k].operation == Sum && |calculations[k].inputs| == 2
    requires sheet(Column(headers, calculations[k].inputs[0])) == Num(a)
    requires sheet(Column(headers, calculations[k].inputs[1])) == Num(b)
    requires sheet(Column(headers, calculations[k].target)) == Num(a + b)
    ensures CellIsComputed(headers, calculations, k, sheet)
  {
    InputFacts(headers, calculations, k, 0);
    InputFacts(headers, calculations, k, 1);
    SumOfTwo(DefinitionAt(headers, calculations, k), sheet, Num(a), b);
  }

  lemma ComputeSumOfTwo(p: Option<real>, q: Option<real>)
    ensures Compute(Sum, [p, q]) == if p.Some? && q.Some? then Some(p.value + q.value) else None
  {
    var inputs := [p, q];
    assert inputs[0] == p && inputs[1] == q;
    if p.Some? && q.Some? {
      assert seq(2, i requires 0 <= i < 2 => inputs[i].value) == [p.value, q.value];
      AddUpTwo(p.value, q.value);
    }
  }

  /** A sum of two inputs: what fitting means. */
  lemma SumOfTwoFits(parse: Reader, headers: seq<string>, calculations: seq<Calculation>, row: seq<Cell>, sheet: Sheet,
                     k: nat)
    requires AllValid(headers, calculations) && |row| == |headers| && k < |calculations|
    requires calculations[k].operation == Sum && |calculations[k].inputs| == 2
    ensures
      var p := NumericValue(parse, Seen(headers, calculations, row, sheet, k, 0));
      var q := NumericValue(parse, Seen(headers, calculations, row, sheet, k, 1));
      SeenInputsFit(parse, headers, calculations, row, sheet, k) <==>
        Agrees(if p.Some? && q.Some? then Some(p.value + q.value) else None, CellOf(headers, calculations, sheet, k))
  {
    var p := NumericValue(parse, Seen(headers, calculations, row, sheet, k, 0));
    var q := NumericValue(parse, Seen(headers, calculations, row, sheet, k, 1));
    ComputeSumOfTwo(p, q);
    assert SeenInputs(parse, headers, calculations, row, sheet, k) == [p, q];
  }

  lemma TargetsOfTwo(calculations: seq<Calculation>, name: string)
    requires |calculations| == 2
    ensures IsTarget(calculations, name) <==> name == calculations[0].target || name == calculations[1].target
    ensures !IsTarget(calculations[..0], name)
    ensures IsTarget(calculations[..1], name) <==> name == calculations[0].target
  {
    assert calculations[0] in calculations && calculations[1] in calculations;
    assert calculations[..1] == [calculations[0]];
  }

  /** Four columns, the last two calculated: what the two input columns hold decides about the leaves. */
  lemma LeavesOfFour(headers: seq<string>, calculations: seq<Calculation>, name: string)
    requires |headers| == 4 && Distinct(headers) && |calculations| == 2
    requires {calculations[0].target, calculations[1].target} == {headers[2], headers[3]}
    requires name in headers && !IsTarget(calculations, name)
    ensures ColumnOf(headers, name) in {1, 2}
  {
    TargetsOfTwo(calculations, name);
    assert headers[2] in {headers[2], headers[3]} && headers[3] in {headers[2], headers[3]};
  }

  lemma TwoAreSatisfied(headers: seq<string>, calculations: seq<Calculation>, row: seq<Cell>, sheet: Sheet)
    requires |headers| == |row| == 4 && Distinct(headers) && |calculations| == 2 && AllValid(headers, calculations)
    requires {calculations[0].target, calculations[1].target} == {headers[2], headers[3]}
    requires sheet(1) == row[0] && sheet(2) == row[1]
    requires CellIsComputed(headers, calculations, 0, sheet) && CellIsComputed(headers, calculations, 1, sheet)
    ensures Satisfies(headers, calculations, row, sheet)
  {
    forall name | name in headers && !IsTarget(calculations, name)
      ensures sheet(ColumnOf(headers, name)) == row[ColumnOf(headers, name) - 1]
    {
      LeavesOfFour(headers, calculations, name);
    }
  }

  lemma TwoAreInOrder(calculations: seq<Calculation>)
    requires |calculations| == 2
    requires forall c, i :: c in calculations && 0 <= i < |c.inputs| ==> c.inputs[i] != c.target
    requires calculations[1].target !in calculations[0].inputs
    ensures InOrder(calculations)
  {
    forall k, i | 0 <= k < 2 && 0 <= i < |calculations[k].inputs| ensures InputComesFirst(calculations, k, i) {
      TargetsOfTwo(calculations, calculations[k].inputs[i]);
    }
  }

  // ---------------------------------------------------------------- listed out of order

  /** The last column is the third plus the first, listed before the third, which is the first plus the
      second. */
  function Late(headers: seq<string>): seq<Calculation>
    requires |headers| == 4
  {
    [Calculation(headers[3], Sum, [headers[2], headers[0]]), Calculation(headers[2], Sum, [headers[0], headers[1]])]
  }

  function LateSheet(x: real, y: real): Sheet {
    (column: nat) => if column == 1 then Num(x) else if column == 2 then Num(y)
                     else if column == 3 then Num(x + y) else if column == 4 then Num(x + y + x) else Blank
  }

  lemma LateIsAccepted(headers: seq<string>)
    requires |headers| == 4 && Distinct(headers)
    ensures Accepts(headers, Late(headers)) && !InOrder(Late(headers))
  {
    var calculations := Late(headers);
    TwoAreAccepted(headers, calculations[0], calculations[1]);
    assert calculations[1] in calculations && calculations[..0] == [];
    assert !InputComesFirst(calculations, 0, 0);
  }

  lemma LateIsComputed(headers: seq<string>, x: real, y: real)
    requires |headers| == 4 && Distinct(headers) && AllValid(headers, Late(headers))
    ensures CellIsComputed(headers, Late(headers), 0, LateSheet(x, y))
    ensures CellIsComputed(headers, Late(headers), 1, LateSheet(x, y))
  {
    ColumnAt(headers, 0);
    ColumnAt(headers, 1);
    ColumnAt(headers, 2);
    ColumnAt(headers, 3);
    SumOfTwoIsComputed(headers, Late(headers), LateSheet(x, y), 0, x + y, x);
    SumOfTwoIsComputed(headers, Late(headers), LateSheet(x, y), 1, x, y);
  }

  /** Out of order, the stored cell decides: over any two numbers, the samples agree exactly if what was stored
      for the late input reads as the value the workbook calculates. An empty cell does not, a stale one does
      not, the right one does. */
  lemma StoredCellDecides(parse: Reader, headers: seq<string>, x: real, y: real, s: Cell, t: Cell)
    requires |headers| == 4 && Distinct(headers)
    ensures Accepts(headers, Late(headers)) && !InOrder(Late(headers))
    ensures var row := [Num(x), Num(y), s, t];
      && Satisfies(headers, Late(headers), row, LateSheet(x, y))
      && (AllAgree(parse, headers, Late(headers), row, LateSheet(x, y)) <==> NumericValue(parse, s) == Some(x + y))
  {
    LateIsAccepted(headers);
    var row := [Num(x), Num(y), s, t];
    LateIsComputed(headers, x, y);
    TwoAreSatisfied(headers, Late(headers), row, LateSheet(x, y));
    LateFits(parse, headers, x, y, row);
    SampleAgreesIffSeenInputsFit(parse, headers, Late(headers), row, LateSheet(x, y));
  }

  lemma LateFits(parse: Reader, headers: seq<string>, x: real, y: real, row: seq<Cell>)
    requires |headers| == 4 && Distinct(headers) && AllValid(headers, Late(headers))
    requires |row| == 4 && row[0] == Num(x) && row[1] == Num(y)
    ensures SeenInputsFit(parse, headers, Late(headers), row, LateSheet(x, y), 0) <==>
              NumericValue(parse, row[2]) == Some(x + y)
    ensures SeenInputsFit(parse, headers, Late(headers), row, LateSheet(x, y), 1)
  {
    LateSeen(headers, row, LateSheet(x, y));
    LateCells(headers, LateSheet(x, y));
    SumOfTwoFits(parse, headers, Late(headers), row, LateSheet(x, y), 0);
    SumOfTwoFits(parse, headers, Late(headers), row, LateSheet(x, y), 1);
  }

  lemma LateSeen(headers: seq<string>, row: seq<Cell>, sheet: Sheet)
    requires |headers| == 4 && Distinct(headers) && AllValid(headers, Late(headers)) && |row| == 4
    ensures Seen(headers, Late(headers), row, sheet, 0, 0) == row[2]
    ensures Seen(headers, Late(headers), row, sheet, 0, 1) == row[0]
    ensures Seen(headers, Late(headers), row, sheet, 1, 0) == row[0]
    ensures Seen(headers, Late(headers), row, sheet, 1, 1) == row[1]
  {
    var calculations := Late(headers);
    TargetsOfTwo(calculations, headers[0]);
    TargetsOfTwo(calculations, headers[1]);
    TargetsOfTwo(calculations, headers[2]);
    ColumnAt(headers, 0);
    ColumnAt(headers, 1);
    ColumnAt(headers, 2);
  }

  lemma LateCells(headers: seq<string>, sheet: Sheet)
    requires |headers| == 4 && Distinct(headers) && AllValid(headers, Late(headers))
    ensures CellOf(headers, Late(headers), sheet, 0) == sheet(4) && CellOf(headers, Late(headers), sheet, 1) == sheet(3)
  {
    ColumnAt(headers, 2);
    ColumnAt(headers, 3);
  }

  // ---------------------------------------------------------------- a zero whole

  /** The third column is the first as a share of the second; the last is the third plus the first. */
  function Shared(headers: seq<string>): seq<Calculation>
    requires |headers| == 4
  {
    [Calculation(headers[2], PercentOf, [headers[0], headers[1]]),
      Calculation(headers[3], Sum, [headers[2], headers[0]])]
  }

  function SharedSheet(x: real): Sheet {
    (column: nat) => if column == 1 then Num(x) else if column == 2 then Num(0.0)
                     else if column == 3 then Text("") else if column == 4 then Num(x) else Blank
  }

  lemma SharedIsAccepted(headers: seq<string>)
    requires |headers| == 4 && Distinct(headers)
    ensures Accepts(headers, Shared(headers)) && InOrder(Shared(headers))
  {
    TwoAreAccepted(headers, Shared(headers)[0], Shared(headers)[1]);
    TwoAreInOrder(Shared(headers));
  }

  lemma SharedIsComparable(headers: seq<string>, x: real, row: seq<Cell>)
    requires |headers| == 4 && Distinct(headers) && row == [Num(x), Num(0.0), Blank, Blank]
    ensures Comparable(headers, Shared(headers), row, SharedSheet(x)) && NumericLeaves(headers, Shared(headers), row)
  {
    SharedIsAccepted(headers);
    SharedIsComputed(headers, x);
    TwoAreSatisfied(headers, Shared(headers), row, SharedSheet(x));
    forall name | name in headers && !IsTarget(Shared(headers), name)
      ensures row[ColumnOf(headers, name) - 1].Num?
    {
      LeavesOfFour(headers, Shared(headers), name);
    }
  }

  lemma SharedIsComputed(headers: seq<string>, x: real)
    requires |headers| == 4 && Distinct(headers) && AllValid(headers, Shared(headers))
    ensures CellIsComputed(headers, Shared(headers), 0, SharedSheet(x))
    ensures CellIsComputed(headers, Shared(headers), 1, SharedSheet(x))
    ensures ShowsNothing(headers, Shared(headers), SharedSheet(x), 0)
  {
    var sheet := SharedSheet(x);
    ColumnAt(headers, 0);
    ColumnAt(headers, 1);
    ColumnAt(headers, 2);
    ColumnAt(headers, 3);
    SharedColumns(headers);
    SumOfTwo(DefinitionAt(headers, Shared(headers), 1), sheet, Text(""), x);
    ShareOfZero(DefinitionAt(headers, Shared(headers), 0), sheet);
  }

  lemma SharedColumns(headers: seq<string>)
    requires |headers| == 4 && Distinct(headers) && AllValid(headers, Shared(headers))
    ensures DefinitionAt(headers, Shared(headers), 0).inputColumns == [1, 2]
    ensures DefinitionAt(headers, Shared(headers), 0).targetColumn == 3
    ensures DefinitionAt(headers, Shared(headers), 1).inputColumns == [3, 1]
    ensures DefinitionAt(headers, Shared(headers), 1).targetColumn == 4
  {
    InputFacts(headers, Shared(headers), 0, 0);
    InputFacts(headers, Shared(headers), 0, 1);
    InputFacts(headers, Shared(headers), 1, 0);
    InputFacts(headers, Shared(headers), 1, 1);
    ColumnAt(headers, 0);
    ColumnAt(headers, 1);
    ColumnAt(headers, 2);
    ColumnAt(headers, 3);
  }

  lemma ShareOfZero(d: Definition, sheet: Sheet)
    requires d.operation == PercentOf && |d.inputColumns| == 2
    requires sheet(d.inputColumns[0]).Num? && sheet(d.inputColumns[1]) == Num(0.0)
    ensures EvalFormula(FormulaOf(d), sheet) == Text("")
  {
  }

  /** An accepted set, in order, over numbers: with a zero whole the share agrees, both showing nothing, but
      the sum over it has no sample while the workbook shows the other input. */
  lemma EmptyShareSpoilsTheSum(parse: Reader, headers: seq<string>, x: real, row: seq<Cell>)
    requires |headers| == 4 && Distinct(headers) && parse("") == None && row == [Num(x), Num(0.0), Blank, Blank]
    ensures Accepts(headers, Shared(headers)) && Comparable(headers, Shared(headers), row, SharedSheet(x))
    ensures NumericLeaves(headers, Shared(headers), row)
    ensures AgreesAt(parse, headers, Shared(headers), row, SharedSheet(x), 0)
    ensures Result(parse, headers, Shared(headers), row, 1) == None
    ensures CellOf(headers, Shared(headers), SharedSheet(x), 1) == Num(x)
  {
    SharedIsAccepted(headers);
    SharedIsComparable(headers, x, row);
    SharedIsComputed(headers, x);
    ShareAgreesSumDoesNot(parse, headers, row, SharedSheet(x));
    SharedColumns(headers);
  }

  lemma ShareAgreesSumDoesNot(parse: Reader, headers: seq<string>, row: seq<Cell>, sheet: Sheet)
    requires |headers| == 4 && Distinct(headers) && parse("") == None && sheet(3) == Text("")
    requires Comparable(headers, Shared(headers), row, sheet) && ShowsNothing(headers, Shared(headers), sheet, 0)
    ensures AgreesAt(parse, headers, Shared(headers), row, sheet, 0)
    ensures Result(parse, headers, Shared(headers), row, 1) == None
  {
    FitsInOrder(parse, headers, Shared(headers), row, sheet, 0);
    OneMoreAgrees(parse, headers, Shared(headers), row, sheet, 0);
    ResultIsOfSeenInputs(parse, headers, Shared(headers), row, sheet, 1);
    SharedSeen(headers, row, sheet);
    assert SeenInputs(parse, headers, Shared(headers), row, sheet, 1)[0] == None;
  }

  lemma SharedSeen(headers: seq<string>, row: seq<Cell>, sheet: Sheet)
    requires |headers| == 4 && Distinct(headers) && AllValid(headers, Shared(headers)) && |row| == 4
    requires sheet(3) == Text("")
    ensures Seen(headers, Shared(headers), row, sheet, 1, 0) == Blank
  {
    TargetsOfTwo(Shared(headers), headers[2]);
    ColumnAt(headers, 2);
  }
}
