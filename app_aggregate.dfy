/**
 * The accumulation pass of `processRawData` (src/App.tsx): for every row, the
 * respondent-group counter, then every header in column order, each parsed
 * score pushed to the list of the dimension its column routes to and, when the
 * column carries a question, to that question's list. The pass is specified
 * here as a left fold over rows and, inside a row, over columns.
 */
module Aggregate {
  import opened Base
  import opened Dict
  import opened Tables
  import opened Sheet
  import opened Pdk

  /** The fixed inputs of one pass. */
  datatype Setup = Setup(
    headers: seq<string>,
    groupHeader: string,
    hasGroupColumn: bool,       // `dataRows[0].hasOwnProperty(respondentGroupColHeader)`
    selectedDimension: string,  // a dimension `value`, or 'all'
    showNumber: real -> string) // `String(number)`, used when a number is a property key

  /** The three objects the pass fills: `dimensionScores`, `questionScores`, `respondentGroups`. */
  datatype Acc = Acc(
    dimensionScores: map<Dimension, seq<real>>,
    questionScores: Assoc<string, seq<real>>,
    respondentGroups: Assoc<string, nat>)

  /** `Object.keys(dimensionMappings).forEach(dim => dimensionScores[dim] = [])`. */
  const EmptyDimensionScores: map<Dimension, seq<real>> :=
    map[TraineeOrientation := [], PerformanceOrientation := [], CompetitorOrientation := [],
        LongTermFocus := [], InterFunctionalCoordination := [], EmployeeOrientation := []]

  const EmptyAcc: Acc := Acc(EmptyDimensionScores, [], [])

  /** `dimensionScores[d]`. */
  function ScoresOf(m: map<Dimension, seq<real>>, d: Dimension): seq<real>
  {
    if d in m then m[d] else []
  }

  /** `questionScores[id] || []`. */
  function ListOf(qs: Assoc<string, seq<real>>, id: string): seq<real>
  {
    match Lookup(qs, id)
    case Some(l) => l
    case None => []
  }

  /** `respondentGroups[group] || 0`. */
  function CountOf(groups: Assoc<string, nat>, key: string): nat
  {
    match Lookup(groups, key)
    case Some(n) => n
    case None => 0
  }

  /** JavaScript truthiness of a cell value: `0`, `""` and `null` are false. */
  predicate Truthy(c: Cell)
  {
    match c
    case Num(x) => x != 0.0
    case Str(s) => s != []
    case Null => false
  }

  /** The dimension filter: everything for 'all', otherwise the dimension with that `value`. */
  predicate Selected(d: Dimension, selectedDimension: string)
  {
    selectedDimension == "all" || d.Value() == selectedDimension
  }

  /** The group a row is counted under, when it is counted at all. */
  function GroupKey(row: Row, setup: Setup): Option<string>
  {
    if !setup.hasGroupColumn then None
    else
      match Lookup(row, setup.groupHeader)
      case Some(c) => if Truthy(c) then Some(CellText(Some(c), setup.showNumber)) else None
      case None => None
  }

  /** `respondentGroups[group] = (respondentGroups[group] || 0) + 1`, when there is a group. */
  function Bump(groups: Assoc<string, nat>, group: Option<string>): Assoc<string, nat>
  {
    match group
    case Some(key) =>
      var count: nat := CountOf(groups, key) + 1;
      Assign(groups, key, count)
    case None => groups
  }

  /** The group step of a row. */
  function AddGroup(acc: Acc, row: Row, setup: Setup): Acc
  {
    acc.(respondentGroups := Bump(acc.respondentGroups, GroupKey(row, setup)))
  }

  /** The score of a cell that the row has: a number, or the leading digits and dots of its text. */
  function CellScore(cell: Option<Cell>): Option<real>
  {
    match cell
    case Some(c) => ParseScore(c)
    case None => None
  }

  /**
   * One column of one row, given the row's value under the header, the
   * column's dimension and its question: nothing when the row lacks the header,
   * the cell has no score or the column has no dimension; otherwise the score
   * is pushed to the dimension (if the filter selects it) and to the question.
   */
  function AddCell(acc: Acc, cell: Option<Cell>, route: Option<Dimension>, question: Option<QuestionInfo>,
                   selectedDimension: string): Acc
  {
    match CellScore(cell)
    case None => acc
    case Some(score) =>
      match route
      case None => acc
      case Some(d) =>
        if !Selected(d, selectedDimension) then acc
        else
          var dims := acc.dimensionScores[d := ScoresOf(acc.dimensionScores, d) + [score]];
          match question
          case Some(q) =>
            if q.questionId != [] then
              Acc(dims, Assign(acc.questionScores, q.questionId, ListOf(acc.questionScores, q.questionId) + [score]),
                  acc.respondentGroups)
            else Acc(dims, acc.questionScores, acc.respondentGroups)
          case None => Acc(dims, acc.questionScores, acc.respondentGroups)
  }

  /** `headers.forEach((header, colIndex) => ...)` over the first `|hs|` headers. */
  function AddColumns(acc: Acc, row: Row, hs: seq<string>, selectedDimension: string): Acc
  {
    if hs == [] then acc
    else
      var n := |hs| - 1;
      AddCell(AddColumns(acc, row, hs[..n], selectedDimension), Lookup(row, hs[n]), RouteColumn(n, hs[n]),
              QuestionInfoAt(n), selectedDimension)
  }

  /** One more header: the fold over `hs[..j + 1]` is the fold over `hs[..j]` and then column `j`. */
  lemma AddColumnsStep(acc: Acc, row: Row, hs: seq<string>, j: nat, selectedDimension: string)
    requires j < |hs|
    ensures AddColumns(acc, row, hs[..j + 1], selectedDimension) ==
            AddCell(AddColumns(acc, row, hs[..j], selectedDimension), Lookup(row, hs[j]), RouteColumn(j, hs[j]),
                    QuestionInfoAt(j), selectedDimension)
  {
    assert hs[..j + 1][..j] == hs[..j];
  }

  function AddRow(acc: Acc, row: Row, setup: Setup): Acc
  {
    AddColumns(AddGroup(acc, row, setup), row, setup.headers, setup.selectedDimension)
  }

  /** `dataRows.forEach(row => ...)`, starting from the empty objects. */
  function Accumulate(rows: seq<Row>, setup: Setup): Acc
  {
    if rows == [] then EmptyAcc
    else AddRow(Accumulate(rows[..|rows| - 1], setup), rows[|rows| - 1], setup)
  }

  /** One more row: the fold over `rows[..i + 1]` is the fold over `rows[..i]` and then row `i`. */
  lemma AccumulateStep(rows: seq<Row>, i: nat, setup: Setup)
    requires i < |rows|
    ensures Accumulate(rows[..i + 1], setup) == AddRow(Accumulate(rows[..i], setup), rows[i], setup)
  {
    assert rows[..i + 1][..i] == rows[..i];
  }

  // ---- What one cell does ----

  /**
   * A cell changes the dimension lists only by appending its score to the one
   * dimension its column routes to, and only when it has a score, a dimension
   * and passes the filter; the group counts never change.
   */
  lemma AddCellDimensions(acc: Acc, cell: Option<Cell>, route: Option<Dimension>, question: Option<QuestionInfo>,
                          sel: string, e: Dimension)
    ensures AddCell(acc, cell, route, question, sel).respondentGroups == acc.respondentGroups
    ensures var r := AddCell(acc, cell, route, question, sel);
            if CellScore(cell).Some? && route == Some(e) && Selected(e, sel)
            then ScoresOf(r.dimensionScores, e) == ScoresOf(acc.dimensionScores, e) + [CellScore(cell).value]
            else ScoresOf(r.dimensionScores, e) == ScoresOf(acc.dimensionScores, e)
  {
    var r := AddCell(acc, cell, route, question, sel);
    if CellScore(cell).Some? && route.Some? && Selected(route.value, sel) {
      var d := route.value;
      assert r.dimensionScores == acc.dimensionScores[d := ScoresOf(acc.dimensionScores, d) + [CellScore(cell).value]];
    } else {
      assert r.dimensionScores == acc.dimensionScores;
    }
  }

  /**
   * A cell adds to a question list only when its column carries that question:
   * the score of a routed, selected cell goes to its question's list, and every
   * other list is left as it was.
   */
  lemma AddCellQuestions(acc: Acc, cell: Option<Cell>, route: Option<Dimension>, question: Option<QuestionInfo>,
                         sel: string, id: string)
    ensures var r := AddCell(acc, cell, route, question, sel);
            if CellScore(cell).Some? && route.Some? && Selected(route.value, sel)
               && question.Some? && question.value.questionId == id && id != []
            then Lookup(r.questionScores, id) == Some(ListOf(acc.questionScores, id) + [CellScore(cell).value])
            else Lookup(r.questionScores, id) == Lookup(acc.questionScores, id)
  {
    if CellScore(cell).Some? && route.Some? && Selected(route.value, sel) && question.Some?
       && question.value.questionId != [] {
      var q := question.value;
      var l := ListOf(acc.questionScores, q.questionId) + [CellScore(cell).value];
      if q.questionId == id {
        AssignLookup(acc.questionScores, id, l);
      } else {
        AssignOther(acc.questionScores, q.questionId, l, id);
      }
    }
  }

  // ---- Question lists only come from the column table ----

  /** Every key of `questionScores` is a question id of the table, so it has a dimension. */
  ghost predicate KnownQuestions(qs: Assoc<string, seq<real>>)
  {
    forall i :: 0 <= i < |qs| ==> DimensionOfQuestion(qs[i].0).Some?
  }

  lemma AssignKnown(qs: Assoc<string, seq<real>>, id: string, l: seq<real>)
    requires KnownQuestions(qs) && DimensionOfQuestion(id).Some?
    ensures KnownQuestions(Assign(qs, id, l))
  {
    var r := Assign(qs, id, l);
    KeysAt(r);
    KeysAt(qs);
    forall i | 0 <= i < |r| ensures DimensionOfQuestion(r[i].0).Some? {
      assert Keys(r)[i] == r[i].0;
      if i < |qs| {
        assert Keys(qs)[i] == qs[i].0;
      }
    }
  }

  lemma AddCellKnown(acc: Acc, cell: Option<Cell>, route: Option<Dimension>, question: Option<QuestionInfo>, sel: string)
    requires KnownQuestions(acc.questionScores)
    requires question.Some? ==> DimensionOfQuestion(question.value.questionId).Some?
    ensures KnownQuestions(AddCell(acc, cell, route, question, sel).questionScores)
  {
    if CellScore(cell).Some? && question.Some? {
      var q := question.value;
      AssignKnown(acc.questionScores, q.questionId, ListOf(acc.questionScores, q.questionId) + [CellScore(cell).value]);
    }
  }

  lemma {:induction false} AddColumnsKnown(acc: Acc, row: Row, hs: seq<string>, sel: string)
    requires KnownQuestions(acc.questionScores)
    ensures KnownQuestions(AddColumns(acc, row, hs, sel).questionScores)
    decreases |hs|
  {
    if hs != [] {
      var n := |hs| - 1;
      AddColumnsKnown(acc, row, hs[..n], sel);
      QuestionInfoAtRange(n);
      AddCellKnown(AddColumns(acc, row, hs[..n], sel), Lookup(row, hs[n]), RouteColumn(n, hs[n]), QuestionInfoAt(n), sel);
    }
  }

  /**
   * Question lists are only ever created for ids of the column table: every
   * question id the pass produces has a dimension, so no question is 'Unknown'.
   */
  lemma {:induction false} AccumulateKnownQuestions(rows: seq<Row>, setup: Setup)
    ensures KnownQuestions(Accumulate(rows, setup).questionScores)
    decreases |rows|
  {
    if rows != [] {
      var n := |rows| - 1;
      AccumulateKnownQuestions(rows[..n], setup);
      var acc := AddGroup(Accumulate(rows[..n], setup), rows[n], setup);
      AddColumnsKnown(acc, rows[n], setup.headers, setup.selectedDimension);
    }
  }

  // ---- Respondent-group counts ----

  /** The number of rows counted under `key`. */
  function RowsWithKey(rows: seq<Row>, setup: Setup, key: string): nat
  {
    if rows == [] then 0
    else RowsWithKey(rows[..|rows| - 1], setup, key) + (if GroupKey(rows[|rows| - 1], setup) == Some(key) then 1 else 0)
  }

  /** The number of rows counted at all. */
  function CountedRows(rows: seq<Row>, setup: Setup): nat
  {
    if rows == [] then 0
    else CountedRows(rows[..|rows| - 1], setup) + (if GroupKey(rows[|rows| - 1], setup).Some? then 1 else 0)
  }

  /** The sum of the counts. */
  function TotalCount(groups: Assoc<string, nat>): nat
  {
    if groups == [] then 0 else groups[0].1 + TotalCount(groups[1..])
  }

  lemma {:induction false} AddColumnsGroups(acc: Acc, row: Row, hs: seq<string>, sel: string)
    ensures AddColumns(acc, row, hs, sel).respondentGroups == acc.respondentGroups
    decreases |hs|
  {
    if hs != [] {
      var n := |hs| - 1;
      AddColumnsGroups(acc, row, hs[..n], sel);
      AddCellDimensions(AddColumns(acc, row, hs[..n], sel), Lookup(row, hs[n]), RouteColumn(n, hs[n]),
                        QuestionInfoAt(n), sel, TraineeOrientation);
    }
  }

  /** A row's score columns leave the counts as its group step made them. */
  lemma AccumulateGroupsStep(rows: seq<Row>, setup: Setup)
    requires rows != []
    ensures Accumulate(rows, setup).respondentGroups
            == AddGroup(Accumulate(rows[..|rows| - 1], setup), rows[|rows| - 1], setup).respondentGroups
  {
    var n := |rows| - 1;
    AddColumnsGroups(AddGroup(Accumulate(rows[..n], setup), rows[n], setup), rows[n], setup.headers,
                     setup.selectedDimension);
  }

  /** A bump adds one to its own key's count and leaves every other count alone. */
  lemma BumpCount(groups: Assoc<string, nat>, group: Option<string>, key: string)
    ensures CountOf(Bump(groups, group), key) == CountOf(groups, key) + (if group == Some(key) then 1 else 0)
  {
    if group.Some? {
      var k := group.value;
      var c: nat := CountOf(groups, k) + 1;
      assert Bump(groups, group) == Assign(groups, k, c);
      if k == key {
        AssignLookup(groups, k, c);
        assert Lookup(Bump(groups, group), key) == Some(c);
      } else {
        AssignOther(groups, k, c, key);
        assert Lookup(Bump(groups, group), key) == Lookup(groups, key);
      }
    }
  }

  /** A bump adds the row's key, when it is new, and no other. */
  lemma BumpKeys(groups: Assoc<string, nat>, group: Option<string>, key: string)
    ensures key in Keys(Bump(groups, group)) <==> key in Keys(groups) || group == Some(key)
  {
  }

  /** A bump adds one to the total. */
  lemma BumpTotal(groups: Assoc<string, nat>, group: Option<string>)
    ensures TotalCount(Bump(groups, group)) == TotalCount(groups) + (if group.Some? then 1 else 0)
  {
    if group.Some? {
      var k := group.value;
      TotalCountAssign(groups, k, CountOf(groups, k) + 1);
    }
  }

  /**
   * Each group's count is the number of rows whose (truthy) group value has
   * that key, and a key is present exactly when it counts at least one row;
   * the score columns play no part.
   */
  lemma {:induction false} GroupCounts(rows: seq<Row>, setup: Setup, key: string)
    ensures CountOf(Accumulate(rows, setup).respondentGroups, key) == RowsWithKey(rows, setup, key)
    ensures key in Keys(Accumulate(rows, setup).respondentGroups) <==> RowsWithKey(rows, setup, key) > 0
    decreases |rows|
  {
    if rows != [] {
      var n := |rows| - 1;
      GroupCounts(rows[..n], setup, key);
      AccumulateGroupsStep(rows, setup);
      BumpCount(Accumulate(rows[..n], setup).respondentGroups, GroupKey(rows[n], setup), key);
      BumpKeys(Accumulate(rows[..n], setup).respondentGroups, GroupKey(rows[n], setup), key);
    }
  }

  lemma {:induction false} TotalCountAssign(groups: Assoc<string, nat>, key: string, c: nat)
    ensures TotalCount(Assign(groups, key, c)) == TotalCount(groups) - CountOf(groups, key) + c
    decreases |groups|
  {
    if groups != [] && groups[0].0 != key {
      TotalCountAssign(groups[1..], key, c);
      assert Assign(groups, key, c)[1..] == Assign(groups[1..], key, c);
    }
  }

  /** The counts add up to the number of rows with a truthy group value (none without the column). */
  lemma {:induction false} GroupTotal(rows: seq<Row>, setup: Setup)
    ensures TotalCount(Accumulate(rows, setup).respondentGroups) == CountedRows(rows, setup)
    decreases |rows|
  {
    if rows != [] {
      var n := |rows| - 1;
      GroupTotal(rows[..n], setup);
      AccumulateGroupsStep(rows, setup);
      BumpTotal(Accumulate(rows[..n], setup).respondentGroups, GroupKey(rows[n], setup));
    }
  }
}
