/**
 * What the accumulation pass of `processRawData` (src/App.tsx) adds up: the
 * list of a dimension is, in order, every score the rows push to it, and the
 * lists of that dimension's questions hold, together, exactly the scores
 * pushed to it from the question columns 23..60 (X..BI). Because the
 * averages only depend on these scores as a multiset, the order of the data
 * rows changes none of the dimension averages and not the overall index.
 */
module Totals {
  import opened Base
  import opened Dict
  import opened SeqUtil
  import opened Tables
  import opened Sheet
  import opened Aggregate
  import opened Summary

  // ---- The scores one row pushes ----

  /** The score column `n` of a row pushes to the list of `d`: none, or one. */
  function PushedTo(row: Row, hs: seq<string>, n: nat, sel: string, d: Dimension): seq<real>
    requires n < |hs|
  {
    var cell := Lookup(row, hs[n]);
    if CellScore(cell).Some? && RouteColumn(n, hs[n]) == Some(d) && Selected(d, sel) then [CellScore(cell).value]
    else []
  }

  /**
   * The scores a row pushes to `d`, in column order: from every column or,
   * with `tableOnly`, from the question columns 23..60 alone.
   */
  function RowScores(row: Row, hs: seq<string>, sel: string, d: Dimension, tableOnly: bool): seq<real>
  {
    if hs == [] then []
    else
      var n := |hs| - 1;
      RowScores(row, hs[..n], sel, d, tableOnly) + (if tableOnly && !(23 <= n <= 60) then [] else PushedTo(row, hs, n, sel, d))
  }

  /** `RowScores` as a function of the row. */
  function Pushes(hs: seq<string>, sel: string, d: Dimension, tableOnly: bool): Row -> seq<real>
  {
    row => RowScores(row, hs, sel, d, tableOnly)
  }

  /** The scores all rows push to `d`, row after row. */
  function RowsScores(rows: seq<Row>, hs: seq<string>, sel: string, d: Dimension, tableOnly: bool): seq<real>
  {
    FlatMap(rows, Pushes(hs, sel, d, tableOnly))
  }

  /** The question columns push a part of what all columns push to `d`. */
  lemma {:induction false} TableScoresIncluded(row: Row, hs: seq<string>, sel: string, d: Dimension)
    ensures multiset(RowScores(row, hs, sel, d, true)) <= multiset(RowScores(row, hs, sel, d, false))
    decreases |hs|
  {
    if hs != [] {
      TableScoresIncluded(row, hs[..|hs| - 1], sel, d);
    }
  }

  lemma {:induction false} RowsTableScoresIncluded(rows: seq<Row>, hs: seq<string>, sel: string, d: Dimension)
    ensures multiset(RowsScores(rows, hs, sel, d, true)) <= multiset(RowsScores(rows, hs, sel, d, false))
    decreases |rows|
  {
    if rows != [] {
      RowsTableScoresIncluded(rows[..|rows| - 1], hs, sel, d);
      TableScoresIncluded(rows[|rows| - 1], hs, sel, d);
    }
  }

  // ---- Dimension lists ----

  /** The columns of a row append to the list of `d` exactly what the row pushes to it. */
  lemma {:induction false} AddColumnsScores(acc: Acc, row: Row, hs: seq<string>, sel: string, d: Dimension)
    ensures ScoresOf(AddColumns(acc, row, hs, sel).dimensionScores, d) ==
            ScoresOf(acc.dimensionScores, d) + RowScores(row, hs, sel, d, false)
    decreases |hs|
  {
    if hs != [] {
      var n := |hs| - 1;
      AddColumnsScores(acc, row, hs[..n], sel, d);
      AddCellDimensions(AddColumns(acc, row, hs[..n], sel), Lookup(row, hs[n]), RouteColumn(n, hs[n]),
                        QuestionInfoAt(n), sel, d);
    }
  }

  /**
   * After the pass the list of every dimension holds the scores the rows push
   * to it, in row order and, inside a row, in column order.
   */
  lemma {:induction false} PassDimensionScores(rows: seq<Row>, setup: Setup, d: Dimension)
    ensures ScoresOf(Accumulate(rows, setup).dimensionScores, d) ==
            RowsScores(rows, setup.headers, setup.selectedDimension, d, false)
    decreases |rows|
  {
    if rows == [] {
      assert d in EmptyDimensionScores;
    } else {
      var n := |rows| - 1;
      PassDimensionScores(rows[..n], setup, d);
      AddColumnsScores(AddGroup(Accumulate(rows[..n], setup), rows[n], setup), rows[n], setup.headers,
                       setup.selectedDimension, d);
    }
  }

  // ---- Question lists ----

  /** The lists of the questions of `key`, concatenated in key order. */
  function QuestionMass(qs: Assoc<string, seq<real>>, key: Option<Dimension>): seq<real>
  {
    if qs == [] then []
    else
      var e := qs[|qs| - 1];
      QuestionMass(qs[..|qs| - 1], key) + (if DimensionOfQuestion(e.0) == key then e.1 else [])
  }

  lemma {:induction false} QuestionMassAppend(a: Assoc<string, seq<real>>, b: Assoc<string, seq<real>>,
                                              key: Option<Dimension>)
    ensures QuestionMass(a + b, key) == QuestionMass(a, key) + QuestionMass(b, key)
    decreases |b|
  {
    if b == [] {
      assert a + b == a;
    } else {
      var n := |b| - 1;
      assert (a + b)[..|a + b| - 1] == a + b[..n];
      QuestionMassAppend(a, b[..n], key);
    }
  }

  lemma QuestionMassSingle(e: (string, seq<real>), key: Option<Dimension>)
    ensures QuestionMass([e], key) == if DimensionOfQuestion(e.0) == key then e.1 else []
  {
    assert [e][..0] == [];
  }

  /** Pushing `s` to the list of `k` adds `s` to the lists of `k`'s dimension and to no other. */
  lemma {:induction false} QuestionMassPush(qs: Assoc<string, seq<real>>, k: string, s: real, key: Option<Dimension>)
    ensures multiset(QuestionMass(Assign(qs, k, ListOf(qs, k) + [s]), key)) ==
            multiset(QuestionMass(qs, key)) + (if DimensionOfQuestion(k) == key then multiset{s} else multiset{})
    decreases |qs|
  {
    var v := ListOf(qs, k) + [s];
    if qs == [] {
      QuestionMassSingle((k, v), key);
    } else if qs[0].0 == k {
      QuestionMassPushHere(qs, k, s, key);
    } else {
      QuestionMassPush(qs[1..], k, s, key);
      QuestionMassPushLater(qs, k, s, key);
    }
  }

  /** The push of `QuestionMassPush` past a first entry of another key, given the push into the rest. */
  lemma QuestionMassPushLater(qs: Assoc<string, seq<real>>, k: string, s: real, key: Option<Dimension>)
    requires qs != [] && qs[0].0 != k
    requires multiset(QuestionMass(Assign(qs[1..], k, ListOf(qs[1..], k) + [s]), key)) ==
             multiset(QuestionMass(qs[1..], key)) + (if DimensionOfQuestion(k) == key then multiset{s} else multiset{})
    ensures multiset(QuestionMass(Assign(qs, k, ListOf(qs, k) + [s]), key)) ==
            multiset(QuestionMass(qs, key)) + (if DimensionOfQuestion(k) == key then multiset{s} else multiset{})
  {
    var t := qs[1..];
    var v := ListOf(t, k) + [s];
    var delta := if DimensionOfQuestion(k) == key then multiset{s} else multiset{};
    PushPast(qs, k, v);
    assert qs == [qs[0]] + t;
    QuestionMassAppend([qs[0]], t, key);
    QuestionMassAppend([qs[0]], Assign(t, k, v), key);
    ConcatMultiset(QuestionMass([qs[0]], key), QuestionMass(Assign(t, k, v), key), QuestionMass(t, key), delta);
  }

  /** Assigning a key that is not the first one keeps the first entry and reads past it. */
  lemma PushPast(qs: Assoc<string, seq<real>>, k: string, v: seq<real>)
    requires qs != [] && qs[0].0 != k
    ensures ListOf(qs, k) == ListOf(qs[1..], k)
    ensures Assign(qs, k, v) == [qs[0]] + Assign(qs[1..], k, v)
  {
  }

  lemma ConcatMultiset(h: seq<real>, x: seq<real>, y: seq<real>, extra: multiset<real>)
    requires multiset(x) == multiset(y) + extra
    ensures multiset(h + x) == multiset(h + y) + extra
  {
    calc {
      multiset(h + x);
      multiset(h) + multiset(x);
      multiset(h) + multiset(y) + extra;
      multiset(h + y) + extra;
    }
  }

  /** The push of `QuestionMassPush` when the first entry is the list of `k`. */
  lemma QuestionMassPushHere(qs: Assoc<string, seq<real>>, k: string, s: real, key: Option<Dimension>)
    requires qs != [] && qs[0].0 == k
    ensures multiset(QuestionMass(Assign(qs, k, ListOf(qs, k) + [s]), key)) ==
            multiset(QuestionMass(qs, key)) + (if DimensionOfQuestion(k) == key then multiset{s} else multiset{})
  {
    var t := qs[1..];
    var v := qs[0].1 + [s];
    assert ListOf(qs, k) == qs[0].1;
    assert Assign(qs, k, v) == [(k, v)] + t;
    assert qs == [qs[0]] + t;
    QuestionMassAppend([qs[0]], t, key);
    QuestionMassAppend([(k, v)], t, key);
    QuestionMassSingle(qs[0], key);
    QuestionMassSingle((k, v), key);
    var rest := QuestionMass(t, key);
    if DimensionOfQuestion(k) == key {
      assert QuestionMass(Assign(qs, k, v), key) == v + rest;
      assert QuestionMass(qs, key) == qs[0].1 + rest;
      AppendOneMultiset(qs[0].1, s, rest);
    } else {
      assert QuestionMass(Assign(qs, k, v), key) == rest;
      assert QuestionMass(qs, key) == rest;
    }
  }

  lemma AppendOneMultiset(h: seq<real>, s: real, rest: seq<real>)
    ensures multiset(h + [s] + rest) == multiset(h + rest) + multiset{s}
  {
    calc {
      multiset(h + [s] + rest);
      multiset(h) + multiset([s]) + multiset(rest);
      multiset(h) + multiset(rest) + multiset{s};
      multiset(h + rest) + multiset{s};
    }
  }

  /**
   * One column adds to the lists of the questions of `d` the score it pushes
   * to `d` when it is a question column, and nothing otherwise.
   */
  lemma AddCellQuestionMass(acc: Acc, row: Row, hs: seq<string>, n: nat, sel: string, d: Dimension)
    requires n < |hs|
    ensures multiset(QuestionMass(AddCell(acc, Lookup(row, hs[n]), RouteColumn(n, hs[n]), QuestionInfoAt(n), sel)
                                    .questionScores, Some(d))) ==
            multiset(QuestionMass(acc.questionScores, Some(d))) +
            multiset(if 23 <= n <= 60 then PushedTo(row, hs, n, sel, d) else [])
  {
    var cell := Lookup(row, hs[n]);
    var route := RouteColumn(n, hs[n]);
    var r := AddCell(acc, cell, route, QuestionInfoAt(n), sel);
    QuestionColumn(n, hs[n]);
    if CellScore(cell).Some? && route.Some? && Selected(route.value, sel) && QuestionInfoAt(n).Some? {
      var id := QuestionInfoAt(n).value.questionId;
      var s := CellScore(cell).value;
      assert r.questionScores == Assign(acc.questionScores, id, ListOf(acc.questionScores, id) + [s]);
      QuestionMassPush(acc.questionScores, id, s, Some(d));
    } else {
      assert r.questionScores == acc.questionScores;
    }
  }

  /** A question column routes to its question's dimension, and its question has an id. */
  lemma QuestionColumn(n: nat, header: string)
    ensures QuestionInfoAt(n).Some? <==> 23 <= n <= 60
    ensures QuestionInfoAt(n).Some? ==>
              QuestionInfoAt(n).value.questionId != [] &&
              DimensionOfQuestion(QuestionInfoAt(n).value.questionId) == RouteColumn(n, header)
  {
    QuestionInfoAtRange(n);
    if QuestionInfoAt(n).Some? {
      assert [] !in QuestionDimensions;
    }
  }

  lemma {:induction false} AddColumnsQuestionMass(acc: Acc, row: Row, hs: seq<string>, sel: string, d: Dimension)
    ensures multiset(QuestionMass(AddColumns(acc, row, hs, sel).questionScores, Some(d))) ==
            multiset(QuestionMass(acc.questionScores, Some(d))) + multiset(RowScores(row, hs, sel, d, true))
    decreases |hs|
  {
    if hs != [] {
      var n := |hs| - 1;
      AddColumnsQuestionMass(acc, row, hs[..n], sel, d);
      AddCellQuestionMass(AddColumns(acc, row, hs[..n], sel), row, hs, n, sel, d);
    }
  }

  /**
   * After the pass the lists of the questions of a dimension hold, together,
   * exactly the scores pushed to that dimension from the question columns.
   */
  lemma {:induction false} PassQuestionScores(rows: seq<Row>, setup: Setup, d: Dimension)
    ensures multiset(QuestionMass(Accumulate(rows, setup).questionScores, Some(d))) ==
            multiset(RowsScores(rows, setup.headers, setup.selectedDimension, d, true))
    decreases |rows|
  {
    if rows != [] {
      var n := |rows| - 1;
      PassQuestionScores(rows[..n], setup, d);
      AddColumnsQuestionMass(AddGroup(Accumulate(rows[..n], setup), rows[n], setup), rows[n], setup.headers,
                             setup.selectedDimension, d);
    }
  }

  // ---- The shape of the question lists ----

  /** Question lists are keyed once each and are never empty: a list is created by its first push. */
  ghost predicate QuestionLists(qs: Assoc<string, seq<real>>)
  {
    DistinctKeys(qs) && forall i :: 0 <= i < |qs| ==> qs[i].1 != []
  }

  lemma AddCellQuestionLists(acc: Acc, cell: Option<Cell>, route: Option<Dimension>, question: Option<QuestionInfo>,
                             sel: string)
    requires QuestionLists(acc.questionScores)
    ensures QuestionLists(AddCell(acc, cell, route, question, sel).questionScores)
  {
    var qs := acc.questionScores;
    if CellScore(cell).Some? && route.Some? && Selected(route.value, sel) && question.Some?
       && question.value.questionId != [] {
      var id := question.value.questionId;
      var v := ListOf(qs, id) + [CellScore(cell).value];
      var r := Assign(qs, id, v);
      assert AddCell(acc, cell, route, question, sel).questionScores == r;
      AssignDistinct(qs, id, v);
      AssignEntries(qs, id, v);
      forall i | 0 <= i < |r| ensures r[i].1 != [] {
        assert r[i] in r;
      }
    }
  }

  lemma {:induction false} AddColumnsQuestionLists(acc: Acc, row: Row, hs: seq<string>, sel: string)
    requires QuestionLists(acc.questionScores)
    ensures QuestionLists(AddColumns(acc, row, hs, sel).questionScores)
    decreases |hs|
  {
    if hs != [] {
      var n := |hs| - 1;
      AddColumnsQuestionLists(acc, row, hs[..n], sel);
      AddCellQuestionLists(AddColumns(acc, row, hs[..n], sel), Lookup(row, hs[n]), RouteColumn(n, hs[n]),
                           QuestionInfoAt(n), sel);
    }
  }

  lemma {:induction false} PassQuestionLists(rows: seq<Row>, setup: Setup)
    ensures QuestionLists(Accumulate(rows, setup).questionScores)
    decreases |rows|
  {
    if rows != [] {
      var n := |rows| - 1;
      PassQuestionLists(rows[..n], setup);
      AddColumnsQuestionLists(AddGroup(Accumulate(rows[..n], setup), rows[n], setup), rows[n], setup.headers,
                              setup.selectedDimension);
    }
  }

  /** Some question of `key` has a list exactly when the lists of `key` hold a score. */
  lemma {:induction false} QuestionMassEmpty(qs: Assoc<string, seq<real>>, key: Option<Dimension>)
    requires forall i :: 0 <= i < |qs| ==> qs[i].1 != []
    ensures QuestionMass(qs, key) == [] <==> forall i :: 0 <= i < |qs| ==> DimensionOfQuestion(qs[i].0) != key
    decreases |qs|
  {
    if qs != [] {
      var n := |qs| - 1;
      QuestionMassEmpty(qs[..n], key);
      assert forall i :: 0 <= i < n ==> qs[..n][i] == qs[i];
    }
  }

  // ---- From the question lists to the dimension averages ----

  lemma {:induction false} ScoresOfQuestionsAppend(a: seq<QuestionRow>, b: seq<QuestionRow>,
                                                   qs: Assoc<string, seq<real>>, key: Option<Dimension>)
    ensures ScoresOfQuestions(a + b, qs, key) == ScoresOfQuestions(a, qs, key) + ScoresOfQuestions(b, qs, key)
    decreases |b|
  {
    if b == [] {
      assert a + b == a;
    } else {
      var n := |b| - 1;
      assert (a + b)[..|a + b| - 1] == a + b[..n];
      ScoresOfQuestionsAppend(a, b[..n], qs, key);
    }
  }

  /** Taking out question row `j` takes out its list. */
  lemma ScoresOfQuestionsRemove(b: seq<QuestionRow>, j: nat, qs: Assoc<string, seq<real>>, key: Option<Dimension>)
    requires j < |b|
    ensures multiset(ScoresOfQuestions(b, qs, key)) ==
            multiset(ScoresOfQuestions(b[..j] + b[j + 1..], qs, key)) + multiset(ScoresOfQuestions([b[j]], qs, key))
  {
    var p := ScoresOfQuestions([b[j]], qs, key);
    var u := ScoresOfQuestions(b[..j], qs, key);
    var w := ScoresOfQuestions(b[j + 1..], qs, key);
    assert b == b[..j] + [b[j]] + b[j + 1..];
    ScoresOfQuestionsAppend(b[..j] + [b[j]], b[j + 1..], qs, key);
    ScoresOfQuestionsAppend(b[..j], [b[j]], qs, key);
    ScoresOfQuestionsAppend(b[..j], b[j + 1..], qs, key);
    assert multiset(u + p + w) == multiset(u + w) + multiset(p);
  }

  /** Gathering the question lists of a dimension does not depend on the order of the question rows. */
  lemma {:induction false} ScoresOfQuestionsPermutation(a: seq<QuestionRow>, b: seq<QuestionRow>,
                                                        qs: Assoc<string, seq<real>>, key: Option<Dimension>)
    requires multiset(a) == multiset(b)
    ensures multiset(ScoresOfQuestions(a, qs, key)) == multiset(ScoresOfQuestions(b, qs, key))
    decreases |a|
  {
    if a != [] {
      var n := |a| - 1;
      var j := PickLast(a, b);
      ScoresOfQuestionsPermutation(a[..n], b[..j] + b[j + 1..], qs, key);
      ScoresOfQuestionsRemove(b, j, qs, key);
      var ra := ScoresOfQuestions(a[..n], qs, key);
      var px := ScoresOfQuestions([a[n]], qs, key);
      assert a == a[..n] + [a[n]];
      ScoresOfQuestionsAppend(a[..n], [a[n]], qs, key);
      assert multiset(ra + px) == multiset(ra) + multiset(px);
    }
  }

  /** Over the unsorted rows, gathering a dimension's question lists is `QuestionMass`. */
  lemma QuestionRowsMass(qs: Assoc<string, seq<real>>, key: Option<Dimension>, n: nat)
    requires DistinctKeys(qs) && n <= |qs|
    ensures ScoresOfQuestions(QuestionRows(qs)[..n], qs, key) == QuestionMass(qs[..n], key)
  {
    var rows := QuestionRows(qs);
    forall i | 0 <= i < |qs|
      ensures rows[i].questionId == qs[i].0 && rows[i].dimension == DimensionOfQuestion(qs[i].0)
      ensures ListOf(qs, qs[i].0) == qs[i].1
    {
      LookupAt(qs, i);
    }
    RowsMass(rows, qs, key, n);
  }

  /** Rows that carry each entry's id and dimension gather the entries' lists. */
  lemma {:induction false} RowsMass(rows: seq<QuestionRow>, qs: Assoc<string, seq<real>>, key: Option<Dimension>, n: nat)
    requires n <= |rows| == |qs|
    requires forall i :: 0 <= i < |qs| ==>
               rows[i].questionId == qs[i].0 && rows[i].dimension == DimensionOfQuestion(qs[i].0) &&
               ListOf(qs, qs[i].0) == qs[i].1
    ensures ScoresOfQuestions(rows[..n], qs, key) == QuestionMass(qs[..n], key)
    decreases n
  {
    if n > 0 {
      RowsMass(rows, qs, key, n - 1);
      RowsMassStep(rows, qs, key, n);
    }
  }

  lemma RowsMassStep(rows: seq<QuestionRow>, qs: Assoc<string, seq<real>>, key: Option<Dimension>, n: nat)
    requires 0 < n <= |rows| == |qs|
    requires rows[n - 1].questionId == qs[n - 1].0 && rows[n - 1].dimension == DimensionOfQuestion(qs[n - 1].0)
    requires ListOf(qs, qs[n - 1].0) == qs[n - 1].1
    ensures var part := if DimensionOfQuestion(qs[n - 1].0) == key then qs[n - 1].1 else [];
      && ScoresOfQuestions(rows[..n], qs, key) == ScoresOfQuestions(rows[..n - 1], qs, key) + part
      && QuestionMass(qs[..n], key) == QuestionMass(qs[..n - 1], key) + part
  {
    var m := n - 1;
    assert rows[..n][..m] == rows[..m] && rows[..n][m] == rows[m];
    assert qs[..n][..m] == qs[..m] && qs[..n][m] == qs[m];
  }

  /** Over the sorted rows too, as a multiset. */
  lemma QuestionsDataMass(qs: Assoc<string, seq<real>>, key: Option<Dimension>)
    requires DistinctKeys(qs)
    ensures multiset(ScoresOfQuestions(QuestionsData(qs), qs, key)) == multiset(QuestionMass(qs, key))
  {
    QuestionsDataOrdered(qs);
    ScoresOfQuestionsPermutation(QuestionsData(qs), QuestionRows(qs), qs, key);
    QuestionRowsMass(qs, key, |qs|);
    assert QuestionRows(qs)[..|qs|] == QuestionRows(qs);
    assert qs[..|qs|] == qs;
  }

  /** A sorted question row has dimension `key` exactly when some question list's id does. */
  lemma QuestionsDataHas(qs: Assoc<string, seq<real>>, key: Option<Dimension>)
    ensures HasDimension(QuestionsData(qs), key) <==> exists k :: 0 <= k < |qs| && DimensionOfQuestion(qs[k].0) == key
  {
    QuestionsDataOrdered(qs);
    if HasDimension(QuestionsData(qs), key) {
      SortedRowHas(qs, key);
    }
    if k :| 0 <= k < |qs| && DimensionOfQuestion(qs[k].0) == key {
      ListHasSortedRow(qs, key, k);
    }
  }

  lemma SortedRowHas(qs: Assoc<string, seq<real>>, key: Option<Dimension>)
    requires multiset(QuestionsData(qs)) == multiset(QuestionRows(qs))
    requires HasDimension(QuestionsData(qs), key)
    ensures exists k :: 0 <= k < |qs| && DimensionOfQuestion(qs[k].0) == key
  {
    var qd := QuestionsData(qs);
    var i :| 0 <= i < |qd| && qd[i].dimension == key;
    assert qd[i] in multiset(QuestionRows(qs));
    var k :| 0 <= k < |QuestionRows(qs)| && QuestionRows(qs)[k] == qd[i];
    assert DimensionOfQuestion(qs[k].0) == key;
  }

  lemma ListHasSortedRow(qs: Assoc<string, seq<real>>, key: Option<Dimension>, k: nat)
    requires multiset(QuestionsData(qs)) == multiset(QuestionRows(qs))
    requires k < |qs| && DimensionOfQuestion(qs[k].0) == key
    ensures HasDimension(QuestionsData(qs), key)
  {
    var qd := QuestionsData(qs);
    var row := QuestionRows(qs)[k];
    assert row.dimension == key;
    assert row in multiset(qd);
    var i :| 0 <= i < |qd| && qd[i] == row;
    assert qd[i].dimension == key;
  }

  /**
   * The dimension scores gathered from the sorted question rows are, as a
   * multiset, the lists of that dimension's questions, and a dimension gets
   * such a list exactly when one of its questions has a list.
   */
  lemma FromQuestionsMass(qs: Assoc<string, seq<real>>, d: Dimension)
    requires QuestionLists(qs)
    ensures var fromQ := FromQuestions(QuestionsData(qs), qs);
      (Some(d) in fromQ <==> QuestionMass(qs, Some(d)) != []) &&
      (Some(d) in fromQ ==> multiset(fromQ[Some(d)]) == multiset(QuestionMass(qs, Some(d))))
  {
    FromQuestionsGroups(QuestionsData(qs), qs, Some(d));
    QuestionsDataMass(qs, Some(d));
    QuestionsDataHas(qs, Some(d));
    QuestionMassEmpty(qs, Some(d));
  }

  /**
   * After the pass, a dimension's question lists exist exactly when the
   * question columns pushed it a score, and they then hold those scores; its
   * own list holds every score pushed to it. Its average is that of the first
   * when there are any, else that of the second.
   */
  lemma PassCurrent(rows: seq<Row>, setup: Setup, d: Dimension)
    ensures var acc := Accumulate(rows, setup);
      var fromQ := FromQuestions(QuestionsData(acc.questionScores), acc.questionScores);
      var hs := setup.headers;
      var sel := setup.selectedDimension;
      ScoresOf(acc.dimensionScores, d) == RowsScores(rows, hs, sel, d, false) &&
      (Some(d) in fromQ <==> RowsScores(rows, hs, sel, d, true) != []) &&
      (Some(d) in fromQ ==> multiset(fromQ[Some(d)]) == multiset(RowsScores(rows, hs, sel, d, true)))
  {
    var acc := Accumulate(rows, setup);
    PassDimensionScores(rows, setup, d);
    PassQuestionScores(rows, setup, d);
    PassQuestionLists(rows, setup);
    FromQuestionsMass(acc.questionScores, d);
  }

  // ---- Row order ----

  /** What the rows push to a dimension does not depend on the order of the rows. */
  lemma RowsScoresPermutation(a: seq<Row>, b: seq<Row>, hs: seq<string>, sel: string, d: Dimension, tableOnly: bool)
    requires multiset(a) == multiset(b)
    ensures multiset(RowsScores(a, hs, sel, d, tableOnly)) == multiset(RowsScores(b, hs, sel, d, tableOnly))
  {
    FlatMapPermutation(a, b, Pushes(hs, sel, d, tableOnly));
  }

  /** `calculateAverage` does not depend on the order of the scores. */
  lemma MeanPermutation(a: seq<real>, b: seq<real>)
    requires multiset(a) == multiset(b)
    ensures Mean(a) == Mean(b)
  {
    assert |a| == |multiset(a)| == |multiset(b)| == |b|;
    SumPermutation(a, b);
  }

  /** A dimension's average does not depend on the order of the rows. */
  lemma CurrentRowOrder(rows: seq<Row>, rows': seq<Row>, setup: Setup, setup': Setup, d: Dimension)
    requires multiset(rows) == multiset(rows')
    requires setup.headers == setup'.headers && setup.selectedDimension == setup'.selectedDimension
    ensures var acc := Accumulate(rows, setup);
      var acc' := Accumulate(rows', setup');
      CurrentFor(d, acc.dimensionScores, FromQuestions(QuestionsData(acc.questionScores), acc.questionScores)) ==
      CurrentFor(d, acc'.dimensionScores, FromQuestions(QuestionsData(acc'.questionScores), acc'.questionScores))
  {
    var hs := setup.headers;
    var sel := setup.selectedDimension;
    PassCurrent(rows, setup, d);
    PassCurrent(rows', setup', d);
    RowsScoresPermutation(rows, rows', hs, sel, d, true);
    RowsScoresPermutation(rows, rows', hs, sel, d, false);
    var t := RowsScores(rows, hs, sel, d, true);
    var t' := RowsScores(rows', hs, sel, d, true);
    assert t == [] <==> t' == [] by {
      assert |t| == |multiset(t)| && |t'| == |multiset(t')|;
    }
    var acc := Accumulate(rows, setup);
    var acc' := Accumulate(rows', setup');
    var fromQ := FromQuestions(QuestionsData(acc.questionScores), acc.questionScores);
    var fromQ' := FromQuestions(QuestionsData(acc'.questionScores), acc'.questionScores);
    if Some(d) in fromQ {
      MeanPermutation(fromQ[Some(d)], fromQ'[Some(d)]);
    } else {
      MeanPermutation(ScoresOf(acc.dimensionScores, d), ScoresOf(acc'.dimensionScores, d));
    }
  }

  /** Dimension rows built from the same averages are the same rows. */
  lemma SameDimensionRows(dims: map<Dimension, seq<real>>, fromQ: map<Option<Dimension>, seq<real>>,
                          dims': map<Dimension, seq<real>>, fromQ': map<Option<Dimension>, seq<real>>)
    requires forall d :: CurrentFor(d, dims, fromQ) == CurrentFor(d, dims', fromQ')
    ensures DimensionRows(dims, fromQ) == DimensionRows(dims', fromQ')
  {
  }

  /** The pass over a permutation of the rows gives the same dimension rows. */
  lemma PassRowOrder(rows: seq<Row>, rows': seq<Row>, setup: Setup, setup': Setup)
    requires multiset(rows) == multiset(rows')
    requires setup.headers == setup'.headers && setup.selectedDimension == setup'.selectedDimension
    ensures var acc := Accumulate(rows, setup);
      var acc' := Accumulate(rows', setup');
      DimensionRows(acc.dimensionScores, FromQuestions(QuestionsData(acc.questionScores), acc.questionScores)) ==
      DimensionRows(acc'.dimensionScores, FromQuestions(QuestionsData(acc'.questionScores), acc'.questionScores))
  {
    var acc := Accumulate(rows, setup);
    var acc' := Accumulate(rows', setup');
    var fromQ := FromQuestions(QuestionsData(acc.questionScores), acc.questionScores);
    var fromQ' := FromQuestions(QuestionsData(acc'.questionScores), acc'.questionScores);
    forall d ensures CurrentFor(d, acc.dimensionScores, fromQ) == CurrentFor(d, acc'.dimensionScores, fromQ') {
      CurrentRowOrder(rows, rows', setup, setup', d);
    }
    SameDimensionRows(acc.dimensionScores, fromQ, acc'.dimensionScores, fromQ');
  }

  /**
   * Reordering the data rows leaves every dimension average, the overall
   * index, the trend, the best and lowest dimensions and the respondent
   * count as they were.
   */
  lemma DashboardRowOrder(previous: real, rows: seq<Row>, rows': seq<Row>, sel: string, groupHeader: string,
                          headers: seq<string>, showNumber: real -> string)
    requires multiset(rows) == multiset(rows')
    ensures var r := DashboardOf(previous, rows, sel, groupHeader, headers, showNumber);
      var r' := DashboardOf(previous, rows', sel, groupHeader, headers, showNumber);
      r.dimensionsData == r'.dimensionsData && r.overallIndex == r'.overallIndex && r.trend == r'.trend &&
      r.bestDimension == r'.bestDimension && r.lowestDimension == r'.lowestDimension &&
      r.totalRespondents == r'.totalRespondents
  {
    assert |rows| == |multiset(rows)| == |multiset(rows')| == |rows'|;
    if rows != [] {
      PassRowOrder(rows, rows', SetupFor(rows, sel, groupHeader, headers, showNumber),
                   SetupFor(rows', sel, groupHeader, headers, showNumber));
    }
  }
}
