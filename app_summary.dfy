/**
 * The summary half of `processRawData` (src/App.tsx): one row per question
 * list, sorted by dimension and question number; the dimension averages, which
 * prefer the scores gathered through the questions of a dimension over the
 * dimension's own list; the overall index, the trend against the previous
 * index, and the best and lowest dimensions. `ProcessRawData` is the whole
 * pass written step by step, proved equal to `DashboardOf`.
 */
module Summary {
  import opened Base
  import opened Dict
  import opened SeqUtil
  import opened Columns
  import opened Tables
  import opened Sheet
  import opened Pdk
  import opened Aggregate

  /** An entry of `questionsData`; `dimension` is `None` for 'Unknown'. */
  datatype QuestionRow = QuestionRow(questionId: string, questionNumber: nat, dimension: Option<Dimension>,
                                     score: real, count: nat)

  /** An entry of `dimensionsData` (label and value are those of `dimension`). */
  datatype DimensionRow = DimensionRow(dimension: Dimension, current: real, previous: real)

  /** `bestDimension` / `lowestDimension`. */
  datatype Named = Named(name: string, score: real)

  /** The object `processRawData` returns. */
  datatype Dashboard = Dashboard(
    overallIndex: real,
    trend: real,
    bestDimension: Named,
    lowestDimension: Named,
    totalRespondents: nat,
    dimensionsData: seq<DimensionRow>,
    respondentGroups: Assoc<string, nat>,
    questionsData: seq<QuestionRow>)

  /** The result for no rows: zeros, 'N/A' and empty collections. */
  const NoData: Dashboard := Dashboard(0.0, 0.0, Named("N/A", 0.0), Named("N/A", 0.0), 0, [], [], [])

  // ---- Question rows ----

  /**
   * The question number of an id: that of the first entry of the column
   * table, in column order from column `i` on, whose question has that id;
   * 0 if there is none.
   */
  function QuestionNumberFrom(id: string, i: nat): (n: nat)
    ensures (exists c :: i <= c <= 60 && QuestionInfoAt(c) == Some(QuestionInfo(n, id))) ||
            (n == 0 && forall c :: i <= c <= 60 && QuestionInfoAt(c).Some? ==> QuestionInfoAt(c).value.questionId != id)
    decreases 61 - i
  {
    if i > 60 then 0
    else
      match QuestionInfoAt(i)
      case Some(q) => if q.questionId == id then q.questionNumber else QuestionNumberFrom(id, i + 1)
      case None => QuestionNumberFrom(id, i + 1)
  }

  /** The `find` over the table's entries, which start at column X (index 23). */
  function QuestionNumberOf(id: string): nat
  {
    QuestionNumberFrom(id, 23)
  }

  /** A question number is one of the table's, 1..38, or 0 for an id the table does not have. */
  lemma QuestionNumberRange(id: string)
    ensures QuestionNumberOf(id) <= 38
    ensures QuestionNumberOf(id) == 0 <==>
            forall c :: 23 <= c <= 60 && QuestionInfoAt(c).Some? ==> QuestionInfoAt(c).value.questionId != id
  {
    var n := QuestionNumberOf(id);
    if c :| 23 <= c <= 60 && QuestionInfoAt(c) == Some(QuestionInfo(n, id)) {
      QuestionInfoAtRange(c);
    }
  }

  /** `dimOrder.indexOf(dimension)`: -1 for 'Unknown'. */
  function RankOf(d: Option<Dimension>): int
  {
    match d
    case Some(x) => x.Rank()
    case None => -1
  }

  function QuestionRowOf(e: (string, seq<real>)): QuestionRow
  {
    QuestionRow(e.0, QuestionNumberOf(e.0), DimensionOfQuestion(e.0), Mean(e.1), |e.1|)
  }

  /** `Object.entries(questionScores).map(...)`, before sorting. */
  function QuestionRows(qs: Assoc<string, seq<real>>): seq<QuestionRow>
  {
    seq(|qs|, i requires 0 <= i < |qs| => QuestionRowOf(qs[i]))
  }

  /** The comparator's order as a descending key: rank first, then question number (at most 38). */
  function QuestionKey(q: QuestionRow): real
  {
    -((RankOf(q.dimension) * 100 + q.questionNumber) as real)
  }

  /** `questionsData`: the question rows in (dimension, question number) order, stable. */
  function QuestionsData(qs: Assoc<string, seq<real>>): seq<QuestionRow>
  {
    SortDesc(QuestionRows(qs), QuestionKey)
  }

  /** `a` may come before `b`: an earlier dimension, or the same one and a number no larger. */
  predicate InOrder(a: QuestionRow, b: QuestionRow)
  {
    RankOf(a.dimension) < RankOf(b.dimension) ||
    (RankOf(a.dimension) == RankOf(b.dimension) && a.questionNumber <= b.questionNumber)
  }

  lemma KeyOrder(a: QuestionRow, b: QuestionRow)
    requires a.questionNumber <= 38 && b.questionNumber <= 38
    ensures QuestionKey(a) >= QuestionKey(b) <==> InOrder(a, b)
  {
  }

  /** A question row carries a number of the table, at most 38. */
  lemma RowNumbered(qs: Assoc<string, seq<real>>, q: QuestionRow)
    requires q in multiset(QuestionRows(qs))
    ensures q.questionNumber <= 38
  {
    var k := RowOfEntry(qs, q);
    QuestionNumberRange(qs[k].0);
  }

  /** A question row is the row of one of the entries. */
  lemma RowOfEntry(qs: Assoc<string, seq<real>>, q: QuestionRow) returns (k: nat)
    requires q in multiset(QuestionRows(qs))
    ensures k < |qs| && q == QuestionRowOf(qs[k])
  {
    assert q in QuestionRows(qs);
    k :| 0 <= k < |qs| && QuestionRows(qs)[k] == q;
  }

  /** Two rows of a permutation of the question rows, the first with the larger key, are in order. */
  lemma PairInOrder(qs: Assoc<string, seq<real>>, r: seq<QuestionRow>, i: nat, j: nat)
    requires multiset(r) == multiset(QuestionRows(qs)) && i < j < |r|
    requires QuestionKey(r[i]) >= QuestionKey(r[j])
    ensures InOrder(r[i], r[j])
  {
    assert r[i] in multiset(r) && r[j] in multiset(r);
    RowNumbered(qs, r[i]);
    RowNumbered(qs, r[j]);
    KeyOrder(r[i], r[j]);
  }

  /**
   * `questionsData` holds one row per question list, ordered by dimension
   * (the 'Unknown' ones first) and then by question number, and rows that
   * compare equal keep the order of `Object.entries`.
   */
  lemma QuestionsDataOrdered(qs: Assoc<string, seq<real>>)
    ensures |QuestionsData(qs)| == |qs|
    ensures multiset(QuestionsData(qs)) == multiset(QuestionRows(qs))
    ensures forall i, j :: 0 <= i < j < |qs| ==> InOrder(QuestionsData(qs)[i], QuestionsData(qs)[j])
    ensures forall v :: WithKey(QuestionsData(qs), QuestionKey, v) == WithKey(QuestionRows(qs), QuestionKey, v)
  {
    var rows := QuestionRows(qs);
    var r := QuestionsData(qs);
    SortDescFacts(rows, QuestionKey);
    forall i, j | 0 <= i < j < |qs| ensures InOrder(r[i], r[j]) {
      PairInOrder(qs, r, i, j);
    }
  }

  // ---- Dimension scores from the questions ----

  /** `dimensionScoresFromQuestions`: each question row's list appended under its dimension. */
  function FromQuestions(qd: seq<QuestionRow>, qs: Assoc<string, seq<real>>): map<Option<Dimension>, seq<real>>
  {
    if qd == [] then map[]
    else
      var m := FromQuestions(qd[..|qd| - 1], qs);
      var q := qd[|qd| - 1];
      m[q.dimension := (if q.dimension in m then m[q.dimension] else []) + ListOf(qs, q.questionId)]
  }

  /** The scores of the questions of one dimension, concatenated in row order. */
  function ScoresOfQuestions(qd: seq<QuestionRow>, qs: Assoc<string, seq<real>>, key: Option<Dimension>): seq<real>
  {
    if qd == [] then []
    else
      var q := qd[|qd| - 1];
      ScoresOfQuestions(qd[..|qd| - 1], qs, key) + (if q.dimension == key then ListOf(qs, q.questionId) else [])
  }

  predicate HasDimension(qd: seq<QuestionRow>, key: Option<Dimension>)
  {
    exists i :: 0 <= i < |qd| && qd[i].dimension == key
  }

  /**
   * The grouping has a list for a dimension exactly when some question row
   * has that dimension, and the list is the concatenation of those rows' scores.
   */
  lemma {:induction false} FromQuestionsGroups(qd: seq<QuestionRow>, qs: Assoc<string, seq<real>>, key: Option<Dimension>)
    ensures key in FromQuestions(qd, qs) <==> HasDimension(qd, key)
    ensures key in FromQuestions(qd, qs) ==> FromQuestions(qd, qs)[key] == ScoresOfQuestions(qd, qs, key)
    ensures key !in FromQuestions(qd, qs) ==> ScoresOfQuestions(qd, qs, key) == []
    decreases |qd|
  {
    if qd != [] {
      var n := |qd| - 1;
      FromQuestionsGroups(qd[..n], qs, key);
      if qd[n].dimension == key {
        assert HasDimension(qd, key);
      } else if HasDimension(qd, key) {
        var i :| 0 <= i < |qd| && qd[i].dimension == key;
        assert qd[..n][i].dimension == key;
      }
    }
  }

  // ---- Dimension rows and the summary ----

  /** `dimensionScoresFromQuestions[label] || dimensionScores[label] || []`, averaged. */
  function CurrentFor(d: Dimension, dims: map<Dimension, seq<real>>, fromQ: map<Option<Dimension>, seq<real>>): real
  {
    Mean(if Some(d) in fromQ then fromQ[Some(d)] else ScoresOf(dims, d))
  }

  /** `dimensionsData`, in the order of the dimension table; `previous` is `current - 0.1`. */
  function DimensionRows(dims: map<Dimension, seq<real>>, fromQ: map<Option<Dimension>, seq<real>>): seq<DimensionRow>
  {
    seq(|Dimensions|, i requires 0 <= i < |Dimensions| =>
      DimensionRow(Dimensions[i], CurrentFor(Dimensions[i], dims, fromQ), CurrentFor(Dimensions[i], dims, fromQ) - 0.1))
  }

  function CurrentOf(r: DimensionRow): real
  {
    r.current
  }

  function Currents(rows: seq<DimensionRow>): seq<real>
  {
    seq(|rows|, i requires 0 <= i < |rows| => rows[i].current)
  }

  /** The first dimension of `[...dimensionsData].sort((a, b) => b.current - a.current)`. */
  function Best(rows: seq<DimensionRow>): Named
    requires |rows| > 0
  {
    var sorted := SortDesc(rows, CurrentOf);
    Named(sorted[0].dimension.Label(), sorted[0].current)
  }

  /** The last dimension of the same sorted copy. */
  function Lowest(rows: seq<DimensionRow>): Named
    requires |rows| > 0
  {
    var sorted := SortDesc(rows, CurrentOf);
    Named(sorted[|rows| - 1].dimension.Label(), sorted[|rows| - 1].current)
  }

  /**
   * Everything after the accumulation pass, for `total` rows, the previous
   * overall index and the question rows `qd` built from `acc`.
   */
  function Summarise(previous: real, total: nat, acc: Acc, qd: seq<QuestionRow>): Dashboard
  {
    var rows := DimensionRows(acc.dimensionScores, FromQuestions(qd, acc.questionScores));
    var overall := Mean(Currents(rows));
    Dashboard(overall, (overall - previous) * 100.0, Best(rows), Lowest(rows), total, rows, acc.respondentGroups, qd)
  }

  /** The fixed inputs of the pass; the group column counts only if the first row has it. */
  function SetupFor(rows: seq<Row>, selectedDimension: string, groupHeader: string, headers: seq<string>,
                    showNumber: real -> string): Setup
  {
    Setup(headers, groupHeader, |rows| > 0 && groupHeader in Keys(rows[0]), selectedDimension, showNumber)
  }

  /** `processRawData(previousOverallIndex, dataRows, selectedDimension, respondentGroupColHeader, headers)`. */
  function DashboardOf(previous: real, rows: seq<Row>, selectedDimension: string, groupHeader: string,
                       headers: seq<string>, showNumber: real -> string): (r: Dashboard)
    ensures rows == [] ==> r == NoData
    ensures rows != [] ==> r.totalRespondents == |rows|
  {
    if rows == [] then NoData
    else
      var acc := Accumulate(rows, SetupFor(rows, selectedDimension, groupHeader, headers, showNumber));
      Summarise(previous, |rows|, acc, QuestionsData(acc.questionScores))
  }

  // ---- What the summary promises ----

  /** The stable sort puts first the first row with the largest average. */
  lemma BestIsFirstLargest(rows: seq<DimensionRow>) returns (j: nat)
    requires |rows| > 0
    ensures j < |rows| && Best(rows) == Named(rows[j].dimension.Label(), rows[j].current)
    ensures forall k :: 0 <= k < |rows| ==> rows[k].current <= rows[j].current
    ensures forall k :: 0 <= k < j ==> rows[k].current < rows[j].current
  {
    j := SortDescHead(rows, CurrentOf);
  }

  /** ... and last the last row with the smallest average. */
  lemma LowestIsLastSmallest(rows: seq<DimensionRow>) returns (j: nat)
    requires |rows| > 0
    ensures j < |rows| && Lowest(rows) == Named(rows[j].dimension.Label(), rows[j].current)
    ensures forall k :: 0 <= k < |rows| ==> rows[j].current <= rows[k].current
    ensures forall k :: j < k < |rows| ==> rows[j].current < rows[k].current
  {
    j := SortDescLast(rows, CurrentOf);
  }

  /**
   * `bestDimension` is the first dimension, in table order, whose average is
   * the largest; `lowestDimension` the last one whose average is the smallest.
   */
  lemma SummaryBestAndLowest(previous: real, total: nat, acc: Acc, qd: seq<QuestionRow>)
    ensures var r := Summarise(previous, total, acc, qd);
      exists j :: 0 <= j < |Dimensions| &&
        r.bestDimension == Named(Dimensions[j].Label(), r.dimensionsData[j].current) &&
        (forall k :: 0 <= k < |Dimensions| ==> r.dimensionsData[k].current <= r.dimensionsData[j].current) &&
        (forall k :: 0 <= k < j ==> r.dimensionsData[k].current < r.dimensionsData[j].current)
    ensures var r := Summarise(previous, total, acc, qd);
      exists j :: 0 <= j < |Dimensions| &&
        r.lowestDimension == Named(Dimensions[j].Label(), r.dimensionsData[j].current) &&
        (forall k :: 0 <= k < |Dimensions| ==> r.dimensionsData[j].current <= r.dimensionsData[k].current) &&
        (forall k :: j < k < |Dimensions| ==> r.dimensionsData[j].current < r.dimensionsData[k].current)
  {
    var r := Summarise(previous, total, acc, qd);
    var rows := r.dimensionsData;
    assert |rows| == |Dimensions|;
    var b := BestIsFirstLargest(rows);
    var l := LowestIsLastSmallest(rows);
    assert rows[b].dimension == Dimensions[b] && rows[l].dimension == Dimensions[l];
  }

  /** The trend is positive, zero or negative as the index rose, stayed or fell. */
  lemma SummaryTrend(previous: real, total: nat, acc: Acc, qd: seq<QuestionRow>)
    ensures var r := Summarise(previous, total, acc, qd);
      (r.trend > 0.0 <==> r.overallIndex > previous) && (r.trend == 0.0 <==> r.overallIndex == previous) &&
      (r.trend < 0.0 <==> r.overallIndex < previous)
  {
  }

  /**
   * The average of each dimension comes from the scores of its questions,
   * concatenated in `questionsData` order, when any question row has that
   * dimension, and from the dimension's own list otherwise; the overall index
   * is the mean of the six averages.
   */
  lemma SummaryAverages(previous: real, total: nat, acc: Acc, qd: seq<QuestionRow>)
    ensures var r := Summarise(previous, total, acc, qd);
      |r.dimensionsData| == |Dimensions| && r.questionsData == qd && r.overallIndex * 6.0 == Sum(Currents(r.dimensionsData))
    ensures var r := Summarise(previous, total, acc, qd);
      forall i :: 0 <= i < |Dimensions| ==>
        r.dimensionsData[i].dimension == Dimensions[i] &&
        r.dimensionsData[i].previous == r.dimensionsData[i].current - 0.1 &&
        r.dimensionsData[i].current ==
          Mean(if HasDimension(qd, Some(Dimensions[i])) then ScoresOfQuestions(qd, acc.questionScores, Some(Dimensions[i]))
               else ScoresOf(acc.dimensionScores, Dimensions[i]))
  {
    var fromQ := FromQuestions(qd, acc.questionScores);
    var rows := DimensionRows(acc.dimensionScores, fromQ);
    assert Summarise(previous, total, acc, qd).dimensionsData == rows;
    forall i | 0 <= i < |Dimensions|
      ensures rows[i].current ==
          Mean(if HasDimension(qd, Some(Dimensions[i])) then ScoresOfQuestions(qd, acc.questionScores, Some(Dimensions[i]))
               else ScoresOf(acc.dimensionScores, Dimensions[i]))
    {
      CurrentFromQuestions(Dimensions[i], acc.dimensionScores, qd, acc.questionScores);
    }
  }

  lemma CurrentFromQuestions(d: Dimension, dims: map<Dimension, seq<real>>, qd: seq<QuestionRow>, qs: Assoc<string, seq<real>>)
    ensures CurrentFor(d, dims, FromQuestions(qd, qs)) ==
            Mean(if HasDimension(qd, Some(d)) then ScoresOfQuestions(qd, qs, Some(d)) else ScoresOf(dims, d))
  {
    FromQuestionsGroups(qd, qs, Some(d));
  }

  // ---- Bounds ----

  ghost predicate Within(s: seq<real>, lo: real, hi: real)
  {
    forall k :: 0 <= k < |s| ==> lo <= s[k] <= hi
  }

  /** Every score in the three objects of a pass lies in [lo, hi]. */
  ghost predicate AccWithin(acc: Acc, lo: real, hi: real)
  {
    (forall d :: Within(ScoresOf(acc.dimensionScores, d), lo, hi)) &&
    (forall e :: e in acc.questionScores ==> Within(e.1, lo, hi))
  }

  /** Every score a row's cells carry lies in [lo, hi]. */
  ghost predicate RowWithin(row: Row, lo: real, hi: real)
  {
    forall e :: e in row && ParseScore(e.1).Some? ==> lo <= ParseScore(e.1).value <= hi
  }

  lemma ListOfWithin(qs: Assoc<string, seq<real>>, id: string, lo: real, hi: real)
    requires forall e :: e in qs ==> Within(e.1, lo, hi)
    ensures Within(ListOf(qs, id), lo, hi)
  {
    if Lookup(qs, id).Some? {
      var i := LookupFound(qs, id);
      assert qs[i] in qs;
    }
  }

  lemma PushWithin(m: map<Dimension, seq<real>>, d: Dimension, score: real, m': map<Dimension, seq<real>>, lo: real, hi: real)
    requires forall e :: Within(ScoresOf(m, e), lo, hi)
    requires lo <= score <= hi && m' == m[d := ScoresOf(m, d) + [score]]
    ensures forall e :: Within(ScoresOf(m', e), lo, hi)
  {
    forall e ensures Within(ScoresOf(m', e), lo, hi) {
      assert Within(ScoresOf(m, e), lo, hi);
    }
  }

  lemma AppendWithin(qs: Assoc<string, seq<real>>, id: string, score: real, lo: real, hi: real)
    requires forall e :: e in qs ==> Within(e.1, lo, hi)
    requires lo <= score <= hi
    ensures forall e :: e in Assign(qs, id, ListOf(qs, id) + [score]) ==> Within(e.1, lo, hi)
  {
    ListOfWithin(qs, id, lo, hi);
    AssignEntries(qs, id, ListOf(qs, id) + [score]);
  }

  lemma AddCellWithin(acc: Acc, row: Row, h: string, route: Option<Dimension>, question: Option<QuestionInfo>,
                      sel: string, lo: real, hi: real)
    requires AccWithin(acc, lo, hi) && RowWithin(row, lo, hi)
    ensures AccWithin(AddCell(acc, Lookup(row, h), route, question, sel), lo, hi)
  {
    var cell := Lookup(row, h);
    if CellScore(cell).Some? && route.Some? && Selected(route.value, sel) {
      var i := LookupFound(row, h);
      assert row[i] in row;
      var score := CellScore(cell).value;
      assert lo <= score <= hi;
      var d := route.value;
      PushWithin(acc.dimensionScores, d, score, acc.dimensionScores[d := ScoresOf(acc.dimensionScores, d) + [score]], lo, hi);
      if question.Some? {
        AppendWithin(acc.questionScores, question.value.questionId, score, lo, hi);
      }
    }
  }

  lemma {:induction false} AddColumnsWithin(acc: Acc, row: Row, hs: seq<string>, sel: string, lo: real, hi: real)
    requires AccWithin(acc, lo, hi) && RowWithin(row, lo, hi)
    ensures AccWithin(AddColumns(acc, row, hs, sel), lo, hi)
    decreases |hs|
  {
    if hs != [] {
      var n := |hs| - 1;
      AddColumnsWithin(acc, row, hs[..n], sel, lo, hi);
      AddCellWithin(AddColumns(acc, row, hs[..n], sel), row, hs[n], RouteColumn(n, hs[n]), QuestionInfoAt(n), sel, lo, hi);
    }
  }

  /** When every cell score lies in [lo, hi], so does every score the pass collects. */
  lemma {:induction false} AccumulateWithin(rows: seq<Row>, setup: Setup, lo: real, hi: real)
    requires forall i :: 0 <= i < |rows| ==> RowWithin(rows[i], lo, hi)
    ensures AccWithin(Accumulate(rows, setup), lo, hi)
    decreases |rows|
  {
    if rows != [] {
      var n := |rows| - 1;
      AccumulateWithin(rows[..n], setup, lo, hi);
      var acc := AddGroup(Accumulate(rows[..n], setup), rows[n], setup);
      AddColumnsWithin(acc, rows[n], setup.headers, setup.selectedDimension, lo, hi);
    }
  }

  lemma {:induction false} QuestionScoresWithin(qd: seq<QuestionRow>, qs: Assoc<string, seq<real>>, key: Option<Dimension>,
                                                lo: real, hi: real)
    requires forall e :: e in qs ==> Within(e.1, lo, hi)
    ensures Within(ScoresOfQuestions(qd, qs, key), lo, hi)
    decreases |qd|
  {
    if qd != [] {
      var n := |qd| - 1;
      QuestionScoresWithin(qd[..n], qs, key, lo, hi);
      ListOfWithin(qs, qd[n].questionId, lo, hi);
    }
  }

  lemma MeanWithin(s: seq<real>, lo: real, hi: real)
    requires lo <= 0.0 <= hi && Within(s, lo, hi)
    ensures lo <= Mean(s) <= hi
  {
    if |s| > 0 {
      MeanBounds(s, lo, hi);
    }
  }

  /**
   * When every score lies in [lo, hi] (a range that holds the 0 of an empty
   * average), so do each question's score, each dimension's average, the
   * overall index and the best and lowest scores.
   */
  lemma SummaryWithin(previous: real, total: nat, acc: Acc, qd: seq<QuestionRow>, lo: real, hi: real)
    requires lo <= 0.0 <= hi && AccWithin(acc, lo, hi)
    ensures var r := Summarise(previous, total, acc, qd);
      lo <= r.overallIndex <= hi &&
      (forall i :: 0 <= i < |r.dimensionsData| ==> lo <= r.dimensionsData[i].current <= hi) &&
      lo <= r.bestDimension.score <= hi && lo <= r.lowestDimension.score <= hi
  {
    var r := Summarise(previous, total, acc, qd);
    var qs := acc.questionScores;
    SummaryAverages(previous, total, acc, qd);
    forall i | 0 <= i < |Dimensions| ensures lo <= r.dimensionsData[i].current <= hi {
      var d := Dimensions[i];
      if HasDimension(qd, Some(d)) {
        QuestionScoresWithin(qd, qs, Some(d), lo, hi);
        MeanWithin(ScoresOfQuestions(qd, qs, Some(d)), lo, hi);
      } else {
        MeanWithin(ScoresOf(acc.dimensionScores, d), lo, hi);
      }
    }
    MeanWithin(Currents(r.dimensionsData), lo, hi);
    SummaryBestAndLowest(previous, total, acc, qd);
  }

  /** When every question list lies in [lo, hi], so does every question's average. */
  lemma QuestionsDataWithin(qs: Assoc<string, seq<real>>, lo: real, hi: real)
    requires lo <= 0.0 <= hi && forall e :: e in qs ==> Within(e.1, lo, hi)
    ensures forall i :: 0 <= i < |QuestionsData(qs)| ==> lo <= QuestionsData(qs)[i].score <= hi
  {
    var qd := QuestionsData(qs);
    QuestionsDataOrdered(qs);
    forall i | 0 <= i < |qd| ensures lo <= qd[i].score <= hi {
      assert qd[i] in multiset(qd);
      var k := RowOfEntry(qs, qd[i]);
      assert qs[k] in qs;
      MeanWithin(qs[k].1, lo, hi);
    }
  }

  // ---- The whole of `processRawData` ----

  /** The group counts of the dashboard are those of the pass over the rows. */
  lemma DashboardGroups(previous: real, rows: seq<Row>, sel: string, groupHeader: string, headers: seq<string>,
                        showNumber: real -> string, key: string)
    requires rows != []
    ensures var setup := SetupFor(rows, sel, groupHeader, headers, showNumber);
      var r := DashboardOf(previous, rows, sel, groupHeader, headers, showNumber);
      CountOf(r.respondentGroups, key) == RowsWithKey(rows, setup, key) &&
      (key in Keys(r.respondentGroups) <==> RowsWithKey(rows, setup, key) > 0) &&
      TotalCount(r.respondentGroups) == CountedRows(rows, setup)
  {
    var setup := SetupFor(rows, sel, groupHeader, headers, showNumber);
    GroupCounts(rows, setup, key);
    GroupTotal(rows, setup);
  }

  /**
   * Every question row of the dashboard names a dimension (none is
   * 'Unknown'), and the rows come in dimension order, then question order.
   */
  lemma DashboardQuestions(previous: real, rows: seq<Row>, sel: string, groupHeader: string, headers: seq<string>,
                           showNumber: real -> string)
    requires rows != []
    ensures var r := DashboardOf(previous, rows, sel, groupHeader, headers, showNumber);
      (forall i :: 0 <= i < |r.questionsData| ==> r.questionsData[i].dimension.Some?) &&
      (forall i, j :: 0 <= i < j < |r.questionsData| ==> InOrder(r.questionsData[i], r.questionsData[j]))
  {
    var setup := SetupFor(rows, sel, groupHeader, headers, showNumber);
    var qs := Accumulate(rows, setup).questionScores;
    AccumulateKnownQuestions(rows, setup);
    QuestionsDataKnown(qs);
    QuestionsDataOrdered(qs);
  }

  /** Question rows built from lists of table questions all name a dimension. */
  lemma QuestionsDataKnown(qs: Assoc<string, seq<real>>)
    requires KnownQuestions(qs)
    ensures forall i :: 0 <= i < |QuestionsData(qs)| ==> QuestionsData(qs)[i].dimension.Some?
  {
    var qd := QuestionsData(qs);
    QuestionsDataOrdered(qs);
    forall i | 0 <= i < |qd| ensures qd[i].dimension.Some? {
      assert qd[i] in multiset(QuestionRows(qs));
      var k :| 0 <= k < |qs| && QuestionRows(qs)[k] == qd[i];
      assert DimensionOfQuestion(qs[k].0).Some?;
    }
  }

  /**
   * When every cell score of every row lies in [lo, hi] (a range holding 0,
   * as 1..7 Likert scores with their 0 for an empty average), so do the
   * overall index, every dimension average, the best and lowest scores and
   * every question's average.
   */
  lemma DashboardWithin(previous: real, rows: seq<Row>, sel: string, groupHeader: string, headers: seq<string>,
                        showNumber: real -> string, lo: real, hi: real)
    requires lo <= 0.0 <= hi
    requires forall i :: 0 <= i < |rows| ==> RowWithin(rows[i], lo, hi)
    ensures var r := DashboardOf(previous, rows, sel, groupHeader, headers, showNumber);
      lo <= r.overallIndex <= hi &&
      (forall i :: 0 <= i < |r.dimensionsData| ==> lo <= r.dimensionsData[i].current <= hi) &&
      lo <= r.bestDimension.score <= hi && lo <= r.lowestDimension.score <= hi &&
      (forall i :: 0 <= i < |r.questionsData| ==> lo <= r.questionsData[i].score <= hi)
  {
    if rows != [] {
      var setup := SetupFor(rows, sel, groupHeader, headers, showNumber);
      var acc := Accumulate(rows, setup);
      AccumulateWithin(rows, setup, lo, hi);
      SummaryWithin(previous, |rows|, acc, QuestionsData(acc.questionScores), lo, hi);
      QuestionsDataWithin(acc.questionScores, lo, hi);
    }
  }

  /**
   * The routing inside the `headers.forEach` callback: the column's question,
   * then its dimension from the column table, the header keywords or the
   * legacy ranges, the first that yields one.
   */
  method RouteOf(header: string, colIndex: nat) returns (dimensionName: Option<Dimension>, questionInfo: Option<QuestionInfo>)
    ensures dimensionName == RouteColumn(colIndex, header)
    ensures questionInfo == QuestionInfoAt(colIndex)
  {
    var column := IndexToExcelColumn(colIndex);
    questionInfo := QuestionOfColumn(column);
    dimensionName := if questionInfo.Some? then DimensionOfQuestion(questionInfo.value.questionId) else None;
    if dimensionName.None? {
      dimensionName := FindDimensionForHeader(header);
    }
    if dimensionName.None? {
      dimensionName := DimensionForColumn(colIndex);
    }
  }

  /**
   * The rest of the callback, for a routed column: skip a header the row
   * lacks or a cell without a score; push the score to a selected dimension
   * and to the column's question.
   */
  method PushScore(dimensionScores: map<Dimension, seq<real>>, questionScores: Assoc<string, seq<real>>,
                   ghost respondentGroups: Assoc<string, nat>, cell: Option<Cell>, dimensionName: Option<Dimension>,
                   questionInfo: Option<QuestionInfo>, selectedDimension: string)
    returns (dimensionScores': map<Dimension, seq<real>>, questionScores': Assoc<string, seq<real>>)
    ensures Acc(dimensionScores', questionScores', respondentGroups) ==
            AddCell(Acc(dimensionScores, questionScores, respondentGroups), cell, dimensionName, questionInfo, selectedDimension)
  {
    dimensionScores', questionScores' := dimensionScores, questionScores;
    if cell.None? {
      return;
    }
    var score := ParseScore(cell.value);
    if dimensionName.Some? && score.Some? {
      var d := dimensionName.value;
      if selectedDimension == "all" || d.Value() == selectedDimension {
        dimensionScores' := dimensionScores[d := ScoresOf(dimensionScores, d) + [score.value]];
        if questionInfo.Some? && questionInfo.value.questionId != [] {
          var id := questionInfo.value.questionId;
          questionScores' := Assign(questionScores, id, ListOf(questionScores, id) + [score.value]);
        }
      }
    }
  }

  /** The respondent-group step of a row: count its group when the column exists and the value is truthy. */
  method CountGroup(respondentGroups: Assoc<string, nat>, row: Row, setup: Setup) returns (groups: Assoc<string, nat>)
    ensures groups == Bump(respondentGroups, GroupKey(row, setup))
  {
    groups := respondentGroups;
    if setup.hasGroupColumn {
      var groupCell := Lookup(row, setup.groupHeader);
      if groupCell.Some? && Truthy(groupCell.value) {
        var group := CellText(groupCell, setup.showNumber);
        var count: nat := CountOf(groups, group) + 1;
        groups := Assign(groups, group, count);
      }
    }
  }

  /** `headers.forEach((header, colIndex) => ...)` for one row. */
  method ScoreRow(dimensionScores: map<Dimension, seq<real>>, questionScores: Assoc<string, seq<real>>,
                  ghost respondentGroups: Assoc<string, nat>, row: Row, headers: seq<string>, selectedDimension: string)
    returns (dimensionScores': map<Dimension, seq<real>>, questionScores': Assoc<string, seq<real>>)
    ensures Acc(dimensionScores', questionScores', respondentGroups) ==
            AddColumns(Acc(dimensionScores, questionScores, respondentGroups), row, headers, selectedDimension)
  {
    ghost var start := Acc(dimensionScores, questionScores, respondentGroups);
    dimensionScores', questionScores' := dimensionScores, questionScores;
    var j := 0;
    while j < |headers|
      invariant 0 <= j <= |headers|
      invariant Acc(dimensionScores', questionScores', respondentGroups) == AddColumns(start, row, headers[..j], selectedDimension)
    {
      var dimensionName, questionInfo := RouteOf(headers[j], j);
      dimensionScores', questionScores' :=
        PushScore(dimensionScores', questionScores', respondentGroups, Lookup(row, headers[j]), dimensionName, questionInfo,
                  selectedDimension);
      AddColumnsStep(start, row, headers, j, selectedDimension);
      j := j + 1;
    }
    assert headers[..j] == headers;
  }

  /** The `questionsData.forEach` that builds `dimensionScoresFromQuestions`. */
  method GroupByDimension(questionsData: seq<QuestionRow>, questionScores: Assoc<string, seq<real>>)
    returns (fromQuestions: map<Option<Dimension>, seq<real>>)
    ensures fromQuestions == FromQuestions(questionsData, questionScores)
  {
    fromQuestions := map[];
    var k := 0;
    while k < |questionsData|
      invariant 0 <= k <= |questionsData|
      invariant fromQuestions == FromQuestions(questionsData[..k], questionScores)
    {
      var question := questionsData[k];
      if question.dimension !in fromQuestions {
        fromQuestions := fromQuestions[question.dimension := []];
      }
      fromQuestions := fromQuestions[question.dimension :=
        fromQuestions[question.dimension] + ListOf(questionScores, question.questionId)];
      assert questionsData[..k + 1][..k] == questionsData[..k];
      k := k + 1;
    }
    assert questionsData[..k] == questionsData;
  }

  /** The part of `processRawData` after the pass: question rows, dimension rows, index, trend, best and lowest. */
  method SummariseScores(previousOverallIndex: real, total: nat, dimensionScores: map<Dimension, seq<real>>,
                         questionScores: Assoc<string, seq<real>>, respondentGroups: Assoc<string, nat>)
    returns (r: Dashboard)
    ensures r == Summarise(previousOverallIndex, total, Acc(dimensionScores, questionScores, respondentGroups),
                           QuestionsData(questionScores))
  {
    var questionsData := QuestionsData(questionScores);
    var fromQuestions := GroupByDimension(questionsData, questionScores);
    var dimensionsData := DimensionRows(dimensionScores, fromQuestions);
    var overallIndex := Mean(Currents(dimensionsData));
    r := Dashboard(overallIndex, (overallIndex - previousOverallIndex) * 100.0, Best(dimensionsData), Lowest(dimensionsData),
                   total, dimensionsData, respondentGroups, questionsData);
  }

  /** `processRawData`, step by step: the pass over rows and headers, then the summary. */
  method ProcessRawData(previousOverallIndex: real, dataRows: seq<Row>, selectedDimension: string,
                        respondentGroupColHeader: string, headers: seq<string>, showNumber: real -> string)
    returns (r: Dashboard)
    ensures r == DashboardOf(previousOverallIndex, dataRows, selectedDimension, respondentGroupColHeader, headers, showNumber)
  {
    if |dataRows| == 0 {
      return NoData;
    }
    var setup := SetupFor(dataRows, selectedDimension, respondentGroupColHeader, headers, showNumber);
    var dimensionScores := EmptyDimensionScores;
    var questionScores: Assoc<string, seq<real>> := [];
    var respondentGroups: Assoc<string, nat> := [];
    var i := 0;
    while i < |dataRows|
      invariant 0 <= i <= |dataRows|
      invariant Acc(dimensionScores, questionScores, respondentGroups) == Accumulate(dataRows[..i], setup)
    {
      var row := dataRows[i];
      respondentGroups := CountGroup(respondentGroups, row, setup);
      dimensionScores, questionScores :=
        ScoreRow(dimensionScores, questionScores, respondentGroups, row, headers, selectedDimension);
      AccumulateStep(dataRows, i, setup);
      i := i + 1;
    }
    assert dataRows[..i] == dataRows;

    r := SummariseScores(previousOverallIndex, |dataRows|, dimensionScores, questionScores, respondentGroups);
  }
}
