/**
 * The question breakdown scorecard (src/components/QuestionBreakdown.tsx):
 * the questions grouped by dimension in input order, each dimension's average,
 * the dimensions ordered by their first question's number, the code and full
 * name shown for a dimension, each question's description and colours, and
 * the row of a group that carries the group's average.
 */
module Scorecard {
  import opened Base
  import opened SeqUtil
  import opened Text
  import opened Dict
  import ChatText

  /** One entry of the `data` prop. */
  datatype QuestionData = QuestionData(questionId: string, questionNumber: int, dimension: string, score: real, count: nat)

  // ---- Grouping by dimension ----

  /** `dimensionGroups[k] || []`: the questions collected so far under `k`. */
  function GroupOf(groups: Assoc<string, seq<QuestionData>>, k: string): seq<QuestionData>
  {
    match Lookup(groups, k)
    case Some(qs) => qs
    case None => []
  }

  /** The questions of dimension `k`, in input order. */
  function OfDimension(data: seq<QuestionData>, k: string): (r: seq<QuestionData>)
    ensures |r| <= |data|
  {
    if data == [] then []
    else OfDimension(data[..|data| - 1], k) + (if data[|data| - 1].dimension == k then [data[|data| - 1]] else [])
  }

  /** What the `forEach` leaves in `dimensionGroups`: each question pushed onto its dimension's list. */
  function Grouped(data: seq<QuestionData>): Assoc<string, seq<QuestionData>>
  {
    if data == [] then []
    else
      var groups := Grouped(data[..|data| - 1]);
      var q := data[|data| - 1];
      Assign(groups, q.dimension, GroupOf(groups, q.dimension) + [q])
  }

  /** Assigning a key twice leaves the second value, in the key's first place. */
  lemma {:induction false} AssignTwice<K, V>(d: Assoc<K, V>, k: K, v: V, w: V)
    ensures Assign(Assign(d, k, v), k, w) == Assign(d, k, w)
    decreases |d|
  {
    if d != [] && d[0].0 != k {
      AssignTwice(d[1..], k, v, w);
    }
  }

  /** The `forEach` over `data` that builds `dimensionGroups`. */
  method GroupByDimension(data: seq<QuestionData>) returns (dimensionGroups: Assoc<string, seq<QuestionData>>)
    ensures dimensionGroups == Grouped(data)
  {
    dimensionGroups := [];
    var i := 0;
    while i < |data|
      invariant 0 <= i <= |data|
      invariant dimensionGroups == Grouped(data[..i])
    {
      var question := data[i];
      ghost var before := dimensionGroups;
      assert data[..i + 1][..i] == data[..i] && data[..i + 1][i] == question;
      assert Grouped(data[..i + 1]) == Assign(before, question.dimension, GroupOf(before, question.dimension) + [question]);
      if Lookup(dimensionGroups, question.dimension).None? {
        AssignTwice(before, question.dimension, [], [question]);
        dimensionGroups := Assign(dimensionGroups, question.dimension, []);
        AssignLookup(before, question.dimension, []);
        assert GroupOf(before, question.dimension) + [question] == [] + [question] == [question];
      }
      dimensionGroups := Assign(dimensionGroups, question.dimension, GroupOf(dimensionGroups, question.dimension) + [question]);
      i := i + 1;
    }
    assert data[..|data|] == data;
  }

  /**
   * Every dimension of the data has a group, holding exactly its questions in
   * input order; no other key appears and no key twice.
   */
  lemma {:induction false} GroupedContents(data: seq<QuestionData>)
    ensures DistinctKeys(Grouped(data))
    ensures forall k :: GroupOf(Grouped(data), k) == OfDimension(data, k)
    ensures forall k :: k in Keys(Grouped(data)) <==> OfDimension(data, k) != []
    decreases |data|
  {
    if data != [] {
      var prefix := data[..|data| - 1];
      var groups := Grouped(prefix);
      var q := data[|data| - 1];
      GroupedContents(prefix);
      AssignDistinct(groups, q.dimension, GroupOf(groups, q.dimension) + [q]);
      AssignLookup(groups, q.dimension, GroupOf(groups, q.dimension) + [q]);
      forall k ensures GroupOf(Grouped(data), k) == OfDimension(data, k) {
        if k != q.dimension {
          AssignOther(groups, q.dimension, GroupOf(groups, q.dimension) + [q], k);
        }
      }
    }
  }

  /** The number of questions over all groups. */
  function TotalSize(groups: Assoc<string, seq<QuestionData>>): nat
  {
    if groups == [] then 0 else |groups[0].1| + TotalSize(groups[1..])
  }

  lemma {:induction false} AssignSize(d: Assoc<string, seq<QuestionData>>, k: string, v: seq<QuestionData>)
    ensures TotalSize(Assign(d, k, v)) + |GroupOf(d, k)| == TotalSize(d) + |v|
    decreases |d|
  {
    if d != [] {
      KeysCons(d[0], d[1..]);
      assert d == [d[0]] + d[1..];
      if d[0].0 != k {
        AssignSize(d[1..], k, v);
        assert Assign(d, k, v)[1..] == Assign(d[1..], k, v);
      }
    }
  }

  /** Grouping neither loses nor repeats a question: the group sizes add up to the number of questions. */
  lemma {:induction false} GroupSizesSum(data: seq<QuestionData>)
    ensures TotalSize(Grouped(data)) == |data|
    decreases |data|
  {
    if data != [] {
      var prefix := data[..|data| - 1];
      var q := data[|data| - 1];
      GroupSizesSum(prefix);
      AssignSize(Grouped(prefix), q.dimension, GroupOf(Grouped(prefix), q.dimension) + [q]);
    }
  }

  // ---- Averages ----

  function Scores(questions: seq<QuestionData>): (r: seq<real>)
    ensures |r| == |questions|
    ensures forall i :: 0 <= i < |r| ==> r[i] == questions[i].score
  {
    seq(|questions|, i requires 0 <= i < |questions| => questions[i].score)
  }

  /** `dimensionAverages`: every group's key with `totalScore / questions.length`. */
  function Averages(groups: Assoc<string, seq<QuestionData>>): (r: Assoc<string, real>)
    ensures |r| == |groups|
  {
    if groups == [] then []
    else Averages(groups[..|groups| - 1]) + [(groups[|groups| - 1].0, Mean(Scores(groups[|groups| - 1].1)))]
  }

  lemma {:induction false} AveragesKeys(groups: Assoc<string, seq<QuestionData>>)
    ensures Keys(Averages(groups)) == Keys(groups)
    decreases |groups|
  {
    if groups != [] {
      var n := |groups|;
      AveragesKeys(groups[..n - 1]);
      KeysAt(Averages(groups));
      KeysAt(groups);
      KeysAt(groups[..n - 1]);
      KeysAt(Averages(groups[..n - 1]));
      assert Averages(groups)[..n - 1] == Averages(groups[..n - 1]);
    }
  }

  /** Assigning a key not yet present appends it. */
  lemma {:induction false} AssignNew<K, V>(d: Assoc<K, V>, k: K, v: V)
    requires k !in Keys(d)
    ensures Assign(d, k, v) == d + [(k, v)]
    decreases |d|
  {
    if d != [] {
      KeysCons(d[0], d[1..]);
      assert d == [d[0]] + d[1..];
      AssignNew(d[1..], k, v);
    }
  }

  /** The `forEach` over `Object.keys(dimensionGroups)` that fills `dimensionAverages`. */
  method AverageByDimension(dimensionGroups: Assoc<string, seq<QuestionData>>) returns (dimensionAverages: Assoc<string, real>)
    requires DistinctKeys(dimensionGroups)
    ensures dimensionAverages == Averages(dimensionGroups)
  {
    dimensionAverages := [];
    var i := 0;
    while i < |dimensionGroups|
      invariant 0 <= i <= |dimensionGroups|
      invariant dimensionAverages == Averages(dimensionGroups[..i])
    {
      var dimension := dimensionGroups[i].0;
      var questions := dimensionGroups[i].1;
      var totalScore := Sum(Scores(questions));
      assert dimensionGroups[..i + 1][..i] == dimensionGroups[..i];
      AveragesKeys(dimensionGroups[..i]);
      KeysAt(dimensionGroups[..i]);
      assert dimension !in Keys(dimensionGroups[..i]) by {
        forall j | 0 <= j < i ensures Keys(dimensionGroups[..i])[j] != dimension {
          assert Keys(dimensionGroups[..i])[j] == dimensionGroups[j].0;
        }
      }
      AssignNew(dimensionAverages, dimension, Mean(Scores(questions)));
      dimensionAverages := Assign(dimensionAverages, dimension, if |questions| > 0 then totalScore / |questions| as real else 0.0);
      i := i + 1;
    }
    assert dimensionGroups[..|dimensionGroups|] == dimensionGroups;
  }

  /** A dimension's average lies within the range of its questions' scores. */
  lemma AverageWithin(groups: Assoc<string, seq<QuestionData>>, i: nat, lo: real, hi: real)
    requires i < |groups| && |groups[i].1| > 0
    requires forall j :: 0 <= j < |groups[i].1| ==> lo <= groups[i].1[j].score <= hi
    ensures Averages(groups)[i].0 == groups[i].0
    ensures lo <= Averages(groups)[i].1 <= hi
  {
    AveragesAt(groups, i);
    MeanBounds(Scores(groups[i].1), lo, hi);
  }

  lemma {:induction false} AveragesAt(groups: Assoc<string, seq<QuestionData>>, i: nat)
    requires i < |groups|
    ensures Averages(groups)[i] == (groups[i].0, Mean(Scores(groups[i].1)))
    decreases |groups|
  {
    if i < |groups| - 1 {
      AveragesAt(groups[..|groups| - 1], i);
    }
  }

  // ---- Ordering of the dimensions ----

  /** The number of a group's first question (0 for a missing group, which never occurs). */
  function FirstNumber(groups: Assoc<string, seq<QuestionData>>, k: string): int
  {
    var qs := GroupOf(groups, k);
    if qs == [] then 0 else qs[0].questionNumber
  }

  /** `Object.keys(dimensionGroups).sort((a, b) => first(a).questionNumber - first(b).questionNumber)`. */
  function SortedDimensions(groups: Assoc<string, seq<QuestionData>>): (r: seq<string>)
    ensures |r| == |groups|
  {
    SortDesc(Keys(groups), (k: string) => -(FirstNumber(groups, k) as real))
  }

  /**
   * The dimensions are listed by ascending number of their first question,
   * each exactly once, and dimensions whose first questions share a number
   * keep their order of first appearance.
   */
  lemma SortedDimensionsOrdered(groups: Assoc<string, seq<QuestionData>>)
    ensures multiset(SortedDimensions(groups)) == multiset(Keys(groups))
    ensures forall i, j :: 0 <= i < j < |groups| ==>
              FirstNumber(groups, SortedDimensions(groups)[i]) <= FirstNumber(groups, SortedDimensions(groups)[j])
    ensures var key := (k: string) => -(FirstNumber(groups, k) as real);
      forall v :: WithKey(SortedDimensions(groups), key, v) == WithKey(Keys(groups), key, v)
  {
    var key := (k: string) => -(FirstNumber(groups, k) as real);
    SortDescFacts(Keys(groups), key);
    var r := SortedDimensions(groups);
    forall i, j | 0 <= i < j < |groups| ensures FirstNumber(groups, r[i]) <= FirstNumber(groups, r[j]) {
      assert key(r[i]) >= key(r[j]);
    }
  }

  /** A dimension's first question is the first question of the data in that dimension. */
  lemma FirstQuestion(data: seq<QuestionData>, k: string)
    requires OfDimension(data, k) != []
    ensures FirstNumber(Grouped(data), k) == OfDimension(data, k)[0].questionNumber
  {
    GroupedContents(data);
  }

  // ---- What each dimension and question shows ----

  /** An entry of `DIMENSION_INFO`: the code and the full name shown for a dimension. */
  datatype DimensionInfo = DimensionInfo(code: string, fullName: string)

  /** `DIMENSION_INFO[dimension] || { code: dimension.substring(0, 2).toUpperCase(), fullName: dimension }`. */
  function InfoOf(dimension: string): (r: DimensionInfo)
    ensures |r.code| <= 2 && (|dimension| >= 2 ==> |r.code| == 2)
  {
    if dimension == "Trainee Orientation" then DimensionInfo("TO", "Trainee Orientation")
    else if dimension == "Performance Orientation" then DimensionInfo("PO", "Performance Management")
    else if dimension == "Competitor Orientation" then DimensionInfo("CO", "Competitive Orientation")
    else if dimension == "Long-term Focus" then DimensionInfo("LO", "Long-Term Orientation")
    else if dimension == "Inter-functional Coordination" then DimensionInfo("IO", "Internal Organization")
    else if dimension == "Employee Orientation" then DimensionInfo("EO", "Employee Orientation")
    else DimensionInfo(Upper(dimension[..if |dimension| < 2 then |dimension| else 2]), dimension)
  }

  /** A dimension outside the table is shown under its own name, coded by its first two characters upper-cased. */
  lemma UnknownDimensionInfo(dimension: string)
    requires dimension !in {"Trainee Orientation", "Performance Orientation", "Competitor Orientation",
                            "Long-term Focus", "Inter-functional Coordination", "Employee Orientation"}
    ensures InfoOf(dimension).fullName == dimension
    ensures |dimension| >= 2 ==> InfoOf(dimension).code == Upper(dimension[..2])
  {
  }

  /** `QUESTION_DESCRIPTIONS[id] || \`Question ${id}\``, the table given as `descriptions`. */
  function DescriptionOf(descriptions: map<string, string>, questionId: string): (r: string)
    ensures questionId in descriptions && descriptions[questionId] != [] ==> r == descriptions[questionId]
    ensures questionId !in descriptions ==> r == "Question " + questionId
  {
    if questionId in descriptions && descriptions[questionId] != [] then descriptions[questionId]
    else "Question " + questionId
  }

  /** The first colour whose two-letter prefix starts `qid`, or the fallback (`getStatementColor`, `getScoreBg`, `idBg`). */
  function PrefixColor(qid: string, table: seq<(string, string)>, fallback: string): (r: string)
  {
    if table == [] then fallback
    else if StartsWith(qid, table[0].0) then table[0].1
    else PrefixColor(qid, table[1..], fallback)
  }

  /** A colour from the table is that of the first prefix `qid` starts with; without one, the fallback. */
  lemma {:induction false} PrefixColorFirst(qid: string, table: seq<(string, string)>, fallback: string) returns (i: int)
    ensures -1 <= i < |table|
    ensures i == -1 ==> (PrefixColor(qid, table, fallback) == fallback
                         && forall j :: 0 <= j < |table| ==> !StartsWith(qid, table[j].0))
    ensures i >= 0 ==> (PrefixColor(qid, table, fallback) == table[i].1 && StartsWith(qid, table[i].0)
                        && forall j :: 0 <= j < i ==> !StartsWith(qid, table[j].0))
    decreases |table|
  {
    if table == [] {
      i := -1;
    } else if StartsWith(qid, table[0].0) {
      i := 0;
    } else {
      var i' := PrefixColorFirst(qid, table[1..], fallback);
      i := if i' == -1 then -1 else i' + 1;
    }
  }

  /** With two-letter prefixes only the first two characters of an id decide its colour. */
  lemma {:induction false} PrefixColorTwoChars(qid: string, table: seq<(string, string)>, fallback: string)
    requires |qid| >= 2
    requires forall j :: 0 <= j < |table| ==> |table[j].0| == 2
    ensures PrefixColor(qid, table, fallback) == PrefixColor(qid[..2], table, fallback)
    decreases |table|
  {
    if table != [] {
      assert qid[..2][..2] == qid[..2];
      PrefixColorTwoChars(qid, table[1..], fallback);
    }
  }

  const StatementColors: seq<(string, string)> := [
    ("TO", "rgb(255, 255, 255)"), ("PO", "rgb(255, 153, 255)"), ("CO", "rgb(255, 192, 0)"),
    ("LO", "rgb(155, 194, 230)"), ("IO", "rgb(146, 209, 80)"), ("EO", "rgb(248, 203, 173)")]

  const ScoreBackgrounds: seq<(string, string)> := [
    ("TO", "rgb(255, 242, 204)"), ("PO", "rgb(243, 163, 228)"), ("CO", "rgb(255, 230, 153)"),
    ("LO", "rgb(204, 204, 255)"), ("IO", "rgb(198, 224, 180)"), ("EO", "rgb(248, 203, 173)")]

  const IdBackgrounds: seq<(string, string)> := [
    ("TO", "rgb(255, 242, 204)"), ("PO", "rgb(198, 224, 180)"), ("CO", "rgb(248, 203, 173)"),
    ("LO", "rgb(221, 235, 247)"), ("IO", "rgb(198, 224, 180)"), ("EO", "rgb(252, 228, 214)")]

  const Pastel: seq<string> := ["#ffd6a5", "#fdffb6", "#caffbf", "#9bf6ff", "#a0c4ff", "#bdb2ff",
                                "#ffc6ff", "#f1f2f6", "#f8d7da", "#d1e7dd", "#cff4fc"]

  /** One row of a dimension's table: id, description, score and, on the last row only, the dimension's average. */
  datatype ScoreRow = ScoreRow(questionId: string, description: string, score: real, average: Option<real>,
                               idColor: string, statementColor: string, scoreColor: string)

  /** The rows of one dimension's table. */
  function RowsOf(descriptions: map<string, string>, questions: seq<QuestionData>, average: real): (r: seq<ScoreRow>)
    ensures |r| == |questions|
    ensures forall i :: 0 <= i < |r| ==> r[i].questionId == questions[i].questionId && r[i].score == questions[i].score
    ensures forall i :: 0 <= i < |r| ==> (r[i].average.Some? <==> i == |r| - 1)
    ensures |r| > 0 ==> r[|r| - 1].average == Some(average)
  {
    seq(|questions|, i requires 0 <= i < |questions| =>
      var q := questions[i];
      ScoreRow(q.questionId, DescriptionOf(descriptions, q.questionId), q.score,
               if i == |questions| - 1 then Some(average) else None,
               PrefixColor(q.questionId, IdBackgrounds, Pastel[i % |Pastel|]),
               PrefixColor(q.questionId, StatementColors, "#ffffff"),
               PrefixColor(q.questionId, ScoreBackgrounds, "#ffffff")))
  }

  /** One dimension's section of the scorecard. */
  datatype Section = Section(dimension: string, info: DimensionInfo, rows: seq<ScoreRow>, average: real)

  /** The scorecard's header figures and its sections, in display order. */
  datatype Card = Card(titlePdk: string, percentage: real, sections: seq<Section>)

  /** `pdk !== 'all' && pdk !== 'All PDKs' ? pdk : 'All PDKs'`. */
  function TitlePdk(pdk: string): (r: string)
    ensures r == "All PDKs" || r == pdk
    ensures pdk == "all" ==> r == "All PDKs"
  {
    if pdk != "all" && pdk != "All PDKs" then pdk else "All PDKs"
  }

  /** The section of dimension `k`: its code and name, its rows, and its average on the last row. */
  function SectionOf(descriptions: map<string, string>, groups: Assoc<string, seq<QuestionData>>, k: string): (r: Section)
    ensures r.dimension == k && r.average == Mean(Scores(GroupOf(groups, k)))
    ensures |r.rows| == |GroupOf(groups, k)|
    ensures forall j :: 0 <= j < |r.rows| ==> r.rows[j].questionId == GroupOf(groups, k)[j].questionId
  {
    var avg := Mean(Scores(GroupOf(groups, k)));
    Section(k, InfoOf(k), RowsOf(descriptions, GroupOf(groups, k), avg), avg)
  }

  /** `sortedDimensions.map(...)`: one section per dimension, in display order. */
  function Sections(descriptions: map<string, string>, groups: Assoc<string, seq<QuestionData>>, order: seq<string>): (r: seq<Section>)
    ensures |r| == |order|
    ensures forall i :: 0 <= i < |order| ==> r[i] == SectionOf(descriptions, groups, order[i])
  {
    seq(|order|, i requires 0 <= i < |order| => SectionOf(descriptions, groups, order[i]))
  }

  /** The component: the empty-state message (`None`) without data, otherwise the scorecard. */
  function ScorecardOf(descriptions: map<string, string>, data: seq<QuestionData>, pdk: string, overallIndex: real): (r: Option<Card>)
    ensures r.None? <==> data == []
  {
    if data == [] then None
    else
      var groups := Grouped(data);
      Some(Card(TitlePdk(pdk), ChatText.ScoreToPercentage(overallIndex),
                Sections(descriptions, groups, SortedDimensions(groups))))
  }

  /** Every question of the data has a section: the one of its own dimension. */
  lemma ScorecardCoversData(descriptions: map<string, string>, data: seq<QuestionData>, pdk: string, overallIndex: real, i: nat)
    requires i < |data|
    ensures var c := ScorecardOf(descriptions, data, pdk, overallIndex).value;
      exists s :: 0 <= s < |c.sections| && c.sections[s].dimension == data[i].dimension
  {
    var groups := Grouped(data);
    var order := SortedDimensions(groups);
    var c := ScorecardOf(descriptions, data, pdk, overallIndex).value;
    GroupedContents(data);
    SortedDimensionsOrdered(groups);
    OfDimensionHas(data, i);
    assert data[i].dimension in multiset(order);
    var s :| 0 <= s < |order| && order[s] == data[i].dimension;
    assert c.sections[s].dimension == data[i].dimension;
  }

  /**
   * A section lists exactly the questions of its dimension, in input order,
   * at least one, with their mean as the section's average.
   */
  lemma ScorecardSection(descriptions: map<string, string>, data: seq<QuestionData>, pdk: string, overallIndex: real, s: nat)
    requires data != []
    requires s < |ScorecardOf(descriptions, data, pdk, overallIndex).value.sections|
    ensures var sec := ScorecardOf(descriptions, data, pdk, overallIndex).value.sections[s];
      && |sec.rows| == |OfDimension(data, sec.dimension)| > 0
      && (forall j :: 0 <= j < |sec.rows| ==> sec.rows[j].questionId == OfDimension(data, sec.dimension)[j].questionId)
      && sec.average == Mean(Scores(OfDimension(data, sec.dimension)))
  {
    var groups := Grouped(data);
    var order := SortedDimensions(groups);
    GroupedContents(data);
    SortedDimensionsOrdered(groups);
    assert order[s] in multiset(Keys(groups));
  }

  /** A question belongs to the questions of its own dimension. */
  lemma {:induction false} OfDimensionHas(data: seq<QuestionData>, i: nat)
    requires i < |data|
    ensures OfDimension(data, data[i].dimension) != []
    decreases |data|
  {
    if i < |data| - 1 {
      assert data[..|data| - 1][i] == data[i];
      OfDimensionHas(data[..|data| - 1], i);
    }
  }
}
