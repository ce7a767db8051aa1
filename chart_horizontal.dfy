/**
 * The horizontal bar chart (src/components/HorizontalBar.tsx): every
 * dimension becomes a bar coloured by its position in the input, the bars are
 * sorted by score, highest first, the first three become summary cards, and
 * each score is labelled and coloured by its performance band.
 */
module HorizontalBar {
  import opened SeqUtil
  import opened Charts

  /** One bar: the dimension's label, its score and its palette colour. */
  datatype Bar = Bar(name: string, score: real, color: string)

  function Score(b: Bar): real
  {
    b.score
  }

  /** The six-colour palette, indexed by input position modulo 6. */
  const Palette: seq<string> := ["#10B981", "#3B82F6", "#F59E0B", "#EF4444", "#8B5CF6", "#06B6D4"]

  /** `data.map((item, index) => ({ name, score, color: palette[index % 6] }))`. */
  function ToBars(data: seq<DimensionScore>): (bars: seq<Bar>)
    ensures |bars| == |data|
    ensures forall i :: 0 <= i < |data| ==> bars[i] == Bar(data[i].name, data[i].current, Palette[i % 6])
  {
    seq(|data|, i requires 0 <= i < |data| => Bar(data[i].name, data[i].current, Palette[i % 6]))
  }

  /** `dimensionData`: the bars sorted by `b.score - a.score`. */
  function DimensionBars(data: seq<DimensionScore>): (r: seq<Bar>)
    ensures |r| == |data|
  {
    SortDesc(ToBars(data), Score)
  }

  /**
   * The chart's bars are the input's bars, each keeping the colour of its input
   * position, ordered highest first, equal scores in input order.
   */
  lemma DimensionBarsOrdered(data: seq<DimensionScore>)
    ensures multiset(DimensionBars(data)) == multiset(ToBars(data))
    ensures SortedDesc(DimensionBars(data), Score)
    ensures forall v :: WithKey(DimensionBars(data), Score, v) == WithKey(ToBars(data), Score, v)
    ensures forall j :: 0 <= j < |data| ==>
              exists i :: 0 <= i < |data| && DimensionBars(data)[j] == Bar(data[i].name, data[i].current, Palette[i % 6])
  {
    SortDescFacts(ToBars(data), Score);
    var r := DimensionBars(data);
    forall j | 0 <= j < |data|
      ensures exists i :: 0 <= i < |data| && r[j] == Bar(data[i].name, data[i].current, Palette[i % 6])
    {
      assert r[j] in multiset(ToBars(data));
      var i :| 0 <= i < |data| && ToBars(data)[i] == r[j];
    }
  }

  /** `dimensionData.slice(0, 3)`: the summary cards #1 to #3. */
  function SummaryCards(data: seq<DimensionScore>): (r: seq<Bar>)
    ensures |r| == if |data| < 3 then |data| else 3
  {
    DimensionBars(data)[..if |data| < 3 then |data| else 3]
  }

  /** Card #1 is the first dimension of the input with the highest score, in its own colour. */
  lemma FirstCardIsBest(data: seq<DimensionScore>) returns (j: nat)
    requires |data| > 0
    ensures j < |data| && SummaryCards(data)[0] == Bar(data[j].name, data[j].current, Palette[j % 6])
    ensures forall k :: 0 <= k < |data| ==> data[k].current <= data[j].current
    ensures forall k :: 0 <= k < j ==> data[k].current < data[j].current
  {
    j := SortDescHead(ToBars(data), Score);
    assert forall k :: 0 <= k < |data| ==> Score(ToBars(data)[k]) == data[k].current;
  }

  /** `getPerformanceColor`: the text colour of a score. */
  function PerformanceColor(score: real): string
  {
    if score >= 5.5 then "text-green-600"
    else if score >= 4.5 then "text-amber-600"
    else "text-red-600"
  }

  /** The colour and the label of a card always name the same band. */
  lemma ColorMatchesLabel(score: real)
    ensures PerformanceColor(score) == "text-green-600" <==> PerformanceOf(score) == Excellent
    ensures PerformanceColor(score) == "text-amber-600" <==> PerformanceOf(score) == Good
    ensures PerformanceColor(score) == "text-red-600" <==> PerformanceOf(score) == NeedsAttention
  {
  }
}
