/**
 * The category breakdown chart (src/components/CategoryBreakdown.tsx): how
 * many dimensions are excellent (at least 5.5), good (from 4.5 below 5.5) or
 * need improvement (below 4.5), each count as a share of all dimensions, and
 * the tooltip that reports the count behind a bar.
 */
module CategoryBreakdown {
  import opened Base
  import opened Charts

  predicate IsExcellent(d: DimensionScore) { d.current >= 5.5 }

  predicate IsGood(d: DimensionScore) { d.current >= 4.5 && d.current < 5.5 }

  predicate NeedsImprovement(d: DimensionScore) { d.current < 4.5 }

  /** The three counts and the number of dimensions they are shares of. */
  datatype Distribution = Distribution(excellent: nat, good: nat, needsImprovement: nat, total: nat)

  /** The three `filter(...).length` counts and `data.length`. */
  function Distribute(data: seq<DimensionScore>): (r: Distribution)
    ensures r.excellent <= r.total && r.good <= r.total && r.needsImprovement <= r.total
    ensures r.total == |data|
  {
    Distribution(Count(data, IsExcellent), Count(data, IsGood), Count(data, NeedsImprovement), |data|)
  }

  /** Every dimension is counted in exactly one category. */
  lemma {:induction false} CategoriesPartition(data: seq<DimensionScore>)
    ensures var r := Distribute(data); r.excellent + r.good + r.needsImprovement == r.total
    decreases |data|
  {
    if data != [] {
      CategoriesPartition(data[..|data| - 1]);
    }
  }

  /** The three categories are the three performance bands of the bar charts. */
  lemma CategoriesAreBands(d: DimensionScore)
    ensures IsExcellent(d) <==> PerformanceOf(d.current) == Excellent
    ensures IsGood(d) <==> PerformanceOf(d.current) == Good
    ensures NeedsImprovement(d) <==> PerformanceOf(d.current) == NeedsAttention
  {
  }

  /**
   * `(count / total) * 100`; with no dimensions at all this is `0 / 0`, which
   * JavaScript evaluates to NaN: here no share.
   */
  function Share(count: nat, total: nat): (r: Option<real>)
    ensures r.None? <==> total == 0
    ensures total > 0 && count <= total ==> 0.0 <= r.value <= 100.0
    ensures total > 0 && count == total ==> r.value == 100.0
  {
    if total == 0 then None else Some(count as real / total as real * 100.0)
  }

  /** The three bars of the 100% stacked chart add up to the whole bar. */
  lemma SharesSumToHundred(data: seq<DimensionScore>)
    requires |data| > 0
    ensures var r := Distribute(data);
      Share(r.excellent, r.total).value + Share(r.good, r.total).value
      + Share(r.needsImprovement, r.total).value == 100.0
  {
    var r := Distribute(data);
    CategoriesPartition(data);
    var t := r.total as real;
    var e, g, n := r.excellent as real, r.good as real, r.needsImprovement as real;
    assert e / t + g / t + n / t == (e + g + n) / t;
    assert (e + g + n) / t == 1.0;
  }

  /** The dataset labels the tooltip compares against. */
  const ExcellentLabel: string := "Excellent (\U{2265}5.5)"
  const GoodLabel: string := "Good (4.5-5.4)"
  const NeedsImprovementLabel: string := "Needs Improvement (<4.5)"

  /** One bar of the stacked chart: its dataset `label` (here `legend`) and its share. */
  datatype Dataset = Dataset(legend: string, share: Option<real>)

  /** The chart's three datasets, in stacking order. */
  function Datasets(r: Distribution): (ds: seq<Dataset>)
    ensures |ds| == 3
  {
    [Dataset(ExcellentLabel, Share(r.excellent, r.total)),
     Dataset(GoodLabel, Share(r.good, r.total)),
     Dataset(NeedsImprovementLabel, Share(r.needsImprovement, r.total))]
  }

  /** The tooltip's count: chosen by dataset label, any other label falling through to the last category. */
  function TooltipCount(datasetLabel: string, r: Distribution): (n: nat)
    ensures datasetLabel != ExcellentLabel && datasetLabel != GoodLabel ==> n == r.needsImprovement
  {
    if datasetLabel == ExcellentLabel then r.excellent
    else if datasetLabel == GoodLabel then r.good
    else r.needsImprovement
  }

  /** Hovering a bar reports the count that bar's share was computed from. */
  lemma TooltipMatchesBar(r: Distribution, i: nat)
    requires i < 3
    ensures var d := Datasets(r)[i];
      d.share == Share(TooltipCount(d.legend, r), r.total)
  {
    assert ExcellentLabel[0] != GoodLabel[0];
    assert ExcellentLabel[0] != NeedsImprovementLabel[0];
    assert GoodLabel[0] != NeedsImprovementLabel[0];
  }
}
