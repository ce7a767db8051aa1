/**
 * The funnel chart (src/components/FunnelChart.tsx): the dimensions sorted by
 * score, highest first, and the chart's six rows, the three highest followed
 * by the three lowest, lowest first.
 */
module Funnel {
  import opened SeqUtil
  import opened Charts

  /** How many rows each half of the funnel holds: three, or all of a shorter list. */
  function Shown(n: nat): (k: nat)
    ensures k <= n && k <= 3
    ensures n >= 3 ==> k == 3
  {
    if n < 3 then n else 3
  }

  /** `[...data].sort((a, b) => b.current - a.current)`. */
  function SortedData(data: seq<DimensionScore>): (r: seq<DimensionScore>)
    ensures |r| == |data|
  {
    SortDesc(data, Current)
  }

  /** `sortedData.slice(0, 3)`. */
  function Top3(data: seq<DimensionScore>): (r: seq<DimensionScore>)
    ensures |r| == Shown(|data|)
  {
    SortedData(data)[..Shown(|data|)]
  }

  /** `sortedData.slice(-3).reverse()`: the last three, the lowest first. */
  function Bottom3(data: seq<DimensionScore>): (r: seq<DimensionScore>)
    ensures |r| == Shown(|data|)
  {
    Reverse(SortedData(data)[|data| - Shown(|data|)..])
  }

  /** `[...top3, ...bottom3]`: two rows per shown dimension slot. */
  function DisplayData(data: seq<DimensionScore>): (r: seq<DimensionScore>)
    ensures |r| == 2 * Shown(|data|)
  {
    Top3(data) + Bottom3(data)
  }

  /** The bottom half read back into positions of the sorted list. */
  lemma Bottom3At(data: seq<DimensionScore>, k: nat)
    requires k < Shown(|data|)
    ensures Bottom3(data)[k] == SortedData(data)[|data| - 1 - k]
  {
  }

  /** Every entry of the data has a position in the sorted list. */
  lemma SortedPosition(data: seq<DimensionScore>, k: nat) returns (m: nat)
    requires k < |data|
    ensures m < |data| && SortedData(data)[m] == data[k]
  {
    SortDescFacts(data, Current);
    assert data[k] in multiset(SortedData(data));
    m :| 0 <= m < |data| && SortedData(data)[m] == data[k];
  }

  /** In the sorted list an entry scoring more than another stands before it. */
  lemma SortedRank(data: seq<DimensionScore>, i: nat, j: nat)
    requires i < |data| && j < |data|
    requires SortedData(data)[j].current > SortedData(data)[i].current
    ensures j < i
  {
    SortDescFacts(data, Current);
    assert Current(SortedData(data)[j]) > Current(SortedData(data)[i]);
  }

  /** No entry scores above the i-th top row unless it is one of the rows above it. */
  lemma TopIsHighest(data: seq<DimensionScore>, i: nat, k: nat)
    requires i < |Top3(data)| && k < |data|
    requires data[k].current > Top3(data)[i].current
    ensures data[k] in Top3(data)[..i]
  {
    var m := SortedPosition(data, k);
    SortedRank(data, i, m);
    assert Top3(data)[..i][m] == data[k];
  }

  /** No entry scores below the i-th bottom row unless it is shown before it. */
  lemma BottomIsLowest(data: seq<DimensionScore>, i: nat, k: nat)
    requires i < |Bottom3(data)| && k < |data|
    requires data[k].current < Bottom3(data)[i].current
    ensures data[k] in Bottom3(data)[..i]
  {
    var n := |data|;
    Bottom3At(data, i);
    var m := SortedPosition(data, k);
    SortedRank(data, m, n - 1 - i);
    Bottom3At(data, n - 1 - m);
    assert Bottom3(data)[..i][n - 1 - m] == data[k];
  }

  /**
   * With at least six dimensions the two halves are disjoint slices of the
   * sorted list: every top row scores at least every bottom row, and the six
   * rows are six different entries of the data.
   */
  lemma TopAboveBottom(data: seq<DimensionScore>)
    requires |data| >= 6
    ensures forall i, j :: 0 <= i < 3 && 0 <= j < 3 ==> Top3(data)[i].current >= Bottom3(data)[j].current
    ensures multiset(DisplayData(data)) <= multiset(data)
  {
    var s := SortedData(data);
    var n := |data|;
    SortDescFacts(data, Current);
    forall i, j | 0 <= i < 3 && 0 <= j < 3 ensures Top3(data)[i].current >= Bottom3(data)[j].current {
      Bottom3At(data, j);
      assert Current(s[i]) >= Current(s[n - 1 - j]);
    }
    assert s == s[..3] + s[3..n - 3] + s[n - 3..];
    assert multiset(Bottom3(data)) == multiset(s[n - 3..]) by {
      ReverseMultiset(s[n - 3..]);
    }
    assert multiset(DisplayData(data)) == multiset(s[..3]) + multiset(s[n - 3..]);
  }

  lemma {:induction false} ReverseMultiset<T>(s: seq<T>)
    ensures multiset(Reverse(s)) == multiset(s)
    decreases |s|
  {
    if s != [] {
      ReverseMultiset(s[..|s| - 1]);
      assert s == s[..|s| - 1] + [s[|s| - 1]];
    }
  }

  /**
   * With fewer than six dimensions the halves overlap: the entry at sorted
   * position `n - Shown(n)` is both a top row and the last bottom row.
   */
  lemma HalvesOverlap(data: seq<DimensionScore>)
    requires 0 < |data| < 6
    ensures var p := |data| - Shown(|data|);
      p < Shown(|data|) && Top3(data)[p] == Bottom3(data)[Shown(|data|) - 1]
  {
    Bottom3At(data, Shown(|data|) - 1);
  }

  /** The funnel opens on the highest score and its bottom half opens on the lowest. */
  lemma FunnelEnds(data: seq<DimensionScore>)
    requires |data| > 0
    ensures forall k :: 0 <= k < |data| ==> data[k].current <= DisplayData(data)[0].current
    ensures forall k :: 0 <= k < |data| ==> DisplayData(data)[Shown(|data|)].current <= data[k].current
  {
    var j := SortDescHead(data, Current);
    var l := SortDescLast(data, Current);
    Bottom3At(data, 0);
  }
}
