/**
 * What the dimension charts under src/components share: the `{ label, value,
 * current }` entry each of them receives, counting by a condition
 * (`data.filter(p).length`), and the three performance bands cut at 5.5 and
 * 4.5 that the bar charts label and colour by.
 */
module Charts {

  /** One dimension as the charts receive it: its `label` (here `name`), its key and its current score. */
  datatype DimensionScore = DimensionScore(name: string, value: string, current: real)

  function Current(d: DimensionScore): real
  {
    d.current
  }

  /** `s.filter(p).length`. */
  function Count<T>(s: seq<T>, p: T -> bool): (n: nat)
    ensures n <= |s|
  {
    if s == [] then 0 else Count(s[..|s| - 1], p) + (if p(s[|s| - 1]) then 1 else 0)
  }

  /** Counting is additive over concatenation. */
  lemma {:induction false} CountAppend<T>(a: seq<T>, b: seq<T>, p: T -> bool)
    ensures Count(a + b, p) == Count(a, p) + Count(b, p)
    decreases |b|
  {
    if b == [] {
      assert a + b == a;
    } else {
      assert (a + b)[..|a + b| - 1] == a + b[..|b| - 1];
      CountAppend(a, b[..|b| - 1], p);
    }
  }

  /** The bands of `getPerformanceLabel` and of the tooltips' `performance` text. */
  datatype Performance = Excellent | Good | NeedsAttention
  {
    /** 0 for the best band. */
    function Rank(): nat
    {
      match this
      case Excellent => 0
      case Good => 1
      case NeedsAttention => 2
    }
  }

  /** Excellent from 5.5, Good from 4.5, otherwise Needs Attention; each cut-off inclusive. */
  function PerformanceOf(score: real): (b: Performance)
    ensures b == Excellent <==> score >= 5.5
    ensures b == Good <==> 4.5 <= score < 5.5
    ensures b == NeedsAttention <==> score < 4.5
  {
    if score >= 5.5 then Excellent
    else if score >= 4.5 then Good
    else NeedsAttention
  }

  /** A higher score never falls in a worse band. */
  lemma PerformanceMonotone(x: real, y: real)
    requires x <= y
    ensures PerformanceOf(y).Rank() <= PerformanceOf(x).Rank()
  {
  }
}
