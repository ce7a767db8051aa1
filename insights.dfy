/**
 * The rule-based reading of the headline numbers: the risk level and trend
 * bands of src/components/AIInsightsPanel.tsx, the icons it picks, its null
 * guard, and the narrative summary src/App.tsx assembles after every pass
 * (band choices only; the wording and `toFixed` formatting are not modelled).
 * The display labels of the respondent groups (src/App.tsx) live here too.
 */
module Insights {
  import opened Base
  import opened Dict
  import opened Aggregate
  import opened Summary

  /** The four risk levels of `getRiskLevel`, from best to worst. */
  datatype Risk = LowRisk | ModerateRisk | HighRisk | CriticalRisk
  {
    /** 0 for the best level, 3 for the worst. */
    function Severity(): nat
    {
      match this
      case LowRisk => 0
      case ModerateRisk => 1
      case HighRisk => 2
      case CriticalRisk => 3
    }
  }

  /** The three readings of the trend. */
  datatype TrendReading = Improving | Stable | Declining

  /** The trend icon: up, down or the neutral dash. */
  datatype TrendIcon = TrendingUp | TrendingDown | Neutral

  /** The risk icon: a green check, a yellow alert or a red alert. */
  datatype RiskIcon = GreenCheck | YellowAlert | RedAlert

  /** `getRiskLevel`: cut-offs at 6, 5 and 4, each inclusive. */
  function RiskLevel(overallIndex: real): (r: Risk)
    ensures r == LowRisk <==> overallIndex >= 6.0
    ensures r == CriticalRisk <==> overallIndex < 4.0
  {
    if overallIndex >= 6.0 then LowRisk
    else if overallIndex >= 5.0 then ModerateRisk
    else if overallIndex >= 4.0 then HighRisk
    else CriticalRisk
  }

  /** `getTrendInsight`: above 0.2 improving, above -0.2 stable, otherwise declining. */
  function TrendInsight(trend: real): (r: TrendReading)
    ensures r == Improving <==> trend > 0.2
    ensures r == Declining <==> trend <= -0.2
  {
    if trend > 0.2 then Improving
    else if trend > -0.2 then Stable
    else Declining
  }

  /** `getTrendIcon`: the down arrow needs a trend strictly below -0.2. */
  function TrendIconOf(trend: real): (r: TrendIcon)
    ensures r == TrendingUp <==> trend > 0.2
    ensures r == TrendingDown <==> trend < -0.2
  {
    if trend > 0.2 then TrendingUp
    else if trend < -0.2 then TrendingDown
    else Neutral
  }

  /** `getRiskIcon`: only two cut-offs, at 6 and 5. */
  function RiskIconOf(overallIndex: real): (r: RiskIcon)
    ensures r == GreenCheck <==> overallIndex >= 6.0
    ensures r == RedAlert <==> overallIndex < 5.0
  {
    if overallIndex >= 6.0 then GreenCheck
    else if overallIndex >= 5.0 then YellowAlert
    else RedAlert
  }

  /** What the panel shows once it renders at all. */
  datatype Panel = Panel(risk: Risk, riskIcon: RiskIcon, reading: TrendReading, trendIcon: TrendIcon,
                         strength: Option<Named>, focus: Option<Named>)

  /**
   * The panel for the given props: nothing when the index is 0 or there are no
   * respondents (`!overallIndex || totalRespondents === 0`).
   */
  function InsightsPanel(overallIndex: real, trend: real, best: Option<Named>, lowest: Option<Named>,
                         totalRespondents: nat): (r: Option<Panel>)
    ensures r.None? <==> overallIndex == 0.0 || totalRespondents == 0
    ensures r.Some? ==> r.value.strength == best && r.value.focus == lowest
  {
    if overallIndex == 0.0 || totalRespondents == 0 then None
    else Some(Panel(RiskLevel(overallIndex), RiskIconOf(overallIndex), TrendInsight(trend), TrendIconOf(trend),
                    best, lowest))
  }

  /** A higher index never gives a more severe risk level. */
  lemma RiskMonotone(x: real, y: real)
    requires x <= y
    ensures RiskLevel(y).Severity() <= RiskLevel(x).Severity()
  {
  }

  /** A higher trend never gives a worse reading. */
  lemma TrendMonotone(x: real, y: real)
    requires x <= y
    ensures TrendInsight(x) == Improving ==> TrendInsight(y) == Improving
    ensures TrendInsight(y) == Declining ==> TrendInsight(x) == Declining
  {
  }

  /** The icon the reading would suggest. */
  function IconFor(reading: TrendReading): TrendIcon
  {
    match reading
    case Improving => TrendingUp
    case Stable => Neutral
    case Declining => TrendingDown
  }

  /**
   * The trend icon agrees with the trend text everywhere except at exactly
   * -0.2, where the text says declining and the icon stays neutral.
   */
  lemma TrendIconMismatch(trend: real)
    ensures TrendIconOf(trend) != IconFor(TrendInsight(trend)) <==> trend == -0.2
    ensures trend == -0.2 ==> TrendInsight(trend) == Declining && TrendIconOf(trend) == Neutral
  {
  }

  /** The risk icon is a coarsening of the risk level: high and critical share the red alert. */
  lemma RiskIconCoarsens(overallIndex: real)
    ensures RiskIconOf(overallIndex) == GreenCheck <==> RiskLevel(overallIndex) == LowRisk
    ensures RiskIconOf(overallIndex) == YellowAlert <==> RiskLevel(overallIndex) == ModerateRisk
    ensures RiskIconOf(overallIndex) == RedAlert <==>
            RiskLevel(overallIndex) == HighRisk || RiskLevel(overallIndex) == CriticalRisk
  {
  }

  // ---- The narrative summary of src/App.tsx ----

  /** The risk label of the narrative: the same cut-offs, written out again in the aggregator. */
  function NarrativeRisk(overallIndex: real): Risk
  {
    if overallIndex >= 6.0 then LowRisk
    else if overallIndex >= 5.0 then ModerateRisk
    else if overallIndex >= 4.0 then HighRisk
    else CriticalRisk
  }

  /** The trend sentence of the narrative. */
  function NarrativeTrend(trend: real): (r: TrendReading)
    ensures r == Stable ==> -0.2 < trend <= 0.2
  {
    if trend > 0.2 then Improving
    else if trend > -0.2 then Stable
    else Declining
  }

  /** One paragraph of the narrative, with the figures it reports. */
  datatype Line =
    | IndexLine(overallIndex: real, risk: Risk)
    | TrendLine(reading: TrendReading, trend: real)
    | StrongestLine(name: string, score: real)
    | AttentionLine(name: string, score: real)
    | RespondentsLine(count: nat)

  /**
   * The paragraphs of the summary for a result: index and risk, trend, the
   * strongest and the weakest dimension when they have a (non-empty) name,
   * and the number of participants.
   */
  function Narrative(d: Dashboard): (lines: seq<Line>)
    ensures 3 <= |lines| <= 5
    ensures lines[0] == IndexLine(d.overallIndex, NarrativeRisk(d.overallIndex))
    ensures lines[1] == TrendLine(NarrativeTrend(d.trend), d.trend)
    ensures lines[|lines| - 1] == RespondentsLine(d.totalRespondents)
    ensures StrongestLine(d.bestDimension.name, d.bestDimension.score) in lines <==> d.bestDimension.name != ""
    ensures AttentionLine(d.lowestDimension.name, d.lowestDimension.score) in lines <==> d.lowestDimension.name != ""
  {
    [IndexLine(d.overallIndex, NarrativeRisk(d.overallIndex)), TrendLine(NarrativeTrend(d.trend), d.trend)]
    + (if d.bestDimension.name != "" then [StrongestLine(d.bestDimension.name, d.bestDimension.score)] else [])
    + (if d.lowestDimension.name != "" then [AttentionLine(d.lowestDimension.name, d.lowestDimension.score)] else [])
    + [RespondentsLine(d.totalRespondents)]
  }

  /** The narrative and the insights panel read the same numbers the same way. */
  lemma NarrativeMatchesPanel(overallIndex: real, trend: real)
    ensures NarrativeRisk(overallIndex) == RiskLevel(overallIndex)
    ensures NarrativeTrend(trend) == TrendInsight(trend)
  {
  }

  /** With no rows the narrative reports a critical index, a stable trend and no one. */
  lemma NarrativeOfNoData()
    ensures Narrative(NoData) == [IndexLine(0.0, CriticalRisk), TrendLine(Stable, 0.0),
                                  StrongestLine("N/A", 0.0), AttentionLine("N/A", 0.0), RespondentsLine(0)]
  {
  }

  // ---- Respondent group labels ----

  /** `RESPONDENT_GROUP_LABEL_MAP`. */
  const RespondentGroupLabels: Assoc<string, string> := [("Staff / Staf", "Staff")]

  /** `RESPONDENT_GROUP_LABEL_MAP[group] || group`: the mapped label, or the raw value. */
  function GroupLabel(group: string): (shown: string)
    ensures group == "Staff / Staf" ==> shown == "Staff"
    ensures group != "Staff / Staf" ==> shown == group
  {
    match Lookup(RespondentGroupLabels, group)
    case Some(l) => if l != "" then l else group
    case None => group
  }

  /** The donut chart's data: one labelled slice per counted group, in key order. */
  function RespondentGroupsData(groups: Assoc<string, nat>): (slices: seq<(string, nat)>)
    ensures |slices| == |groups|
    ensures forall i :: 0 <= i < |groups| ==> slices[i] == (GroupLabel(groups[i].0), groups[i].1)
  {
    seq(|groups|, i requires 0 <= i < |groups| => (GroupLabel(groups[i].0), groups[i].1))
  }

  /** Relabelling keeps every count, so the slices add up to the counted rows. */
  lemma {:induction false} SlicesKeepCounts(groups: Assoc<string, nat>)
    ensures TotalOf(RespondentGroupsData(groups)) == TotalCount(groups)
    decreases |groups|
  {
    if groups != [] {
      var s := RespondentGroupsData(groups);
      assert RespondentGroupsData(groups[1..]) == s[1..];
      SlicesKeepCounts(groups[1..]);
    }
  }

  /** The sum of the slice values. */
  function TotalOf(slices: seq<(string, nat)>): nat
  {
    if slices == [] then 0 else slices[0].1 + TotalOf(slices[1..])
  }
}
