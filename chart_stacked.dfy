/**
 * The dimension-scores-by-group chart (src/components/StackedBarByGroup.tsx):
 * for every respondent group a copy of the dimension scores shifted by that
 * group's fixed offsets and kept within 0..7, one entry per distinct group
 * label, each group's average and the group with the best average.
 */
module StackedBar {
  import opened Base
  import opened SeqUtil
  import opened Dict
  import opened Charts

  /** An entry of `respondentGroupsData`: a group label and its respondent count. */
  datatype GroupCount = GroupCount(name: string, count: real)

  const StaffOffsets: seq<real> := [0.1, -0.2, 0.0, -0.1, 0.2, -0.1]
  const ParentOffsets: seq<real> := [0.0, 0.1, -0.1, 0.0, -0.1, 0.1]
  const GuardianOffsets: seq<real> := [-0.1, 0.0, 0.1, -0.1, 0.0, -0.1]
  const NoOffsets: seq<real> := [0.0, 0.0, 0.0, 0.0, 0.0, 0.0]

  /** The three groups with offsets of their own. */
  predicate KnownGroup(groupName: string)
  {
    groupName == "Staff" || groupName == "Parent / Ibu/Bapa" || groupName == "Guardian / Penjaga"
  }

  /** `variations[groupName] || [0, 0, 0, 0, 0, 0]`. */
  function OffsetsFor(groupName: string): (v: seq<real>)
    ensures |v| == 6
    ensures !KnownGroup(groupName) ==> v == NoOffsets
    ensures forall i :: 0 <= i < 6 ==> -0.2 <= v[i] <= 0.2
  {
    if groupName == "Staff" then StaffOffsets
    else if groupName == "Parent / Ibu/Bapa" then ParentOffsets
    else if groupName == "Guardian / Penjaga" then GuardianOffsets
    else NoOffsets
  }

  /** `variation[index] || 0`: no offset past the sixth dimension. */
  function OffsetAt(v: seq<real>, index: nat): real
  {
    if index < |v| then v[index] else 0.0
  }

  /** `Math.max(0, Math.min(7, x))`. */
  function Clamp(x: real): (r: real)
    ensures 0.0 <= r <= 7.0
    ensures 0.0 <= x <= 7.0 ==> r == x
  {
    if x > 7.0 then 7.0 else if x < 0.0 then 0.0 else x
  }

  /** `generateGroupScores(baseScores, groupName)`. */
  function GroupScores(baseScores: seq<real>, groupName: string): (r: seq<real>)
    ensures |r| == |baseScores|
    ensures forall i :: 0 <= i < |r| ==> 0.0 <= r[i] <= 7.0
  {
    var v := OffsetsFor(groupName);
    seq(|baseScores|, i requires 0 <= i < |baseScores| => Clamp(baseScores[i] + OffsetAt(v, i)))
  }

  /**
   * A group's score for a dimension stays within 0.2 of the real score; a
   * group without offsets, or a dimension past the sixth, keeps the real score.
   */
  lemma GroupScoresNearBase(baseScores: seq<real>, groupName: string, i: nat)
    requires i < |baseScores| && 0.0 <= baseScores[i] <= 7.0
    ensures -0.2 <= GroupScores(baseScores, groupName)[i] - baseScores[i] <= 0.2
    ensures !KnownGroup(groupName) || i >= 6 ==> GroupScores(baseScores, groupName)[i] == baseScores[i]
  {
  }

  /** `respondentGroupsData.reduce((acc, group) => { acc[group.label] = ...; return acc; }, {})`. */
  function GroupData(baseScores: seq<real>, groups: seq<GroupCount>): (r: Assoc<string, seq<real>>)
    ensures |r| <= |groups|
    ensures |groups| > 0 ==> |r| > 0
  {
    if groups == [] then []
    else
      var d := GroupData(baseScores, groups[..|groups| - 1]);
      var g := groups[|groups| - 1];
      Assign(d, g.name, GroupScores(baseScores, g.name))
  }

  /**
   * One entry per distinct group label: every label of the input has an entry,
   * every entry is for a label of the input, and it holds that group's scores.
   */
  lemma {:induction false} GroupDataEntries(baseScores: seq<real>, groups: seq<GroupCount>)
    ensures DistinctKeys(GroupData(baseScores, groups))
    ensures forall i :: 0 <= i < |groups| ==> groups[i].name in Keys(GroupData(baseScores, groups))
    ensures forall e :: e in GroupData(baseScores, groups) ==>
              e.1 == GroupScores(baseScores, e.0) && exists i :: 0 <= i < |groups| && groups[i].name == e.0
    decreases |groups|
  {
    if groups != [] {
      var prefix := groups[..|groups| - 1];
      var d := GroupData(baseScores, prefix);
      var g := groups[|groups| - 1];
      GroupDataEntries(baseScores, prefix);
      AssignDistinct(d, g.name, GroupScores(baseScores, g.name));
      AssignEntries(d, g.name, GroupScores(baseScores, g.name));
      forall i | 0 <= i < |groups| ensures groups[i].name in Keys(GroupData(baseScores, groups)) {
        if i < |groups| - 1 {
          assert prefix[i] == groups[i];
        }
      }
      forall e | e in GroupData(baseScores, groups)
        ensures e.1 == GroupScores(baseScores, e.0) && exists i :: 0 <= i < |groups| && groups[i].name == e.0
      {
        if e in d {
          var i :| 0 <= i < |prefix| && prefix[i].name == e.0;
          assert groups[i] == prefix[i];
        } else {
          assert groups[|groups| - 1].name == e.0;
        }
      }
    }
  }

  /** An element of `avgScoresByGroup`. */
  datatype GroupAverage = GroupAverage(name: string, avgScore: real, scores: seq<real>)

  function AvgScore(g: GroupAverage): real
  {
    g.avgScore
  }

  /** `Object.entries(groupData).map(([name, scores]) => ({ name, avgScore: sum / length, scores }))`. */
  function Averages(groupData: Assoc<string, seq<real>>): (r: seq<GroupAverage>)
    ensures |r| == |groupData|
    ensures forall k :: 0 <= k < |r| ==> r[k].name == groupData[k].0 && r[k].scores == groupData[k].1
  {
    seq(|groupData|, k requires 0 <= k < |groupData| =>
      GroupAverage(groupData[k].0, Mean(groupData[k].1), groupData[k].1))
  }

  /** `avgScoresByGroup.reduce((prev, current) => current.avgScore > prev.avgScore ? current : prev)`. */
  function TopGroup(averages: seq<GroupAverage>): GroupAverage
    requires |averages| > 0
  {
    if |averages| == 1 then averages[0]
    else
      var prev := TopGroup(averages[..|averages| - 1]);
      var current := averages[|averages| - 1];
      if current.avgScore > prev.avgScore then current else prev
  }

  /** The top group is the first group whose average is the highest. */
  lemma {:induction false} TopGroupIsFirstBest(averages: seq<GroupAverage>) returns (j: nat)
    requires |averages| > 0
    ensures j < |averages| && TopGroup(averages) == averages[j]
    ensures forall k :: 0 <= k < |averages| ==> averages[k].avgScore <= averages[j].avgScore
    ensures forall k :: 0 <= k < j ==> averages[k].avgScore < averages[j].avgScore
    decreases |averages|
  {
    if |averages| == 1 {
      j := 0;
    } else {
      var n := |averages|;
      var prefix := averages[..n - 1];
      var i := TopGroupIsFirstBest(prefix);
      assert forall k :: 0 <= k < n - 1 ==> averages[k] == prefix[k];
      if averages[n - 1].avgScore > prefix[i].avgScore {
        j := n - 1;
      } else {
        j := i;
      }
    }
  }

  /** What the chart shows once there is data: labels, group scores, averages, the group count and the top group. */
  datatype GroupView = GroupView(labels: seq<string>, groupData: Assoc<string, seq<real>>,
                                 averages: seq<GroupAverage>, totalGroups: nat, topGroup: GroupAverage)

  /** The component: the "No data available" placeholder (`None`) when either list is empty. */
  function GroupChart(data: seq<DimensionScore>, groups: seq<GroupCount>): (r: Option<GroupView>)
    ensures r.None? <==> |data| == 0 || |groups| == 0
  {
    if |data| == 0 || |groups| == 0 then None
    else
      var baseScores := seq(|data|, i requires 0 <= i < |data| => data[i].current);
      var groupData := GroupData(baseScores, groups);
      var averages := Averages(groupData);
      Some(GroupView(seq(|data|, i requires 0 <= i < |data| => data[i].name), groupData, averages,
                     |Keys(groupData)|, TopGroup(averages)))
  }

  /**
   * Every group's average lies within the scale, the group count is the
   * number of distinct labels, and the top group is the first-listed group
   * with the highest average.
   */
  lemma GroupChartSummary(data: seq<DimensionScore>, groups: seq<GroupCount>)
    requires |data| > 0 && |groups| > 0
    ensures var v := GroupChart(data, groups).value;
      && (forall k :: 0 <= k < |v.averages| ==> 0.0 <= v.averages[k].avgScore <= 7.0)
      && v.totalGroups == |v.groupData|
      && (forall i :: 0 <= i < |groups| ==> groups[i].name in Keys(v.groupData))
      && DistinctKeys(v.groupData)
      && exists j :: 0 <= j < |v.averages| && v.topGroup == v.averages[j]
           && (forall k :: 0 <= k < |v.averages| ==> v.averages[k].avgScore <= v.topGroup.avgScore)
           && (forall k :: 0 <= k < j ==> v.averages[k].avgScore < v.topGroup.avgScore)
  {
    var v := GroupChart(data, groups).value;
    var baseScores := seq(|data|, i requires 0 <= i < |data| => data[i].current);
    GroupDataEntries(baseScores, groups);
    forall k | 0 <= k < |v.averages| ensures 0.0 <= v.averages[k].avgScore <= 7.0 {
      var e := v.groupData[k];
      assert e in v.groupData;
      MeanBounds(e.1, 0.0, 7.0);
    }
    var j := TopGroupIsFirstBest(v.averages);
  }
}
