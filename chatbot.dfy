/**
 * The reply logic of the dashboard assistant (src/components/FloatingChatbot.tsx):
 * the per-session memory that `getBotResponse` keeps in React refs and state,
 * the rotation of perspectives, the dimension analysis it derives from the
 * dashboard, and the reply chosen for each intent. Replies are modelled by
 * what they report, not by their wording.
 */
module Chatbot {
  import opened Base
  import opened SeqUtil
  import opened Text
  import opened Tables
  import opened Summary
  import opened ChatText

  /** The `kpiData` prop. */
  datatype KpiData = KpiData(overallIndex: real, trend: real, bestDimension: Named, lowestDimension: Named,
                     totalRespondents: nat)

  /** The values `lastContentTypeRef` records. */
  datatype ContentType =
    | SnapshotContent | TrendsContent | ComparisonContent | StrengthsContent | AreasContent
    | ActionsContent | MeaningContent | MethodologyContent | ScoresContent

  /** One line of the score breakdown: name, score on the 0-7 scale, and that score as a percentage. */
  datatype ScoreLine = ScoreLine(name: string, score: real, percent: real)

  /** What a reply says. */
  datatype Reply =
    | RolePrompt                                   // the role-selection hint
    | SelectRole                                   // no role chosen yet
    | Unavailable(intent: Intent)                  // the "data unavailable" text of an intent
    | Snapshot(percent: real, respondents: nat)    // the first full overview
    | Concise(status: Status)                      // every later overview
    | SteadyTrends
    | Ranking(labels: seq<string>)
    | Strongest(name: string)
    | Weakest(name: string)
    | NextActions(target: string, suggestion: string)
    | Interpretation(assessed: Option<Status>)    // `None` prints 'N/A'
    | Methodology
    | Reassured
    | ScoreLines(lines: seq<ScoreLine>)
    | HelpText
    | DefaultText

  // ---- `getDimensionAnalysis` ----

  /** The dimensions sorted by score, with the first and the last of them. */
  datatype Analysis = Analysis(all: seq<Named>, highest: Option<Named>, lowest: Option<Named>)

  function NamedOf(r: DimensionRow): Named
  {
    Named(r.dimension.Label(), r.current)
  }

  function ScoreOf(n: Named): real
  {
    n.score
  }

  /** `dimensionsData.map(d => ({ name: d.label, score: d.current }))`. */
  function NamedRows(rows: seq<DimensionRow>): (ns: seq<Named>)
    ensures |ns| == |rows|
    ensures forall k :: 0 <= k < |rows| ==> ns[k] == NamedOf(rows[k])
  {
    seq(|rows|, k requires 0 <= k < |rows| => NamedOf(rows[k]))
  }

  /**
   * `getDimensionAnalysis()`: nothing without dimension data; otherwise every
   * dimension, sorted by descending score, and its two ends (absent when
   * there are no dimensions).
   */
  function DimensionAnalysis(dims: Option<seq<DimensionRow>>): (a: Option<Analysis>)
    ensures a.None? <==> dims.None?
    ensures a.Some? ==> multiset(a.value.all) == multiset(NamedRows(dims.value))
    ensures a.Some? ==> SortedDesc(a.value.all, ScoreOf)
    ensures a.Some? ==> (a.value.highest.Some? <==> |dims.value| > 0) && (a.value.lowest.Some? <==> |dims.value| > 0)
  {
    match dims
    case None => None
    case Some(rows) =>
      var all := SortDesc(NamedRows(rows), ScoreOf);
      SortDescFacts(NamedRows(rows), ScoreOf);
      Some(Analysis(all, if |all| > 0 then Some(all[0]) else None,
                    if |all| > 0 then Some(all[|all| - 1]) else None))
  }

  /** Two indices that are both "the first with the largest score" are the same. */
  lemma FirstLargestUnique(rows: seq<DimensionRow>, i: nat, j: nat)
    requires i < |rows| && j < |rows|
    requires forall k :: 0 <= k < |rows| ==> rows[k].current <= rows[i].current && rows[k].current <= rows[j].current
    requires forall k :: 0 <= k < i ==> rows[k].current < rows[i].current
    requires forall k :: 0 <= k < j ==> rows[k].current < rows[j].current
    ensures i == j
  {
    assert rows[i].current == rows[j].current;
  }

  /** Two indices that are both "the last with the smallest score" are the same. */
  lemma LastSmallestUnique(rows: seq<DimensionRow>, i: nat, j: nat)
    requires i < |rows| && j < |rows|
    requires forall k :: 0 <= k < |rows| ==> rows[i].current <= rows[k].current && rows[j].current <= rows[k].current
    requires forall k :: i < k < |rows| ==> rows[i].current < rows[k].current
    requires forall k :: j < k < |rows| ==> rows[j].current < rows[k].current
    ensures i == j
  {
    assert rows[i].current == rows[j].current;
  }

  /**
   * The assistant's highest and lowest dimensions are the dashboard's
   * `bestDimension` and `lowestDimension`: both come from the same stable sort.
   */
  lemma AnalysisMatchesSummary(rows: seq<DimensionRow>)
    requires |rows| > 0
    ensures DimensionAnalysis(Some(rows)).value.highest == Some(Best(rows))
    ensures DimensionAnalysis(Some(rows)).value.lowest == Some(Lowest(rows))
  {
    var ns := NamedRows(rows);
    var h := SortDescHead(ns, ScoreOf);
    var b := BestIsFirstLargest(rows);
    FirstLargestUnique(rows, h, b);
    var l := SortDescLast(ns, ScoreOf);
    var w := LowestIsLastSmallest(rows);
    LastSmallestUnique(rows, l, w);
  }

  // ---- The ranking of the comparison reply ----

  function Labels(rows: seq<DimensionRow>): (ls: seq<string>)
    ensures |ls| == |rows|
    ensures forall k :: 0 <= k < |rows| ==> ls[k] == rows[k].dimension.Label()
  {
    seq(|rows|, k requires 0 <= k < |rows| => rows[k].dimension.Label())
  }

  /** `[best.name, lowest.name].filter(Boolean)`. */
  function FallbackRanking(kpi: KpiData): (ls: seq<string>)
    ensures forall k :: 0 <= k < |ls| ==> ls[k] != ""
    ensures kpi.bestDimension.name != "" ==> |ls| > 0 && ls[0] == kpi.bestDimension.name
  {
    (if kpi.bestDimension.name != "" then [kpi.bestDimension.name] else [])
    + (if kpi.lowestDimension.name != "" then [kpi.lowestDimension.name] else [])
  }

  /** The ranking as the code builds it: the labels in the order of `dimensionsData`. */
  function RankingAsWritten(kpi: KpiData, dims: Option<seq<DimensionRow>>): (ls: seq<string>)
    ensures dims.Some? && |dims.value| > 0 ==> ls == Labels(dims.value)
  {
    var labels := if dims.Some? then Labels(dims.value) else [];
    if |labels| > 0 then labels else FallbackRanking(kpi)
  }

  /** The reply announces "highest to lowest", but a higher score later in the table stays later. */
  lemma RankingAsWrittenUnsorted()
    ensures var rows := [DimensionRow(TraineeOrientation, 4.0, 3.9), DimensionRow(PerformanceOrientation, 6.0, 5.9)];
            RankingAsWritten(KpiData(5.0, 0.0, Named("", 0.0), Named("", 0.0), 2), Some(rows))
              == ["Trainee Orientation", "Performance Orientation"]
            && rows[0].current < rows[1].current
  {
  }

  /** The ranking the reply announces: the labels sorted by descending score. */
  function SortedRanking(kpi: KpiData, dims: Option<seq<DimensionRow>>): (ls: seq<string>)
    ensures dims.Some? && |dims.value| > 0 ==> |ls| == |dims.value|
    ensures dims.None? || dims.value == [] ==> ls == FallbackRanking(kpi)
  {
    if dims.Some? && |dims.value| > 0 then Labels(SortDesc(dims.value, CurrentOf)) else FallbackRanking(kpi)
  }

  /**
   * The corrected ranking lists every dimension once, from the highest score
   * to the lowest, and starts with the dashboard's `bestDimension`.
   */
  lemma RankingOrdered(kpi: KpiData, rows: seq<DimensionRow>) returns (sorted: seq<DimensionRow>)
    requires |rows| > 0
    ensures multiset(sorted) == multiset(rows) && SortedDesc(sorted, CurrentOf)
    ensures SortedRanking(kpi, Some(rows)) == Labels(sorted)
    ensures SortedRanking(kpi, Some(rows))[0] == Best(rows).name
  {
    sorted := SortDesc(rows, CurrentOf);
    SortDescFacts(rows, CurrentOf);
  }

  lemma LabelsAppend(a: seq<DimensionRow>, b: seq<DimensionRow>)
    ensures Labels(a + b) == Labels(a) + Labels(b)
  {
    assert forall k :: 0 <= k < |a + b| ==> Labels(a + b)[k] == (Labels(a) + Labels(b))[k] by {
      forall k | 0 <= k < |a + b|
        ensures Labels(a + b)[k] == (Labels(a) + Labels(b))[k]
      {
        if k >= |a| {
          assert (a + b)[k] == b[k - |a|];
        }
      }
    }
  }

  /** Rearranging the dimension rows rearranges their labels the same way. */
  lemma {:induction false} LabelsPermutation(a: seq<DimensionRow>, b: seq<DimensionRow>)
    requires multiset(a) == multiset(b)
    ensures multiset(Labels(a)) == multiset(Labels(b))
    decreases |a|
  {
    if a != [] {
      var x := a[|a| - 1];
      var a' := a[..|a| - 1];
      assert a == a' + [x];
      assert x in multiset(b);
      var j :| 0 <= j < |b| && b[j] == x;
      var b' := b[..j] + b[j + 1..];
      assert b == b[..j] + [x] + b[j + 1..];
      assert multiset(a') == multiset(a) - multiset{x};
      assert multiset(b') == multiset(b) - multiset{x};
      LabelsPermutation(a', b');
      LabelsAppend(a', [x]);
      LabelsAppend(b[..j] + [x], b[j + 1..]);
      LabelsAppend(b[..j], [x]);
      LabelsAppend(b[..j], b[j + 1..]);
    }
  }

  /**
   * The comparison reply as written names every dimension exactly as often
   * as the corrected ranking does: only the order of the list is wrong.
   */
  lemma CompareReplyNamesEveryDimension(kpi: KpiData, rows: seq<DimensionRow>, shown: bool)
    requires |rows| > 0
    ensures ReplyFor(Compare, Some(kpi), Some(rows), shown).Ranking?
    ensures multiset(ReplyFor(Compare, Some(kpi), Some(rows), shown).labels)
            == multiset(SortedRanking(kpi, Some(rows)))
  {
    SortDescFacts(rows, CurrentOf);
    LabelsPermutation(rows, SortDesc(rows, CurrentOf));
  }

  /** With Trainee Orientation at 4.0 before Performance Orientation at 6.0 the reply lists the lower score first. */
  lemma CompareReplyUnsorted()
    ensures var rows := [DimensionRow(TraineeOrientation, 4.0, 3.9), DimensionRow(PerformanceOrientation, 6.0, 5.9)];
            var kpi := KpiData(5.0, 0.0, Named("", 0.0), Named("", 0.0), 2);
            ReplyFor(Compare, Some(kpi), Some(rows), false) == Ranking(["Trainee Orientation", "Performance Orientation"])
            && SortedRanking(kpi, Some(rows)) == ["Performance Orientation", "Trainee Orientation"]
  {
    var rows := [DimensionRow(TraineeOrientation, 4.0, 3.9), DimensionRow(PerformanceOrientation, 6.0, 5.9)];
    assert rows[..1] == [rows[0]] && [rows[0]][..0] == [];
    assert SortDesc([rows[0]], CurrentOf) == [rows[0]];
    assert SortDesc(rows, CurrentOf) == [rows[1], rows[0]];
  }

  // ---- The reply for each intent ----

  /** The dimension the `improve` reply targets: the lowest one, or Competitor Orientation without one. */
  function ImprovementTarget(kpi: Option<KpiData>): (target: string)
    ensures target != ""
    ensures kpi.Some? && kpi.value.lowestDimension.name != "" ==> target == kpi.value.lowestDimension.name
  {
    if kpi.Some? && kpi.value.lowestDimension.name != "" then kpi.value.lowestDimension.name
    else CompetitorOrientation.Label()
  }

  function ScoreLineOf(n: Named): ScoreLine
  {
    ScoreLine(n.name, n.score, ScoreToPercentage(n.score))
  }

  /** The breakdown lines, one per dimension of the analysis, in its order. */
  function ScoreLinesOf(a: Analysis): (lines: seq<ScoreLine>)
    ensures |lines| == |a.all|
    ensures forall k :: 0 <= k < |lines| ==> lines[k] == ScoreLineOf(a.all[k])
  {
    seq(|a.all|, k requires 0 <= k < |a.all| => ScoreLineOf(a.all[k]))
  }

  /**
   * The `switch (intent)` of `getBotResponse`, for the given props and the
   * value of `overallSummaryShown` when the message arrives. The comparison
   * lists the dimensions as the code builds the list (`RankingAsWritten`),
   * which is not sorted by score.
   */
  function ReplyFor(intent: Intent, kpi: Option<KpiData>, dims: Option<seq<DimensionRow>>, summaryShown: bool): (r: Reply)
    ensures r.Unavailable? ==> r.intent == intent && (kpi.None? || dims.None?)
    ensures intent == Charts || intent == Default ==> r == DefaultText
    ensures intent == Overall && kpi.Some? ==> (r.Snapshot? <==> !summaryShown) && (r.Concise? <==> summaryShown)
    ensures intent == Compare && kpi.Some? && dims.Some? && |dims.value| > 0 ==> r == Ranking(Labels(dims.value))
    ensures intent == Compare && kpi.Some? && (dims.None? || dims.value == []) ==> r == Ranking(FallbackRanking(kpi.value))
  {
    match intent
    case Overall =>
      if kpi.None? then Unavailable(Overall)
      else if !summaryShown then Snapshot(ScoreToPercentage(kpi.value.overallIndex), kpi.value.totalRespondents)
      else Concise(StatusOf(ScoreToPercentage(kpi.value.overallIndex)))
    case Trends => if kpi.None? then Unavailable(Trends) else SteadyTrends
    case Compare => if kpi.None? then Unavailable(Compare) else Ranking(RankingAsWritten(kpi.value, dims))
    case Strengths => if kpi.None? then Unavailable(Strengths) else Strongest(kpi.value.bestDimension.name)
    case Areas => if kpi.None? then Unavailable(Areas) else Weakest(kpi.value.lowestDimension.name)
    case Improve =>
      var target := ImprovementTarget(kpi);
      NextActions(target, SuggestionFor(target))
    case Meaning =>
      Interpretation(if kpi.Some? then Some(StatusOf(ScoreToPercentage(kpi.value.overallIndex))) else None)
    case Kpi => Methodology
    case Reassurance => Reassured
    case Dimensions =>
      (match DimensionAnalysis(dims)
       case None => Unavailable(Dimensions)
       case Some(a) => ScoreLines(ScoreLinesOf(a)))
    case Help => HelpText
    case Charts => DefaultText
    case Default => DefaultText
  }

  /** What `lastContentTypeRef` is set to, `None` where the reply leaves it alone. */
  function ContentTypeFor(intent: Intent, kpi: Option<KpiData>, dims: Option<seq<DimensionRow>>): (c: Option<ContentType>)
  {
    match intent
    case Overall => if kpi.Some? then Some(SnapshotContent) else None
    case Trends => if kpi.Some? then Some(TrendsContent) else None
    case Compare => if kpi.Some? then Some(ComparisonContent) else None
    case Strengths => if kpi.Some? then Some(StrengthsContent) else None
    case Areas => if kpi.Some? then Some(AreasContent) else None
    case Improve => Some(ActionsContent)
    case Meaning => Some(MeaningContent)
    case Kpi => Some(MethodologyContent)
    case Dimensions => if dims.Some? then Some(ScoresContent) else None
    case _ => None
  }

  /**
   * A content type is recorded exactly when the reply carries content: not
   * for the unavailable texts, help, the default text or reassurance.
   */
  lemma ContentRecordedWithContent(intent: Intent, kpi: Option<KpiData>, dims: Option<seq<DimensionRow>>, shown: bool)
    ensures ContentTypeFor(intent, kpi, dims).None? <==>
            var r := ReplyFor(intent, kpi, dims, shown);
            r.Unavailable? || r == HelpText || r == DefaultText || r == Reassured
  {
  }

  /** The breakdown lists every dimension, highest score first, with the matching percentage. */
  lemma ScoreLinesDescending(kpi: Option<KpiData>, rows: seq<DimensionRow>, shown: bool)
    ensures var r := ReplyFor(Dimensions, kpi, Some(rows), shown);
            r.ScoreLines? && |r.lines| == |rows|
            && (forall i, j :: 0 <= i < j < |r.lines| ==> r.lines[i].score >= r.lines[j].score)
            && (forall i :: 0 <= i < |r.lines| ==> r.lines[i].percent == ScoreToPercentage(r.lines[i].score))
  {
    var a := DimensionAnalysis(Some(rows)).value;
    assert |a.all| == |NamedRows(rows)| by {
      assert |multiset(a.all)| == |multiset(NamedRows(rows))|;
    }
  }

  // ---- The session ----

  /** `PERSPECTIVES`. */
  const Perspectives: seq<string> := ["Executive", "Analytical", "Advisory", "Reassuring", "Strategic"]

  /** `PERSPECTIVES.filter(p => p !== last)`. */
  function Without(ps: seq<string>, last: Option<string>): (r: seq<string>)
    ensures forall x :: x in r <==> x in ps && Some(x) != last
  {
    if ps == [] then []
    else if Some(ps[0]) != last then [ps[0]] + Without(ps[1..], last)
    else Without(ps[1..], last)
  }

  ghost predicate Distinct(ps: seq<string>)
  {
    forall i, j :: 0 <= i < j < |ps| ==> ps[i] != ps[j]
  }

  /** Filtering a list without repeats drops at most one entry. */
  lemma {:induction false} WithoutDropsOne(ps: seq<string>, last: Option<string>)
    requires Distinct(ps)
    ensures |Without(ps, last)| + 1 >= |ps|
    ensures last.None? || last.value !in ps ==> Without(ps, last) == ps
    decreases |ps|
  {
    if ps != [] {
      WithoutDropsOne(ps[1..], last);
      if Some(ps[0]) == last {
        assert ps[0] !in ps[1..];
        WithoutKeeps(ps[1..], last);
      } else {
        assert [ps[0]] + ps[1..] == ps;
      }
    }
  }

  lemma {:induction false} WithoutKeeps(ps: seq<string>, last: Option<string>)
    requires last.None? || last.value !in ps
    ensures Without(ps, last) == ps
    decreases |ps|
  {
    if ps != [] {
      WithoutKeeps(ps[1..], last);
      assert [ps[0]] + ps[1..] == ps;
    }
  }

  /** At least four perspectives remain once the previous one is set aside. */
  lemma PerspectiveOptions(last: Option<string>)
    ensures |Without(Perspectives, last)| >= 4
  {
    assert Distinct(Perspectives);
    WithoutDropsOne(Perspectives, last);
  }

  /** `Math.floor(draw * n)`: for a draw in [0, 1), an index below `n`. */
  function PickIndex(draw: real, n: nat): (i: nat)
    requires 0.0 <= draw < 1.0 && n > 0
    ensures i < n
    ensures i as real <= draw * n as real < i as real + 1.0
  {
    var x := draw * n as real;
    assert 0.0 <= x < n as real by {
      assert draw * n as real < 1.0 * n as real;
    }
    x.Floor
  }

  /** The memory one chat window keeps between messages. */
  class ChatSession {
    /** `selectedRole !== null`. */
    const hasRole: bool
    var overallSummaryShown: bool
    var lastPerspective: Option<string>
    var lastContentType: Option<ContentType>
    var intentCounts: map<Intent, nat>
    var lastIntent: Option<Intent>
    var lastIntentTime: Option<int>

    constructor (hasRole: bool)
      ensures this.hasRole == hasRole
      ensures !overallSummaryShown && lastPerspective == None && lastContentType == None
      ensures intentCounts == map[] && lastIntent == None && lastIntentTime == None
    {
      this.hasRole := hasRole;
      overallSummaryShown := false;
      lastPerspective := None;
      lastContentType := None;
      intentCounts := map[];
      lastIntent := None;
      lastIntentTime := None;
    }

    /**
     * `pickNextPerspective()`: a perspective other than the previous one,
     * chosen by `draw` (the value of `Math.random()`), which becomes the
     * previous one.
     */
    method PickNextPerspective(draw: real) returns (next: string)
      requires 0.0 <= draw < 1.0
      modifies this`lastPerspective
      ensures next in Perspectives && Some(next) != old(lastPerspective)
      ensures lastPerspective == Some(next)
    {
      var options := Without(Perspectives, lastPerspective);
      PerspectiveOptions(lastPerspective);
      next := options[PickIndex(draw, |options|)];
      lastPerspective := Some(next);
    }

    /**
     * `getBotResponse(userMessage)` with the props `kpi` and `dims`, the
     * clock reading `now` and the random draw `draw`.
     */
    method GetBotResponse(userMessage: string, kpi: Option<KpiData>, dims: Option<seq<DimensionRow>>, now: int, draw: real)
      returns (reply: Reply)
      requires 0.0 <= draw < 1.0
      modifies this
      ensures IsRoleSelection(Trim(userMessage)) ==> reply == RolePrompt && unchanged(this)
      ensures !IsRoleSelection(Trim(userMessage)) && !hasRole ==> reply == SelectRole && unchanged(this)
      ensures !IsRoleSelection(Trim(userMessage)) && hasRole ==>
                var intent := DetectIntent(Lower(Trim(userMessage)));
                && lastIntent == Some(intent) && lastIntentTime == Some(now)
                && intentCounts == Bump(old(intentCounts), intent)
                && lastPerspective.Some? && lastPerspective.value in Perspectives
                && lastPerspective != old(lastPerspective)
                && reply == ReplyFor(intent, kpi, dims, old(overallSummaryShown))
                && overallSummaryShown == (old(overallSummaryShown) || (intent == Overall && kpi.Some?))
                && lastContentType == (match ContentTypeFor(intent, kpi, dims)
                                       case Some(c) => Some(c)
                                       case None => old(lastContentType))
    {
      var raw := Trim(userMessage);
      if IsRoleSelection(raw) {
        return RolePrompt;
      }
      if !hasRole {
        return SelectRole;
      }
      var intent := DetectIntent(Lower(raw));
      reply := Handle(intent, kpi, dims, now, draw);
    }

    /** Everything after the intent is known: bookkeeping, a new perspective, then the reply. */
    method Handle(intent: Intent, kpi: Option<KpiData>, dims: Option<seq<DimensionRow>>, now: int, draw: real)
      returns (reply: Reply)
      requires 0.0 <= draw < 1.0
      modifies this
      ensures lastIntent == Some(intent) && lastIntentTime == Some(now)
      ensures intentCounts == Bump(old(intentCounts), intent)
      ensures lastPerspective.Some? && lastPerspective.value in Perspectives && lastPerspective != old(lastPerspective)
      ensures reply == ReplyFor(intent, kpi, dims, old(overallSummaryShown))
      ensures overallSummaryShown == (old(overallSummaryShown) || (intent == Overall && kpi.Some?))
      ensures lastContentType == (match ContentTypeFor(intent, kpi, dims)
                                  case Some(c) => Some(c)
                                  case None => old(lastContentType))
    {
      lastIntent := Some(intent);
      lastIntentTime := Some(now);
      intentCounts := Bump(intentCounts, intent);
      var _ := PickNextPerspective(draw);
      reply := Answer(intent, kpi, dims);
    }

    /** The `switch (intent)`: the reply, and what it records. */
    method Answer(intent: Intent, kpi: Option<KpiData>, dims: Option<seq<DimensionRow>>) returns (reply: Reply)
      modifies this`overallSummaryShown, this`lastContentType
      ensures reply == ReplyFor(intent, kpi, dims, old(overallSummaryShown))
      ensures overallSummaryShown == (old(overallSummaryShown) || (intent == Overall && kpi.Some?))
      ensures ContentTypeFor(intent, kpi, dims).Some? ==> lastContentType == ContentTypeFor(intent, kpi, dims)
      ensures ContentTypeFor(intent, kpi, dims).None? ==> lastContentType == old(lastContentType)
    {
      match intent
      case Overall =>
        reply := AnswerFromKpi(intent, kpi, dims);
      case Trends =>
        reply := AnswerFromKpi(intent, kpi, dims);
      case Compare =>
        reply := AnswerFromKpi(intent, kpi, dims);
      case Strengths =>
        reply := AnswerFromKpi(intent, kpi, dims);
      case Areas =>
        reply := AnswerFromKpi(intent, kpi, dims);
      case Improve =>
        var target := ImprovementTarget(kpi);
        lastContentType := Some(ActionsContent);
        return NextActions(target, SuggestionFor(target));
      case Meaning =>
        lastContentType := Some(MeaningContent);
        var status := if kpi.Some? then Some(StatusOf(ScoreToPercentage(kpi.value.overallIndex))) else None;
        return Interpretation(status);
      case Kpi =>
        lastContentType := Some(MethodologyContent);
        return Methodology;
      case Reassurance =>
        return Reassured;
      case Dimensions =>
        var analysis := DimensionAnalysis(dims);
        if analysis.None? {
          return Unavailable(Dimensions);
        }
        lastContentType := Some(ScoresContent);
        return ScoreLines(ScoreLinesOf(analysis.value));
      case Help =>
        return HelpText;
      case _ =>
        return DefaultText;
    }

    /** The cases of the switch that answer from the KPI figures, each unavailable without them. */
    method AnswerFromKpi(intent: Intent, kpi: Option<KpiData>, dims: Option<seq<DimensionRow>>) returns (reply: Reply)
      requires intent in {Overall, Trends, Compare, Strengths, Areas}
      modifies this`overallSummaryShown, this`lastContentType
      ensures reply == ReplyFor(intent, kpi, dims, old(overallSummaryShown))
      ensures overallSummaryShown == (old(overallSummaryShown) || (intent == Overall && kpi.Some?))
      ensures ContentTypeFor(intent, kpi, dims).Some? ==> lastContentType == ContentTypeFor(intent, kpi, dims)
      ensures ContentTypeFor(intent, kpi, dims).None? ==> lastContentType == old(lastContentType)
    {
      match intent
      case Overall =>
        if kpi.None? {
          return Unavailable(Overall);
        }
        if !overallSummaryShown {
          overallSummaryShown := true;
          lastContentType := Some(SnapshotContent);
          return Snapshot(ScoreToPercentage(kpi.value.overallIndex), kpi.value.totalRespondents);
        }
        lastContentType := Some(SnapshotContent);
        return Concise(StatusOf(ScoreToPercentage(kpi.value.overallIndex)));
      case Trends =>
        if kpi.None? {
          return Unavailable(Trends);
        }
        lastContentType := Some(TrendsContent);
        return SteadyTrends;
      case Compare =>
        if kpi.None? {
          return Unavailable(Compare);
        }
        lastContentType := Some(ComparisonContent);
        return Ranking(RankingAsWritten(kpi.value, dims));
      case Strengths =>
        if kpi.None? {
          return Unavailable(Strengths);
        }
        lastContentType := Some(StrengthsContent);
        return Strongest(kpi.value.bestDimension.name);
      case Areas =>
        if kpi.None? {
          return Unavailable(Areas);
        }
        lastContentType := Some(AreasContent);
        return Weakest(kpi.value.lowestDimension.name);
      case _ =>
        assert false;
    }
  }

  /** `intentCountsRef.current[intent] || 0`. */
  function CountOf(counts: map<Intent, nat>, intent: Intent): nat
  {
    if intent in counts then counts[intent] else 0
  }

  /** `intentCountsRef.current[intent] = (intentCountsRef.current[intent] || 0) + 1`. */
  function Bump(counts: map<Intent, nat>, intent: Intent): map<Intent, nat>
  {
    counts[intent := CountOf(counts, intent) + 1]
  }

  /** A message adds one to the count of its own intent and leaves every other count alone. */
  lemma BumpCounts(counts: map<Intent, nat>, intent: Intent, other: Intent)
    ensures CountOf(Bump(counts, intent), intent) == CountOf(counts, intent) + 1
    ensures other != intent ==> CountOf(Bump(counts, intent), other) == CountOf(counts, other)
    ensures Bump(counts, intent).Keys == counts.Keys + {intent}
  {
  }
}
