/**
 * The text rules of the dashboard assistant (src/components/FloatingChatbot.tsx):
 * the keyword table that picks one intent per message, the role-selection
 * test, the percentage scale and its status bands, the improvement
 * suggestions per dimension, and the markdown stripping applied to replies.
 */
module ChatText {
  import opened Base
  import opened Text
  import opened Tables

  // ---- Intent detection ----

  /** The labels `detectIntent` can return, plus the `reassurance` case the reply switch handles. */
  datatype Intent =
    | Overall | Trends | Compare | Dimensions | Strengths | Areas | Improve
    | Meaning | Kpi | Charts | Help | Reassurance | Default

  /** One `if` of `detectIntent`: its label and every phrase it tests with `includes` or its regex. */
  datatype Rule = Rule(intent: Intent, patterns: seq<string>)

  const OverallRule := Rule(Overall, ["performance snapshot", "see overall", "show overall", "overall performance",
                                      "kpi", "index", "current performance"])
  const TrendsRule := Rule(Trends, ["stability", "performance stability", "trends", "trend", "trends", "changing",
                                    "improving", "declining", "direction"])
  const CompareRule := Rule(Compare, ["dimension comparison", "compare"])
  const DimensionsRule := Rule(Dimensions, ["dimension score breakdown", "score breakdown", "show all",
                                            "dimension score"])
  const StrengthsRule := Rule(Strengths, ["top-performing", "top performing", "top-performing dimension", "best area"])
  const AreasRule := Rule(Areas, ["priority improvement", "priority", "what needs attention", "needs attention"])
  const ImproveRule := Rule(Improve, ["strategic improvement", "how can we improve", "how to improve",
                                      "recommended next actions", "actions"])
  const MeaningRule := Rule(Meaning, ["what each metric", "what each metric measures", "understanding metrics",
                                      "what each metric"])
  const KpiRule := Rule(Kpi, ["how kpi", "how kpis", "how kpi", "how kpis are calculated", "how kpis are", "how kpis"])
  const ChartsRule := Rule(Charts, ["interpret charts", "how to interpret", "interpret chart"])
  const HelpRule := Rule(Help, ["help", "what can"])

  /**
   * The rules in their order of priority. A regular expression made of
   * literal alternatives matches exactly when one of them occurs, so each
   * alternative is a pattern of its own.
   */
  const Rules: seq<Rule> := [OverallRule, TrendsRule, CompareRule, DimensionsRule, StrengthsRule, AreasRule,
                             ImproveRule, MeaningRule, KpiRule, ChartsRule, HelpRule]

  /** Some pattern occurs in `t`. */
  predicate Matches(t: string, patterns: seq<string>)
  {
    patterns != [] && (Contains(t, patterns[0]) || Matches(t, patterns[1..]))
  }

  lemma {:induction false} MatchesAt(t: string, patterns: seq<string>, i: nat)
    requires i < |patterns| && Contains(t, patterns[i])
    ensures Matches(t, patterns)
    decreases i
  {
    if i > 0 {
      MatchesAt(t, patterns[1..], i - 1);
    }
  }

  lemma {:induction false} MatchesWitness(t: string, patterns: seq<string>) returns (i: nat)
    requires Matches(t, patterns)
    ensures i < |patterns| && Contains(t, patterns[i])
    decreases |patterns|
  {
    if Contains(t, patterns[0]) {
      i := 0;
    } else {
      var j := MatchesWitness(t, patterns[1..]);
      i := j + 1;
    }
  }

  /** The label of the first rule that matches, `Default` when none does. */
  function Detect(t: string, rules: seq<Rule>): (r: Intent)
    ensures r == Default || exists i :: 0 <= i < |rules| && rules[i].intent == r
    ensures rules != [] && Matches(t, rules[0].patterns) ==> r == rules[0].intent
  {
    if rules == [] then Default
    else if Matches(t, rules[0].patterns) then rules[0].intent
    else
      var r := Detect(t, rules[1..]);
      assert r != Default ==> exists i :: 0 <= i < |rules| - 1 && rules[1..][i].intent == r;
      r
  }

  /**
   * Priority order: the answer is the label of rule `i`, no rule before `i`
   * matches and rule `i` does; or no rule matches and the answer is `Default`.
   */
  lemma {:induction false} DetectFirst(t: string, rules: seq<Rule>) returns (i: nat)
    ensures i <= |rules|
    ensures forall k :: 0 <= k < i ==> !Matches(t, rules[k].patterns)
    ensures i < |rules| ==> Matches(t, rules[i].patterns) && Detect(t, rules) == rules[i].intent
    ensures i == |rules| ==> Detect(t, rules) == Default
    decreases |rules|
  {
    if rules == [] || Matches(t, rules[0].patterns) {
      i := 0;
    } else {
      var j := DetectFirst(t, rules[1..]);
      i := j + 1;
    }
  }

  /** `detectIntent(text)`: the text is lower-cased, then matched against the rules in order. */
  function DetectIntent(text: string): Intent
  {
    Detect(Lower(text), Rules)
  }

  /** Each phrase of the `kpi` rule contains "kpi". */
  lemma KpiPatternsMentionKpi(i: nat)
    requires i < |Rules[8].patterns|
    ensures Contains(Rules[8].patterns[i], "kpi")
  {
    var p := Rules[8].patterns[i];
    assert p[4..7] == "kpi";
    ContainsAt(p, "kpi", 4);
  }

  /** No rule of `rules` carries the label `x`. */
  predicate Unlabelled(rules: seq<Rule>, x: Intent)
  {
    forall i :: 0 <= i < |rules| ==> rules[i].intent != x
  }

  lemma {:induction false} DetectUnlabelled(t: string, rules: seq<Rule>, x: Intent)
    requires Unlabelled(rules, x) && x != Default
    ensures Detect(t, rules) != x
    decreases |rules|
  {
    if rules != [] {
      assert Unlabelled(rules[1..], x) by {
        forall i | 0 <= i < |rules| - 1 ensures rules[1..][i].intent != x {
          assert rules[1..][i] == rules[i + 1];
        }
      }
      DetectUnlabelled(t, rules[1..], x);
    }
  }

  /** The `reassurance` label belongs to no rule, so no message reaches that reply. */
  lemma DetectIntentNeverReassurance(text: string)
    ensures DetectIntent(text) != Reassurance
  {
    DetectUnlabelled(Lower(text), Rules, Reassurance);
  }

  /** The `kpi` label belongs to the ninth rule alone. */
  lemma OnlyKpiRule(i: nat)
    requires i < |Rules| && Rules[i].intent == Kpi
    ensures i == 8
  {
  }

  /**
   * No message is ever classified as `kpi`: every `kpi` phrase contains
   * "kpi", which the first rule already matches.
   */
  lemma DetectIntentNeverKpi(text: string)
    ensures DetectIntent(text) != Kpi
  {
    var t := Lower(text);
    var i := DetectFirst(t, Rules);
    if i < |Rules| && Rules[i].intent == Kpi {
      OnlyKpiRule(i);
      var p := MatchesWitness(t, Rules[8].patterns);
      KpiPatternsMentionKpi(p);
      ContainsTrans(t, Rules[8].patterns[p], "kpi");
      MatchesAt(t, Rules[0].patterns, 4);
      assert false;
    }
  }

  /** The suggested question "How KPIs are calculated" is answered as `overall`. */
  lemma KpiQuestionIsOverall()
    ensures DetectIntent("How KPIs are calculated") == Overall
  {
    var t := Lower("How KPIs are calculated");
    assert forall k :: 0 <= k < |t| ==> t[k] == "how kpis are calculated"[k];
    assert t == "how kpis are calculated";
    assert t[4..7] == "kpi";
    ContainsAt(t, "kpi", 4);
    MatchesAt(t, Rules[0].patterns, 4);
  }

  // ---- Role selection ----

  /** `isRoleSelection`: the lower-cased, trimmed message is "staff" or "1". */
  predicate IsRoleSelection(message: string)
  {
    var m := Trim(Lower(message));
    m == "staff" || m == "1"
  }

  /** Lower-casing works character by character, so it distributes over concatenation. */
  lemma LowerAppend(a: string, b: string)
    ensures Lower(a + b) == Lower(a) + Lower(b)
  {
    assert forall k :: 0 <= k < |a + b| ==> Lower(a + b)[k] == (Lower(a) + Lower(b))[k];
  }

  lemma LowerKeepsSpaces(s: string)
    requires forall k :: 0 <= k < |s| ==> IsJsSpace(s[k])
    ensures Lower(s) == s
  {
  }

  /** Lower-casing a padded word lower-cases the word alone. */
  lemma LowerPadded(pre: string, word: string, post: string)
    requires forall k :: 0 <= k < |pre| ==> IsJsSpace(pre[k])
    requires forall k :: 0 <= k < |post| ==> IsJsSpace(post[k])
    ensures Lower(pre + word + post) == pre + Lower(word) + post
  {
    LowerAppend(pre, word);
    LowerAppend(pre + word, post);
    LowerKeepsSpaces(pre);
    LowerKeepsSpaces(post);
  }

  lemma TrimmedRoleWord(pre: string, w: string, post: string)
    requires forall k :: 0 <= k < |pre| ==> IsJsSpace(pre[k])
    requires forall k :: 0 <= k < |post| ==> IsJsSpace(post[k])
    requires w == "staff" || w == "1"
    ensures Trim(pre + w + post) == w
  {
    TrimOfPadded(pre, w, post);
  }

  /** A role word in any mix of case, with white space around it, is a role selection. */
  lemma PaddedRoleWord(pre: string, word: string, post: string)
    requires forall k :: 0 <= k < |pre| ==> IsJsSpace(pre[k])
    requires forall k :: 0 <= k < |post| ==> IsJsSpace(post[k])
    requires Lower(word) == "staff" || Lower(word) == "1"
    ensures IsRoleSelection(pre + word + post)
  {
    LowerPadded(pre, word, post);
    TrimmedRoleWord(pre, Lower(word), post);
  }

  // ---- The 0-7 scale as a percentage, and its status bands ----

  /** `scoreToPercentage`: `score / 7 * 100`. */
  function ScoreToPercentage(score: real): (p: real)
    ensures 0.0 <= score <= 7.0 ==> 0.0 <= p <= 100.0
    ensures score == 7.0 ==> p == 100.0
  {
    score / 7.0 * 100.0
  }

  /** The labels of `getRehabServEStatus`, best first. */
  datatype Status = Outstanding | Excellent | VeryGood | Good | NeedsImprovement
  {
    function Rank(): nat
    {
      match this
      case Outstanding => 0
      case Excellent => 1
      case VeryGood => 2
      case Good => 3
      case NeedsImprovement => 4
    }
  }

  /** `getRehabServEStatus`: cut-offs at 93, 90, 85 and 80 percent, each inclusive. */
  function StatusOf(percentage: real): (s: Status)
    ensures s == Outstanding <==> percentage >= 93.0
    ensures s == NeedsImprovement <==> percentage < 80.0
  {
    if percentage >= 93.0 then Outstanding
    else if percentage >= 90.0 then Excellent
    else if percentage >= 85.0 then VeryGood
    else if percentage >= 80.0 then Good
    else NeedsImprovement
  }

  /** A higher percentage never gives a worse status. */
  lemma StatusMonotone(x: real, y: real)
    requires x <= y
    ensures StatusOf(y).Rank() <= StatusOf(x).Rank()
  {
  }

  /** The bands read on the 0-7 scale: 6.51, 6.3, 5.95 and 5.6. */
  lemma StatusOnScoreScale(score: real)
    ensures StatusOf(ScoreToPercentage(score)) == Outstanding <==> score >= 6.51
    ensures StatusOf(ScoreToPercentage(score)) == Excellent <==> 6.3 <= score < 6.51
    ensures StatusOf(ScoreToPercentage(score)) == VeryGood <==> 5.95 <= score < 6.3
    ensures StatusOf(ScoreToPercentage(score)) == Good <==> 5.6 <= score < 5.95
    ensures StatusOf(ScoreToPercentage(score)) == NeedsImprovement <==> score < 5.6
  {
  }

  // ---- Improvement suggestions ----

  /** The dimension whose label is `name`, if any. */
  function DimensionNamed(name: string): (r: Option<Dimension>)
    ensures r.Some? ==> r.value.Label() == name
    ensures r.None? ==> forall d: Dimension :: d.Label() != name
  {
    if name == TraineeOrientation.Label() then Some(TraineeOrientation)
    else if name == PerformanceOrientation.Label() then Some(PerformanceOrientation)
    else if name == CompetitorOrientation.Label() then Some(CompetitorOrientation)
    else if name == LongTermFocus.Label() then Some(LongTermFocus)
    else if name == InterFunctionalCoordination.Label() then Some(InterFunctionalCoordination)
    else if name == EmployeeOrientation.Label() then Some(EmployeeOrientation)
    else None
  }

  /** The entry of the suggestion table for a dimension. */
  function Suggestion(d: Dimension): string
  {
    match d
    case TraineeOrientation =>
      "focus on understanding individual trainee needs, regularly assess satisfaction, and tailor programs to unique abilities"
    case PerformanceOrientation =>
      "establish clear performance metrics, implement regular monitoring systems, and commit resources to service excellence"
    case CompetitorOrientation =>
      "monitor competitor activities, learn from best practices in other centers, and differentiate your services"
    case LongTermFocus =>
      "develop strategic plans, invest in sustainable resources, and emphasize continuous improvement initiatives"
    case InterFunctionalCoordination =>
      "improve inter-departmental communication, establish regular coordination meetings, and promote collaborative practices"
    case EmployeeOrientation =>
      "invest in staff training programs, enhance employee motivation, and ensure adequate staffing levels"
  }

  const FallbackSuggestion: string := "review current practices and identify specific areas for improvement"

  /** `getDimensionSuggestions(name)`: the table entry for a dimension label, the general advice otherwise. */
  function SuggestionFor(name: string): (text: string)
    ensures forall d: Dimension :: d.Label() == name ==> text == Suggestion(d)
    ensures (forall d: Dimension :: d.Label() != name) ==> text == FallbackSuggestion
  {
    match DimensionNamed(name)
    case Some(d) => DimensionOrderLabels(); Suggestion(d)
    case None => FallbackSuggestion
  }

  lemma DimensionOrderLabels()
    ensures forall d: Dimension, e: Dimension :: d.Label() == e.Label() ==> d == e
  {
    forall d: Dimension, e: Dimension | d.Label() == e.Label() ensures d == e {
      DimensionOrder(d, e);
    }
  }

  // ---- Markdown stripping ----

  /** The number of '#' characters `s` starts with. */
  function HashRun(s: string): (n: nat)
    ensures n <= |s|
    ensures forall k :: 0 <= k < n ==> s[k] == '#'
    ensures n < |s| ==> s[n] != '#'
  {
    if s != [] && s[0] == '#' then 1 + HashRun(s[1..]) else 0
  }

  /**
   * `replace(/#{1,6}\s/g, '')`: at each position, a run of one to six '#'
   * followed by a white-space character is deleted; a longer run never
   * matches, since the character after six '#' is another '#'.
   */
  function StripHeadings(s: string): string
    decreases |s|
  {
    if s == [] then []
    else
      var n := HashRun(s);
      if 1 <= n <= 6 && n < |s| && IsJsSpace(s[n]) then StripHeadings(s[n + 1..])
      else [s[0]] + StripHeadings(s[1..])
  }

  /**
   * A link at the start of `s`: '[', a non-empty text without ']' up to
   * position `j`, then "](", a non-empty target without ')' and the ')' at
   * position `e`.
   */
  function LinkAt(s: string): (r: Option<(nat, nat)>)
    ensures r.Some? ==> 1 < r.value.0 && r.value.0 + 2 < r.value.1 < |s|
    ensures r.Some? ==> s[0] == '[' && s[r.value.0] == ']' && s[r.value.0 + 1] == '(' && s[r.value.1] == ')'
  {
    if s == [] || s[0] != '[' then None
    else
      var j := IndexOf(s[1..], ']');
      if j >= 1 && j + 2 < |s| && s[j + 2] == '(' then
        var k := IndexOf(s[j + 3..], ')');
        if k >= 1 then Some((j + 1, j + 3 + k)) else None
      else None
  }

  /** One step of the link replacement: what is emitted for the start of `s`, and what is left to scan. */
  function UnwrapStep(s: string): (r: (string, string))
    requires s != []
    ensures |r.1| < |s|
    ensures forall c :: c in r.0 ==> c in s
  {
    var link := LinkAt(s);
    if link.Some? then
      var text := s[1..link.value.0];
      assert forall c :: c in text ==> c in s by {
        forall c | c in text ensures c in s {
          var m :| 0 <= m < |text| && text[m] == c;
          assert s[m + 1] == c;
        }
      }
      (text, s[link.value.1 + 1..])
    else ([s[0]], s[1..])
  }

  /** `replace(/\[([^\]]+)\]\([^\)]+\)/g, '$1')`: every link becomes its text. */
  function UnwrapLinks(s: string): string
    decreases |s|
  {
    if s == [] then []
    else
      var step := UnwrapStep(s);
      step.0 + UnwrapLinks(step.1)
  }

  /**
   * The icon patterns of the last replacement. They are four-character
   * strings: the UTF-8 bytes of six emoji read back as Windows-1252 text.
   */
  const IconPatterns: seq<string> := [
    "\U{00F0}\U{0178}\U{201C}\U{0160}", "\U{00F0}\U{0178}\U{201C}\U{02C6}", "\U{00F0}\U{0178}\U{017D}\U{00AF}",
    "\U{00F0}\U{0178}\U{2019}\U{00A1}", "\U{00F0}\U{0178}\U{201C}\U{2030}", "\U{00F0}\U{0178}\U{201C}\U{2039}"
  ]

  /** The first pattern `s` starts with, by its position in `pats`. */
  function FirstPrefix(s: string, pats: seq<string>): (r: Option<nat>)
    ensures r.Some? ==> r.value < |pats| && StartsWith(s, pats[r.value])
    ensures r.None? ==> forall i :: 0 <= i < |pats| ==> !StartsWith(s, pats[i])
  {
    if pats == [] then None
    else if StartsWith(s, pats[0]) then Some(0)
    else match FirstPrefix(s, pats[1..])
      case Some(i) => Some(i + 1)
      case None => None
  }

  /** `replace(/p1|p2|.../g, '')` for non-empty literal alternatives, tried in order at each position. */
  function RemovePatterns(s: string, pats: seq<string>): string
    requires forall i :: 0 <= i < |pats| ==> |pats[i]| > 0
    decreases |s|
  {
    if s == [] then []
    else match FirstPrefix(s, pats)
      case Some(i) => RemovePatterns(s[|pats[i]|..], pats)
      case None => [s[0]] + RemovePatterns(s[1..], pats)
  }

  /** `removeMarkdown`: the seven replacements, in order. */
  function RemoveMarkdown(text: string): string
  {
    var t := ReplaceAll(ReplaceAll(ReplaceAll(ReplaceAll(text, "**", ""), "*", ""), "_", ""), "`", "");
    RemovePatterns(UnwrapLinks(StripHeadings(t)), IconPatterns)
  }

  lemma {:induction false} StripHeadingsDeletes(s: string, c: char)
    requires c in StripHeadings(s)
    ensures c in s
    decreases |s|
  {
    var n := HashRun(s);
    if 1 <= n <= 6 && n < |s| && IsJsSpace(s[n]) {
      StripHeadingsDeletes(s[n + 1..], c);
    } else if c != s[0] {
      StripHeadingsDeletes(s[1..], c);
    }
  }

  lemma {:induction false} UnwrapLinksDeletes(s: string, c: char)
    requires c in UnwrapLinks(s)
    ensures c in s
    decreases |s|
  {
    var step := UnwrapStep(s);
    if c !in step.0 {
      UnwrapLinksDeletes(step.1, c);
    }
  }

  lemma {:induction false} RemovePatternsDeletes(s: string, pats: seq<string>, c: char)
    requires forall i :: 0 <= i < |pats| ==> |pats[i]| > 0
    requires c in RemovePatterns(s, pats)
    ensures c in s
    decreases |s|
  {
    match FirstPrefix(s, pats)
    case Some(i) =>
      RemovePatternsDeletes(s[|pats[i]|..], pats, c);
    case None =>
      if c != s[0] {
        RemovePatternsDeletes(s[1..], pats, c);
      }
  }

  /** Markdown stripping leaves no '*', '_' or '`' in a reply. */
  lemma RemoveMarkdownClean(text: string)
    ensures '*' !in RemoveMarkdown(text) && '_' !in RemoveMarkdown(text) && '`' !in RemoveMarkdown(text)
  {
    var t1 := ReplaceAll(text, "**", "");
    var t2 := ReplaceAll(t1, "*", "");
    var t3 := ReplaceAll(t2, "_", "");
    var t4 := ReplaceAll(t3, "`", "");
    ReplaceAllRemovesChar(t1, '*');
    ReplaceAllRemovesChar(t2, '_');
    ReplaceAllRemovesChar(t3, '`');
    forall c | c == '*' || c == '_' || c == '`' ensures c !in RemoveMarkdown(text) {
      assert c !in t4 by {
        if c in t4 {
          ReplaceAllDeletes(t3, "`", c);
          if c != '`' {
            ReplaceAllDeletes(t2, "_", c);
          }
        }
      }
      if c in RemoveMarkdown(text) {
        RemovePatternsDeletes(UnwrapLinks(StripHeadings(t4)), IconPatterns, c);
        UnwrapLinksDeletes(StripHeadings(t4), c);
        StripHeadingsDeletes(t4, c);
      }
    }
  }

  /** A pattern that occurs in `s` has its first character in `s`. */
  lemma ContainsFirst(s: string, p: string)
    requires |p| > 0 && Contains(s, p)
    ensures p[0] in s
  {
    var i := ContainsWitness(s, p);
    assert s[i..i + |p|][0] == s[i];
  }

  lemma {:induction false} StripHeadingsPlain(s: string)
    requires '#' !in s
    ensures StripHeadings(s) == s
    decreases |s|
  {
    if s != [] {
      StripHeadingsPlain(s[1..]);
      assert [s[0]] + s[1..] == s;
    }
  }

  lemma {:induction false} UnwrapLinksPlain(s: string)
    requires '[' !in s
    ensures UnwrapLinks(s) == s
    decreases |s|
  {
    if s != [] {
      UnwrapLinksPlain(s[1..]);
      assert [s[0]] + s[1..] == s;
    }
  }

  lemma {:induction false} RemovePatternsPlain(s: string, pats: seq<string>, c: char)
    requires forall i :: 0 <= i < |pats| ==> |pats[i]| > 0 && pats[i][0] == c
    requires c !in s
    ensures RemovePatterns(s, pats) == s
    decreases |s|
  {
    if s != [] {
      forall i | 0 <= i < |pats| ensures !StartsWith(s, pats[i]) {
        assert s[0] in s;
        assert |pats[i]| <= |s| ==> s[..|pats[i]|][0] == s[0];
      }
      RemovePatternsPlain(s[1..], pats, c);
      assert [s[0]] + s[1..] == s;
    }
  }

  /** Text with no markdown marker, no '[' and no icon lead character comes through unchanged. */
  lemma RemoveMarkdownKeepsPlain(text: string)
    requires forall c :: c in text ==> c !in "*_`#[\U{00F0}"
    ensures RemoveMarkdown(text) == text
  {
    forall p | p in ["**", "*", "_", "`"] ensures !Contains(text, p) {
      if Contains(text, p) {
        ContainsFirst(text, p);
      }
    }
    ReplaceAllAbsent(text, "**", "");
    ReplaceAllAbsent(text, "*", "");
    ReplaceAllAbsent(text, "_", "");
    ReplaceAllAbsent(text, "`", "");
    StripHeadingsPlain(text);
    UnwrapLinksPlain(text);
    RemovePatternsPlain(text, IconPatterns, '\U{00F0}');
  }
}
