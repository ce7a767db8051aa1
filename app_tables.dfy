/**
 * The fixed lookup tables of src/App.tsx and the three-level rule that routes
 * a sheet column to one of the six survey dimensions: the column-letter table
 * first, then keywords in the column header, then legacy index ranges.
 */
module Tables {
  import opened Base
  import opened Text
  import opened Columns

  /** The six dimensions, in the key order of `dimensionMappings`. */
  datatype Dimension =
    | TraineeOrientation
    | PerformanceOrientation
    | CompetitorOrientation
    | LongTermFocus
    | InterFunctionalCoordination
    | EmployeeOrientation
  {
    /** The key of `dimensionMappings`, also used as the dimension's label. */
    function Label(): string
    {
      match this
      case TraineeOrientation => "Trainee Orientation"
      case PerformanceOrientation => "Performance Orientation"
      case CompetitorOrientation => "Competitor Orientation"
      case LongTermFocus => "Long-term Focus"
      case InterFunctionalCoordination => "Inter-functional Coordination"
      case EmployeeOrientation => "Employee Orientation"
    }

    /** The `value` field of `dimensionMappings`. */
    function Value(): string
    {
      match this
      case TraineeOrientation => "training_orientation"
      case PerformanceOrientation => "performance_orientation"
      case CompetitorOrientation => "competitor_orientation"
      case LongTermFocus => "long_term_focus"
      case InterFunctionalCoordination => "inter_functional_coordination"
      case EmployeeOrientation => "employee_orientation"
    }

    /** Position in `Object.keys(dimensionMappings)`. */
    function Rank(): nat
    {
      match this
      case TraineeOrientation => 0
      case PerformanceOrientation => 1
      case CompetitorOrientation => 2
      case LongTermFocus => 3
      case InterFunctionalCoordination => 4
      case EmployeeOrientation => 5
    }
  }

  const Dimensions: seq<Dimension> := [TraineeOrientation, PerformanceOrientation, CompetitorOrientation,
                                       LongTermFocus, InterFunctionalCoordination, EmployeeOrientation]

  /** Every dimension occurs once in the order, at its rank; labels and values tell dimensions apart. */
  lemma DimensionOrder(d: Dimension, e: Dimension)
    ensures |Dimensions| == 6 && d.Rank() < 6 && Dimensions[d.Rank()] == d
    ensures d != e ==> d.Rank() != e.Rank() && d.Label() != e.Label() && d.Value() != e.Value()
  {
  }

  datatype QuestionInfo = QuestionInfo(questionNumber: nat, questionId: string)

  /** `EXCEL_COLUMN_TO_QUESTION_MAP`: columns X..BI carry questions 1..38. */
  const ColumnQuestions: map<string, QuestionInfo> := map[
    "X" := QuestionInfo(1, "TO1"),
    "Y" := QuestionInfo(2, "TO2"),
    "Z" := QuestionInfo(3, "TO3"),
    "AA" := QuestionInfo(4, "TO4"),
    "AB" := QuestionInfo(5, "TO5"),
    "AC" := QuestionInfo(6, "TO6"),
    "AD" := QuestionInfo(7, "PO1"),
    "AE" := QuestionInfo(8, "PO2"),
    "AF" := QuestionInfo(9, "PO3"),
    "AG" := QuestionInfo(10, "PO4"),
    "AH" := QuestionInfo(11, "PO5"),
    "AI" := QuestionInfo(12, "PO6"),
    "AJ" := QuestionInfo(13, "CO1"),
    "AK" := QuestionInfo(14, "CO2"),
    "AL" := QuestionInfo(15, "CO3"),
    "AM" := QuestionInfo(16, "CO4"),
    "AN" := QuestionInfo(17, "CO5"),
    "AO" := QuestionInfo(18, "CO6"),
    "AP" := QuestionInfo(19, "LO1"),
    "AQ" := QuestionInfo(20, "LO2"),
    "AR" := QuestionInfo(21, "LO3"),
    "AS" := QuestionInfo(22, "LO4"),
    "AT" := QuestionInfo(23, "LO5"),
    "AU" := QuestionInfo(24, "LO6"),
    "AV" := QuestionInfo(25, "LO7"),
    "AW" := QuestionInfo(26, "LO8"),
    "AX" := QuestionInfo(27, "IO1"),
    "AY" := QuestionInfo(28, "IO2"),
    "AZ" := QuestionInfo(29, "IO3"),
    "BA" := QuestionInfo(30, "IO4"),
    "BB" := QuestionInfo(31, "IO5"),
    "BC" := QuestionInfo(32, "IO6"),
    "BD" := QuestionInfo(33, "EO1"),
    "BE" := QuestionInfo(34, "EO2"),
    "BF" := QuestionInfo(35, "EO3"),
    "BG" := QuestionInfo(36, "EO4"),
    "BH" := QuestionInfo(37, "EO5"),
    "BI" := QuestionInfo(38, "EO6")]

  /** `QUESTION_ID_TO_DIMENSION`. */
  const QuestionDimensions: map<string, Dimension> := map[
    "TO1" := TraineeOrientation,
    "TO2" := TraineeOrientation,
    "TO3" := TraineeOrientation,
    "TO4" := TraineeOrientation,
    "TO5" := TraineeOrientation,
    "TO6" := TraineeOrientation,
    "PO1" := PerformanceOrientation,
    "PO2" := PerformanceOrientation,
    "PO3" := PerformanceOrientation,
    "PO4" := PerformanceOrientation,
    "PO5" := PerformanceOrientation,
    "PO6" := PerformanceOrientation,
    "CO1" := CompetitorOrientation,
    "CO2" := CompetitorOrientation,
    "CO3" := CompetitorOrientation,
    "CO4" := CompetitorOrientation,
    "CO5" := CompetitorOrientation,
    "CO6" := CompetitorOrientation,
    "LO1" := LongTermFocus,
    "LO2" := LongTermFocus,
    "LO3" := LongTermFocus,
    "LO4" := LongTermFocus,
    "LO5" := LongTermFocus,
    "LO6" := LongTermFocus,
    "LO7" := LongTermFocus,
    "LO8" := LongTermFocus,
    "IO1" := InterFunctionalCoordination,
    "IO2" := InterFunctionalCoordination,
    "IO3" := InterFunctionalCoordination,
    "IO4" := InterFunctionalCoordination,
    "IO5" := InterFunctionalCoordination,
    "IO6" := InterFunctionalCoordination,
    "EO1" := EmployeeOrientation,
    "EO2" := EmployeeOrientation,
    "EO3" := EmployeeOrientation,
    "EO4" := EmployeeOrientation,
    "EO5" := EmployeeOrientation,
    "EO6" := EmployeeOrientation]

  /** `getQuestionInfo`: the question a column letter carries, if any. */
  function QuestionOfColumn(column: string): Option<QuestionInfo>
  {
    if column in ColumnQuestions then Some(ColumnQuestions[column]) else None
  }

  /** `getQuestionInfoByIndex`: the question carried by the column at a 0-based index. */
  function QuestionInfoAt(index: nat): Option<QuestionInfo>
  {
    QuestionOfColumn(LettersOf(index + 1))
  }

  /** `getDimensionFromQuestionId`. */
  function DimensionOfQuestion(questionId: string): Option<Dimension>
  {
    if questionId in QuestionDimensions then Some(QuestionDimensions[questionId]) else None
  }

  /** `getDimensionFromExcelColumnIndex`. */
  function DimensionOfColumnIndex(index: nat): Option<Dimension>
  {
    match QuestionInfoAt(index)
    case Some(q) => DimensionOfQuestion(q.questionId)
    case None => None
  }

  lemma ColumnsAtoW(c: char)
    requires 'A' <= c <= 'W'
    ensures [c] !in ColumnQuestions
  {
  }

  lemma ColumnsXtoZ(c: char)
    requires 'X' <= c <= 'Z'
    ensures [c] in ColumnQuestions
    ensures ColumnQuestions[[c]].questionNumber == c as int - 87
    ensures ColumnQuestions[[c]].questionId in QuestionDimensions
  {
  }

  lemma QuestionsInColumnsAtoZ(i: nat)
    requires i <= 25
    ensures QuestionInfoAt(i).Some? <==> 23 <= i
    ensures QuestionInfoAt(i).Some? ==> QuestionInfoAt(i).value.questionNumber == i - 22
    ensures QuestionInfoAt(i).Some? ==> QuestionInfoAt(i).value.questionId in QuestionDimensions
  {
    LettersOfOne(i + 1);
    var c := (65 + i) as char;
    assert LettersOf(i + 1) == [c];
    if i < 23 {
      ColumnsAtoW(c);
    } else {
      ColumnsXtoZ(c);
    }
  }

  // Every column AA..AZ carries a question; its number is the second letter's rank plus 3.
  lemma ColumnsAAtoAI(c: char)
    requires 'A' <= c <= 'I'
    ensures ['A', c] in ColumnQuestions
    ensures ColumnQuestions[['A', c]].questionNumber == c as int - 61
    ensures ColumnQuestions[['A', c]].questionId in QuestionDimensions
  {
  }

  lemma ColumnsAJtoAR(c: char)
    requires 'J' <= c <= 'R'
    ensures ['A', c] in ColumnQuestions
    ensures ColumnQuestions[['A', c]].questionNumber == c as int - 61
    ensures ColumnQuestions[['A', c]].questionId in QuestionDimensions
  {
  }

  lemma ColumnsAStoAZ(c: char)
    requires 'S' <= c <= 'Z'
    ensures ['A', c] in ColumnQuestions
    ensures ColumnQuestions[['A', c]].questionNumber == c as int - 61
    ensures ColumnQuestions[['A', c]].questionId in QuestionDimensions
  {
  }

  lemma QuestionsInColumnsAAtoAZ(i: nat)
    requires 26 <= i <= 51
    ensures QuestionInfoAt(i).Some?
    ensures QuestionInfoAt(i).value.questionNumber == i - 22
    ensures QuestionInfoAt(i).value.questionId in QuestionDimensions
  {
    LettersOfTwo(i + 1);
    var c := (65 + i - 26) as char;
    assert LettersOf(i + 1) == ['A', c];
    if c <= 'I' {
      ColumnsAAtoAI(c);
    } else if c <= 'R' {
      ColumnsAJtoAR(c);
    } else {
      ColumnsAStoAZ(c);
    }
  }

  lemma ColumnsBAtoBI(c: char)
    requires 'A' <= c <= 'I'
    ensures ['B', c] in ColumnQuestions
    ensures ColumnQuestions[['B', c]].questionNumber == c as int - 35
    ensures ColumnQuestions[['B', c]].questionId in QuestionDimensions
  {
  }

  lemma ColumnsBJtoBZ(c: char)
    requires 'J' <= c <= 'Z'
    ensures ['B', c] !in ColumnQuestions
  {
  }

  lemma QuestionsInColumnsBAtoBZ(i: nat)
    requires 52 <= i <= 77
    ensures QuestionInfoAt(i).Some? <==> i <= 60
    ensures QuestionInfoAt(i).Some? ==> QuestionInfoAt(i).value.questionNumber == i - 22
    ensures QuestionInfoAt(i).Some? ==> QuestionInfoAt(i).value.questionId in QuestionDimensions
  {
    LettersOfTwo(i + 1);
    var c := (65 + i - 52) as char;
    assert LettersOf(i + 1) == ['B', c];
    if i <= 60 {
      ColumnsBAtoBI(c);
    } else {
      ColumnsBJtoBZ(c);
    }
  }

  lemma NoQuestionsFromColumnCA(i: nat)
    requires 78 <= i
    ensures QuestionInfoAt(i).None?
  {
    if i <= 701 {
      LettersOfTwo(i + 1);
      assert LettersOf(i + 1)[0] >= 'C';
    } else {
      LettersOfLong(i + 1);
    }
  }

  /**
   * `getQuestionInfoByIndex(i)` is non-null exactly for i in 23..60 (columns
   * X..BI); it then carries question i - 22, whose id has a dimension.
   */
  lemma QuestionInfoAtRange(i: nat)
    ensures QuestionInfoAt(i).Some? <==> 23 <= i <= 60
    ensures QuestionInfoAt(i).Some? ==> QuestionInfoAt(i).value.questionNumber == i - 22
    ensures QuestionInfoAt(i).Some? ==> QuestionInfoAt(i).value.questionId in QuestionDimensions
    ensures DimensionOfColumnIndex(i).Some? <==> 23 <= i <= 60
  {
    if i <= 25 {
      QuestionsInColumnsAtoZ(i);
    } else if i <= 51 {
      QuestionsInColumnsAAtoAZ(i);
    } else if i <= 77 {
      QuestionsInColumnsBAtoBZ(i);
    } else {
      NoQuestionsFromColumnCA(i);
    }
  }

  /** The header keyword lists of `getDimensionForHeader`, per dimension. */
  function KeywordsOf(d: Dimension): seq<string>
  {
    match d
    case TraineeOrientation => ["training", "latihan"]
    case PerformanceOrientation => ["service", "perkhidmatan", "servis", "performance"]
    case CompetitorOrientation => ["competitive", "competit", "competition", "market response", "respons",
                                   "responsiveness", "competitor"]
    case LongTermFocus => ["long-term", "long term", "planning", "strategic", "perancangan", "focus"]
    case InterFunctionalCoordination => ["information distribution", "distribution of information",
                                         "info distribution", "communication", "communications", "maklumat",
                                         "coordination", "koordinasi", "cross-functional"]
    case EmployeeOrientation => ["employee development", "employees development", "development of employee",
                                 "development of employees", "staff development", "pembangunan",
                                 "pembangunan staf", "pembangunan pekerja", "career development", "competency",
                                 "kompetensi", "kemahiran", "skill", "skills", "upskilling", "pegawai",
                                 "kakitangan", "human capital", "talent development", "employee orientation"]
  }

  /** `list.some(k => h.includes(k))` for the keyword list of `d`. */
  predicate HasKeyword(h: string, d: Dimension)
  {
    exists k :: 0 <= k < |KeywordsOf(d)| && Contains(h, KeywordsOf(d)[k])
  }

  /** The first dimension of `ds` that has a keyword in `h`. */
  function FirstWithKeyword(h: string, ds: seq<Dimension>): (r: Option<Dimension>)
    ensures r.None? ==> forall i :: 0 <= i < |ds| ==> !HasKeyword(h, ds[i])
    ensures r.Some? ==> exists i :: 0 <= i < |ds| && ds[i] == r.value && HasKeyword(h, ds[i])
                                    && forall j :: 0 <= j < i ==> !HasKeyword(h, ds[j])
  {
    if ds == [] then None
    else if HasKeyword(h, ds[0]) then Some(ds[0])
    else
      var r := FirstWithKeyword(h, ds[1..]);
      assert r.Some? ==> exists i :: 0 <= i < |ds[1..]| && ds[1..][i] == r.value && HasKeyword(h, ds[1..][i])
                                     && forall j :: 0 <= j < i ==> !HasKeyword(h, ds[1..][j]);
      r
  }

  /**
   * `getDimensionForHeader`: the first dimension, in `dimensionMappings` order,
   * one of whose keywords occurs in the lower-cased header.
   */
  function DimensionForHeader(header: string): (r: Option<Dimension>)
    ensures r.None? ==> forall i :: 0 <= i < |Dimensions| ==> !HasKeyword(Lower(header), Dimensions[i])
    ensures r.Some? ==> HasKeyword(Lower(header), r.value)
  {
    FirstWithKeyword(Lower(header), Dimensions)
  }

  /**
   * The header rule picks the first matching dimension: none when no dimension
   * has a keyword in the header, otherwise one that has, and no dimension of
   * lower rank has one.
   */
  lemma DimensionForHeaderFirst(header: string, d: Dimension)
    ensures DimensionForHeader(header).None? ==> !HasKeyword(Lower(header), d)
    ensures (DimensionForHeader(header).Some? && d.Rank() < DimensionForHeader(header).value.Rank())
              ==> !HasKeyword(Lower(header), d)
  {
    var h := Lower(header);
    var r := DimensionForHeader(header);
    DimensionOrder(d, d);
    if r.Some? && d.Rank() < r.value.Rank() {
      var i :| 0 <= i < |Dimensions| && Dimensions[i] == r.value && HasKeyword(h, Dimensions[i])
               && forall j :: 0 <= j < i ==> !HasKeyword(h, Dimensions[j]);
      RankAt(i);
      assert d.Rank() < i;
      assert !HasKeyword(h, Dimensions[d.Rank()]);
    }
  }

  lemma RankAt(i: nat)
    requires i < |Dimensions|
    ensures Dimensions[i].Rank() == i
  {
  }

  /** `list.some(k => h.includes(k))`, keyword by keyword. */
  method SomeKeyword(h: string, list: seq<string>) returns (found: bool)
    ensures found <==> exists m :: 0 <= m < |list| && Contains(h, list[m])
  {
    found := false;
    var k := 0;
    while k < |list| && !found
      invariant 0 <= k <= |list|
      invariant found <==> exists m :: 0 <= m < k && Contains(h, list[m])
    {
      found := Contains(h, list[k]);
      k := k + 1;
    }
  }

  /** The `for ... of Object.entries(keywords)` loop: the first of `ds` with a keyword in `h`. */
  method FindFirstWithKeyword(h: string, ds: seq<Dimension>) returns (r: Option<Dimension>)
    ensures r == FirstWithKeyword(h, ds)
  {
    var i := 0;
    assert ds[0..] == ds;
    while i < |ds|
      invariant 0 <= i <= |ds|
      invariant FirstWithKeyword(h, ds) == FirstWithKeyword(h, ds[i..])
    {
      var d := ds[i];
      var found := SomeKeyword(h, KeywordsOf(d));
      if found {
        return Some(d);
      }
      assert ds[i..][1..] == ds[i + 1..];
      i := i + 1;
    }
    return None;
  }

  /** `getDimensionForHeader`, as the dashboard runs it. */
  method FindDimensionForHeader(header: string) returns (r: Option<Dimension>)
    ensures r == DimensionForHeader(header)
  {
    r := FindFirstWithKeyword(Lower(header), Dimensions);
  }

  /** `getDimensionForColumn`: the legacy index ranges, which cover exactly 16..125. */
  function DimensionForColumn(index: int): (r: Option<Dimension>)
    ensures r.Some? <==> 16 <= index <= 125
  {
    if 16 <= index <= 35 then Some(TraineeOrientation)
    else if 36 <= index <= 66 then Some(PerformanceOrientation)
    else if 67 <= index <= 80 then Some(CompetitorOrientation)
    else if 81 <= index <= 95 then Some(LongTermFocus)
    else if 96 <= index <= 110 then Some(InterFunctionalCoordination)
    else if 111 <= index <= 125 then Some(EmployeeOrientation)
    else None
  }

  /** The legacy ranges are ordered: a later column never maps to an earlier dimension. */
  lemma LegacyRangesOrdered(i: int, j: int)
    requires 16 <= i <= j <= 125
    ensures DimensionForColumn(i).value.Rank() <= DimensionForColumn(j).value.Rank()
  {
  }

  /**
   * The routing of a column (src/App.tsx, inside `processRawData`): the column
   * table, then the header keywords, then the legacy ranges; the first that
   * yields a dimension wins.
   */
  function RouteColumn(index: nat, header: string): (r: Option<Dimension>)
    ensures 23 <= index <= 60 ==> r.Some? && r == DimensionOfColumnIndex(index)
    ensures !(23 <= index <= 60) && DimensionForHeader(header).Some? ==> r == DimensionForHeader(header)
    ensures !(23 <= index <= 60) && DimensionForHeader(header).None? ==> r == DimensionForColumn(index)
    ensures r.None? <==> DimensionForHeader(header).None? && !(16 <= index <= 125)
  {
    QuestionInfoAtRange(index);
    match DimensionOfColumnIndex(index)
    case Some(d) => Some(d)
    case None =>
      match DimensionForHeader(header)
      case Some(d) => Some(d)
      case None => DimensionForColumn(index)
  }
}
