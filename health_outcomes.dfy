/**
 * The trainee health outcomes panel (src/components/HealthOutcomesChart.tsx):
 * reading the before/after health and self-management answers and the
 * satisfaction answer out of every survey row by a list of header spellings,
 * keeping the rows that have both health answers, and deriving the averages,
 * the share of trainees who improved, the improvement buckets and the
 * simulated dimension-to-health correlation.
 */
module HealthOutcomes {
  import opened Base
  import opened SeqUtil
  import opened Text
  import opened Dict
  import opened Sheet
  import opened Charts

  // ---- Reading a number out of a cell ----

  /**
   * `parseFloat` of an already trimmed text: an optional sign, then the
   * longest run of digits and dots read as a decimal; no number when no digit
   * follows the sign.
   */
  function ParseFloat(s: string): (r: Option<real>)
    ensures s != [] && s[0] == '-' && r.Some? ==> r.value <= 0.0
    ensures (s == [] || s[0] != '-') && r.Some? ==> r.value >= 0.0
    ensures s == [] ==> r.None?
  {
    if s != [] && s[0] == '-' then
      var v := ParseDecimal(NumericPrefix(s[1..]));
      if v.Some? then Some(-v.value) else None
    else if s != [] && s[0] == '+' then ParseDecimal(NumericPrefix(s[1..]))
    else ParseDecimal(NumericPrefix(s))
  }

  /** An unsigned decimal answer followed by anything but a digit or a dot reads as its value: "4.5" is 4.5. */
  lemma ParseFloatValue(ws: string, ds: string, rest: string)
    requires forall k :: 0 <= k < |ws| ==> IsDigit(ws[k])
    requires forall k :: 0 <= k < |ds| ==> IsDigit(ds[k])
    requires |ws| + |ds| > 0
    requires rest == [] || !IsDigitOrDot(rest[0])
    ensures ParseFloat(ws + "." + ds + rest) == Some(DecimalValue(ws, ds))
  {
    var u := ws + "." + ds + rest;
    ParseScoreOfDecimal(ws, ds, rest);
    assert u[0] == '.' || IsDigit(u[0]) by {
      if ws != [] { assert u[0] == ws[0]; } else { assert u[0] == '.'; }
    }
  }

  /** After a leading '-' the same answer reads as its value negated: "-2.25" is -2.25. */
  lemma ParseFloatNegative(ws: string, ds: string, rest: string)
    requires forall k :: 0 <= k < |ws| ==> IsDigit(ws[k])
    requires forall k :: 0 <= k < |ds| ==> IsDigit(ds[k])
    requires |ws| + |ds| > 0
    requires rest == [] || !IsDigitOrDot(rest[0])
    ensures ParseFloat("-" + (ws + "." + ds + rest)) == Some(-DecimalValue(ws, ds))
  {
    var u := ws + "." + ds + rest;
    ParseScoreOfDecimal(ws, ds, rest);
    assert ("-" + u)[1..] == u;
  }

  /** The readings "4.5" and "-2.25" are 4.5 and -2.25. */
  lemma ParseFloatExamples()
    ensures ParseFloat("4.5") == Some(4.5)
    ensures ParseFloat("-2.25") == Some(-2.25)
  {
    ParseFloatFourFive();
    ParseFloatMinusTwoQuarter();
  }

  lemma ParseFloatFourFive()
    ensures ParseFloat("4.5") == Some(4.5)
  {
    ParseFloatValue("4", "5", "");
    assert "4" + "." + "5" + "" == "4.5";
    DecimalFourFive();
  }

  lemma ParseFloatMinusTwoQuarter()
    ensures ParseFloat("-2.25") == Some(-2.25)
  {
    ParseFloatNegative("2", "25", "");
    assert "-" + ("2" + "." + "25" + "") == "-2.25";
    DecimalTwoQuarter();
  }

  lemma DecimalFourFive()
    ensures DecimalValue("4", "5") == 4.5
  {
    assert DigitsValue("4") == 4 && DigitsValue("5") == 5;
  }

  lemma DecimalTwoQuarter()
    ensures DecimalValue("2", "25") == 2.25
  {
    assert "25"[..1] == "2";
    assert DigitsValue("2") == 2 && DigitsValue("25") == 25;
  }

  /**
   * `parseFloat(String(v).trim())`: a number reads back as itself, a text by
   * its leading sign and digits, and `null` (the text "null") as NaN, here
   * no number.
   */
  function CellNumber(c: Cell): (r: Option<real>)
    ensures c.Num? ==> r == Some(c.n)
    ensures c.Null? ==> r.None?
  {
    match c
    case Num(x) => Some(x)
    case Str(s) => ParseFloat(Trim(s))
    case Null => None
  }

  /** `!isNaN(value) && value > 0`. */
  predicate Positive(v: Option<real>)
  {
    v.Some? && v.value > 0.0
  }

  // ---- findHeader ----

  /** `s.split(sep)[0]`: the text before the first `sep`, all of it when there is none. */
  function BeforeFirst(s: string, sep: char): (r: string)
    ensures |r| <= |s| && r == s[..|r|]
    ensures sep !in r
    ensures sep !in s ==> r == s
  {
    var i := IndexOf(s, sep);
    if i == -1 then s else s[..i]
  }

  /** `pattern.toLowerCase().split(sep)[0].trim()`. */
  function Stem(pattern: string, sep: char): string
  {
    Trim(BeforeFirst(Lower(pattern), sep))
  }

  /** The fuzzy test: the lower-cased key contains the pattern's text before ':' or before '/'. */
  predicate FuzzyMatch(key: string, pattern: string)
  {
    Contains(Lower(key), Stem(pattern, ':')) || Contains(Lower(key), Stem(pattern, '/'))
  }

  /** A row's keys, in order, each with the number its value reads as. */
  type Readings = seq<(string, Option<real>)>

  /** Every key of the row with the number its value reads as. */
  function ReadingsOf(row: Row): (r: Readings)
    ensures |r| == |row|
    ensures forall k :: 0 <= k < |row| ==> r[k] == (row[k].0, CellNumber(row[k].1))
  {
    seq(|row|, k requires 0 <= k < |row| => (row[k].0, CellNumber(row[k].1)))
  }

  /** Reading the value stored under a key is looking up the key among the readings. */
  lemma {:induction false} LookupReadings(row: Row, key: string)
    ensures Lookup(ReadingsOf(row), key) ==
              if Lookup(row, key).Some? then Some(CellNumber(Lookup(row, key).value)) else None
    decreases |row|
  {
    if row != [] {
      assert ReadingsOf(row)[1..] == ReadingsOf(row[1..]);
      LookupReadings(row[1..], key);
    }
  }

  /**
   * The exact test: the row has the pattern as a key and its value reads as a
   * positive number (`null` reads as no number, so it never passes).
   */
  function ExactValue(readings: Readings, pattern: string): (r: Option<real>)
    ensures r.Some? ==> r.value > 0.0 && Lookup(readings, pattern) == Some(r)
  {
    var c := Lookup(readings, pattern);
    if c.Some? && Positive(c.value) then c.value else None
  }

  /**
   * The inner `for (const key in row)`: the first key that `matches` the
   * pattern and whose value is a positive number.
   */
  function FuzzyValue(readings: Readings, pattern: string, matches: (string, string) -> bool): (r: Option<real>)
    ensures r.Some? ==> r.value > 0.0
  {
    if readings == [] then None
    else if matches(readings[0].0, pattern) && Positive(readings[0].1) then readings[0].1
    else FuzzyValue(readings[1..], pattern, matches)
  }

  /**
   * The search of `findHeader` with the key test `matches`: for each pattern
   * in turn, the exact key, then any matching key; 0 when no pattern yields a
   * positive number.
   */
  function Search(readings: Readings, patterns: seq<string>, matches: (string, string) -> bool): (v: real)
    ensures v >= 0.0
  {
    if patterns == [] then 0.0
    else
      var e := ExactValue(readings, patterns[0]);
      if e.Some? then e.value
      else
        var f := FuzzyValue(readings, patterns[0], matches);
        if f.Some? then f.value else Search(readings, patterns[1..], matches)
  }

  /** What `findHeader(row, patterns)` returns: the search with the fuzzy test. */
  function HeaderValue(row: Row, patterns: seq<string>): (v: real)
    ensures v >= 0.0
  {
    Search(ReadingsOf(row), patterns, FuzzyMatch)
  }

  /** `findHeader`: the nested loops with an early return. */
  method FindHeader(row: Row, patterns: seq<string>) returns (value: real)
    ensures value == HeaderValue(row, patterns)
  {
    ghost var readings := ReadingsOf(row);
    var p := 0;
    while p < |patterns|
      invariant 0 <= p <= |patterns|
      invariant HeaderValue(row, patterns) == Search(readings, patterns[p..], FuzzyMatch)
    {
      var pattern := patterns[p];
      assert patterns[p..][0] == pattern && patterns[p..][1..] == patterns[p + 1..];
      LookupReadings(row, pattern);
      var exact := Lookup(row, pattern);
      if exact.Some? && exact.value != Null {
        var v := CellNumber(exact.value);
        if v.Some? && v.value > 0.0 {
          return v.value;
        }
      }
      var k := 0;
      while k < |row|
        invariant 0 <= k <= |row|
        invariant FuzzyValue(readings, pattern, FuzzyMatch) == FuzzyValue(readings[k..], pattern, FuzzyMatch)
      {
        assert readings[k..][0] == readings[k] && readings[k..][1..] == readings[k + 1..];
        var key := row[k].0;
        if Contains(Lower(key), Stem(pattern, ':')) || Contains(Lower(key), Stem(pattern, '/')) {
          var v := CellNumber(row[k].1);
          if v.Some? && v.value > 0.0 {
            return v.value;
          }
        }
        k := k + 1;
      }
      p := p + 1;
    }
    return 0.0;
  }

  /** A fuzzy hit is the reading of an entry whose key matches the pattern. */
  lemma {:induction false} FuzzyValueSource(readings: Readings, pattern: string,
                                            matches: (string, string) -> bool) returns (k: nat)
    requires FuzzyValue(readings, pattern, matches).Some?
    ensures k < |readings| && matches(readings[k].0, pattern) && readings[k].1 == FuzzyValue(readings, pattern, matches)
    decreases |readings|
  {
    if matches(readings[0].0, pattern) && Positive(readings[0].1) {
      k := 0;
    } else {
      assert FuzzyValue(readings, pattern, matches) == FuzzyValue(readings[1..], pattern, matches);
      var j := FuzzyValueSource(readings[1..], pattern, matches);
      k := j + 1;
      assert readings[1..][j] == readings[k];
    }
  }

  /**
   * A non-zero search result is the positive reading of an entry whose key
   * is one of the patterns or matches one; every value the search accepts is
   * positive, so 0 means nothing was found.
   */
  lemma {:induction false} SearchSource(readings: Readings, patterns: seq<string>, matches: (string, string) -> bool)
    returns (k: nat, p: nat)
    requires Search(readings, patterns, matches) != 0.0
    ensures k < |readings| && p < |patterns|
    ensures readings[k].0 == patterns[p] || matches(readings[k].0, patterns[p])
    ensures readings[k].1 == Some(Search(readings, patterns, matches))
    decreases |patterns|
  {
    if ExactValue(readings, patterns[0]).Some? {
      k := LookupFound(readings, patterns[0]);
      p := 0;
    } else if FuzzyValue(readings, patterns[0], matches).Some? {
      k := FuzzyValueSource(readings, patterns[0], matches);
      p := 0;
    } else {
      assert Search(readings, patterns, matches) == Search(readings, patterns[1..], matches);
      var q;
      k, q := SearchSource(readings, patterns[1..], matches);
      p := q + 1;
      assert patterns[1..][q] == patterns[p];
    }
  }

  /**
   * A non-zero header value is the positive number held by an entry whose key
   * is one of the patterns or contains the text of one before its ':' or '/'.
   */
  lemma HeaderValueSource(row: Row, patterns: seq<string>) returns (k: nat, p: nat)
    requires HeaderValue(row, patterns) != 0.0
    ensures k < |row| && p < |patterns|
    ensures row[k].0 == patterns[p] || FuzzyMatch(row[k].0, patterns[p])
    ensures CellNumber(row[k].1) == Some(HeaderValue(row, patterns))
  {
    k, p := SearchSource(ReadingsOf(row), patterns, FuzzyMatch);
  }

  /** An exact key holding a positive number under the first pattern wins over everything else. */
  lemma ExactFirst(row: Row, patterns: seq<string>, c: Cell)
    requires |patterns| > 0 && Lookup(row, patterns[0]) == Some(c)
    requires CellNumber(c).Some? && CellNumber(c).value > 0.0
    ensures HeaderValue(row, patterns) == CellNumber(c).value
  {
    LookupReadings(row, patterns[0]);
  }

  // ---- One row, one trainee ----

  /** The header spellings tried for each answer. */
  datatype HeaderPatterns = HeaderPatterns(healthBefore: seq<string>, healthAfter: seq<string>,
                                           selfManagementBefore: seq<string>, selfManagementAfter: seq<string>,
                                           satisfaction: seq<string>)

  /** The spellings the panel tries, with and without the trailing colons and the Malay half. */
  const StandardPatterns: HeaderPatterns := HeaderPatterns(
    ["17. Health performance of the trainee before coming to CBR / Prestasi kesihatan pelatih sebelum datang ke PDK:",
     "17. Health performance of the trainee before coming to CBR / Prestasi kesihatan pelatih sebelum datang ke PDK::",
     "Health performance of the trainee before coming to CBR"],
    ["18. Health performance of the trainee after coming to CBR / Prestasi kesihatan pelatih selepas datang ke PDK:",
     "18. Health performance of the trainee after coming to CBR / Prestasi kesihatan pelatih selepas datang ke PDK::",
     "Health performance of the trainee after coming to CBR"],
    ["19. Manage myself of the trainee before coming to CBR / Urus diri pelatih sebelum datang ke PDK:",
     "19. Manage myself of the trainee before coming to CBR / Urus diri pelatih sebelum datang ke PDK::",
     "Manage myself of the trainee before coming to CBR"],
    ["20. Manage myself of the trainee after coming to CBR / Urus diri pelatih selepas datang ke PDK:",
     "20. Manage myself of the trainee after coming to CBR / Urus diri pelatih selepas datang ke PDK::",
     "Manage myself of the trainee after coming to CBR"],
    ["16. Trainee, how happy are you with the Centre? / Pelatih, berapa gembirakah anda dengan Pusat tersebut?:",
     "16. Trainee, how happy are you with the Centre? / Pelatih, berapa gembirakah anda dengan Pusat tersebut?",
     "Trainee, how happy are you with the Centre?"])

  /** A `HealthData` entry. */
  datatype HealthRecord = HealthRecord(healthBefore: real, healthAfter: real,
                                       selfManagementBefore: real, selfManagementAfter: real,
                                       satisfaction: real)

  /** What every kept record satisfies: four positive answers and a satisfaction that is not negative. */
  predicate Plausible(r: HealthRecord)
  {
    r.healthBefore > 0.0 && r.healthAfter > 0.0 && r.selfManagementBefore > 0.0
    && r.selfManagementAfter > 0.0 && r.satisfaction >= 0.0
  }

  /**
   * The body of `rawData.forEach`: a record when both health answers are
   * found, the self-management answers falling back to the health answers
   * and a missing satisfaction counting as 0.
   */
  function RecordOf(row: Row, P: HeaderPatterns): (r: Option<HealthRecord>)
    ensures r.Some? <==> HeaderValue(row, P.healthBefore) > 0.0 && HeaderValue(row, P.healthAfter) > 0.0
    ensures r.Some? ==> Plausible(r.value)
    ensures r.Some? ==> (r.value.healthBefore == HeaderValue(row, P.healthBefore)
                         && r.value.healthAfter == HeaderValue(row, P.healthAfter))
    ensures r.Some? && HeaderValue(row, P.selfManagementBefore) == 0.0 ==> r.value.selfManagementBefore == r.value.healthBefore
    ensures r.Some? && HeaderValue(row, P.selfManagementAfter) == 0.0 ==> r.value.selfManagementAfter == r.value.healthAfter
  {
    var hb := HeaderValue(row, P.healthBefore);
    var ha := HeaderValue(row, P.healthAfter);
    var smb := HeaderValue(row, P.selfManagementBefore);
    var sma := HeaderValue(row, P.selfManagementAfter);
    var sat := HeaderValue(row, P.satisfaction);
    if hb > 0.0 && ha > 0.0 then
      Some(HealthRecord(hb, ha, if smb > 0.0 then smb else hb, if sma > 0.0 then sma else ha,
                        if sat > 0.0 then sat else 0.0))
    else None
  }

  /** The records `record` yields for the elements of `s`, in order, skipping the elements it yields none for. */
  function Keep<A, B>(s: seq<A>, record: A -> Option<B>): (r: seq<B>)
    ensures |r| <= |s|
  {
    if s == [] then []
    else
      var d := Keep(s[..|s| - 1], record);
      var rec := record(s[|s| - 1]);
      if rec.Some? then d + [rec.value] else d
  }

  /** The positions of the elements `Keep` keeps. */
  function KeptAt<A, B>(s: seq<A>, record: A -> Option<B>): seq<nat>
  {
    if s == [] then []
    else
      var d := KeptAt(s[..|s| - 1], record);
      if record(s[|s| - 1]).Some? then d + [|s| - 1] else d
  }

  /** The j-th kept record is the record of the element at the j-th kept position. */
  lemma {:induction false} KeptAtRecords<A, B>(s: seq<A>, record: A -> Option<B>)
    ensures |KeptAt(s, record)| == |Keep(s, record)|
    ensures forall j :: 0 <= j < |KeptAt(s, record)| ==>
              KeptAt(s, record)[j] < |s| && record(s[KeptAt(s, record)[j]]) == Some(Keep(s, record)[j])
    decreases |s|
  {
    if s != [] {
      var prefix := s[..|s| - 1];
      KeptAtRecords(prefix, record);
      assert forall n :: 0 <= n < |prefix| ==> s[n] == prefix[n];
    }
  }

  /** The kept positions are increasing, and every element at another position yields no record. */
  lemma {:induction false} KeptAtOrder<A, B>(s: seq<A>, record: A -> Option<B>)
    ensures forall j :: 0 <= j < |KeptAt(s, record)| ==> KeptAt(s, record)[j] < |s|
    ensures forall i, j :: 0 <= i < j < |KeptAt(s, record)| ==> KeptAt(s, record)[i] < KeptAt(s, record)[j]
    ensures forall n :: 0 <= n < |s| && n !in KeptAt(s, record) ==> record(s[n]).None?
    decreases |s|
  {
    if s != [] {
      var prefix := s[..|s| - 1];
      KeptAtOrder(prefix, record);
      assert forall n :: 0 <= n < |prefix| ==> s[n] == prefix[n];
    }
  }

  /** `RecordOf` as a function of the row alone. */
  function RecordFor(P: HeaderPatterns): Row -> Option<HealthRecord>
  {
    (row: Row) => RecordOf(row, P)
  }

  /** `healthData`: the records of the kept rows, in row order; each is plausible. */
  function HealthData(rows: seq<Row>, P: HeaderPatterns): (r: seq<HealthRecord>)
    ensures |r| <= |rows|
    ensures forall i :: 0 <= i < |r| ==> Plausible(r[i])
  {
    KeptAtRecords(rows, RecordFor(P));
    Keep(rows, RecordFor(P))
  }

  /**
   * Each record of `healthData` is the record of a row of the survey, later
   * records from later rows; a row missing from it lacks a health answer.
   */
  lemma HealthDataOrigin(rows: seq<Row>, P: HeaderPatterns)
    ensures var kept := KeptAt(rows, RecordFor(P));
      && |kept| == |HealthData(rows, P)|
      && (forall j :: 0 <= j < |kept| ==> kept[j] < |rows| && RecordOf(rows[kept[j]], P) == Some(HealthData(rows, P)[j]))
      && (forall i, j :: 0 <= i < j < |kept| ==> kept[i] < kept[j])
      && (forall n :: 0 <= n < |rows| && n !in kept ==>
            HeaderValue(rows[n], P.healthBefore) == 0.0 || HeaderValue(rows[n], P.healthAfter) == 0.0)
  {
    KeptAtRecords(rows, RecordFor(P));
    KeptAtOrder(rows, RecordFor(P));
  }

  /** `rawData.forEach(row => { ...; if (healthBefore > 0 && healthAfter > 0) healthData.push(...) })`. */
  method ExtractHealthData(rawData: seq<Row>, P: HeaderPatterns) returns (healthData: seq<HealthRecord>)
    ensures healthData == HealthData(rawData, P)
  {
    healthData := [];
    var i := 0;
    while i < |rawData|
      invariant 0 <= i <= |rawData|
      invariant healthData == Keep(rawData[..i], RecordFor(P))
    {
      var row := rawData[i];
      assert rawData[..i + 1][..i] == rawData[..i] && rawData[..i + 1][i] == row;
      assert RecordFor(P)(row) == RecordOf(row, P);
      var healthBefore := FindHeader(row, P.healthBefore);
      var healthAfter := FindHeader(row, P.healthAfter);
      var selfMgmtBefore := FindHeader(row, P.selfManagementBefore);
      var selfMgmtAfter := FindHeader(row, P.selfManagementAfter);
      var satisfaction := FindHeader(row, P.satisfaction);
      if healthBefore > 0.0 && healthAfter > 0.0 {
        healthData := healthData + [HealthRecord(
          healthBefore, healthAfter,
          if selfMgmtBefore > 0.0 then selfMgmtBefore else healthBefore,
          if selfMgmtAfter > 0.0 then selfMgmtAfter else healthAfter,
          if satisfaction > 0.0 then satisfaction else 0.0)];
      }
      i := i + 1;
    }
    assert rawData[..|rawData|] == rawData;
  }

  // ---- The metrics ----

  /** An entry of `healthImprovements` or `selfManagementImprovements`. */
  datatype Improvement = Improvement(trainee: nat, before: real, after: real, improvement: real)

  /** `healthData.map((data, index) => ({ trainee: index + 1, before, after, improvement: after - before }))`. */
  function Improvements(hd: seq<HealthRecord>, before: HealthRecord -> real, after: HealthRecord -> real): (r: seq<Improvement>)
    ensures |r| == |hd|
  {
    seq(|hd|, i requires 0 <= i < |hd| => Improvement(i + 1, before(hd[i]), after(hd[i]), after(hd[i]) - before(hd[i])))
  }

  function HealthBefore(r: HealthRecord): real { r.healthBefore }
  function HealthAfter(r: HealthRecord): real { r.healthAfter }
  function SelfManagementBefore(r: HealthRecord): real { r.selfManagementBefore }
  function SelfManagementAfter(r: HealthRecord): real { r.selfManagementAfter }
  function Satisfaction(r: HealthRecord): real { r.satisfaction }

  /** One answer of every record. */
  function Column(hd: seq<HealthRecord>, f: HealthRecord -> real): (r: seq<real>)
    ensures |r| == |hd|
  {
    seq(|hd|, i requires 0 <= i < |hd| => f(hd[i]))
  }

  /** The `improvement` of every entry. */
  function Gains(imps: seq<Improvement>): (r: seq<real>)
    ensures |r| == |imps|
  {
    seq(|imps|, i requires 0 <= i < |imps| => imps[i].improvement)
  }

  predicate Improved(r: HealthRecord)
  {
    r.healthAfter > r.healthBefore
  }

  /** An entry of `correlationData`. */
  datatype Correlation = Correlation(dimension: string, score: real, correlation: real)

  /** `Math.min(0.95, Math.max(0.2, current / 7 * 0.8 + 0.2))`. */
  function CorrelationOf(current: real): (c: real)
    ensures 0.2 <= c <= 0.95
  {
    var linear := current / 7.0 * 0.8 + 0.2;
    if linear < 0.2 then 0.2 else if linear > 0.95 then 0.95 else linear
  }

  /** `dimensionsData.map(...)`: one correlation per dimension, in input order. */
  function Correlations(dims: seq<DimensionScore>): (r: seq<Correlation>)
    ensures |r| == |dims|
    ensures forall i :: 0 <= i < |dims| ==> r[i].dimension == dims[i].name && r[i].score == dims[i].current
  {
    seq(|dims|, i requires 0 <= i < |dims| => Correlation(dims[i].name, dims[i].current, CorrelationOf(dims[i].current)))
  }

  /** The object `healthMetrics` holds once some row is kept. */
  datatype HealthMetrics = HealthMetrics(
    healthImprovements: seq<Improvement>, selfManagementImprovements: seq<Improvement>,
    averageHealthBefore: real, averageHealthAfter: real,
    averageSelfManagementBefore: real, averageSelfManagementAfter: real,
    averageSatisfaction: real, healthImprovementRate: real, correlationData: seq<Correlation>)

  /** The metrics derived from a non-empty `healthData`. */
  function MetricsFrom(hd: seq<HealthRecord>, dims: seq<DimensionScore>): (m: HealthMetrics)
    requires |hd| > 0
    ensures |m.healthImprovements| == |m.selfManagementImprovements| == |hd|
    ensures |m.correlationData| == |dims|
  {
    HealthMetrics(
      Improvements(hd, HealthBefore, HealthAfter),
      Improvements(hd, SelfManagementBefore, SelfManagementAfter),
      Mean(Column(hd, HealthBefore)), Mean(Column(hd, HealthAfter)),
      Mean(Column(hd, SelfManagementBefore)), Mean(Column(hd, SelfManagementAfter)),
      Mean(Column(hd, Satisfaction)),
      Count(hd, Improved) as real / |hd| as real * 100.0,
      Correlations(dims))
  }

  /**
   * The `healthMetrics` memo: `null` (here `None`) for no rows at all or when
   * no row has both health answers, the metrics of the kept records otherwise.
   */
  function MetricsOf(rawData: seq<Row>, dims: seq<DimensionScore>, P: HeaderPatterns): (r: Option<HealthMetrics>)
    ensures r.None? <==> |rawData| == 0 || |HealthData(rawData, P)| == 0
    ensures r.Some? ==> |r.value.healthImprovements| == |HealthData(rawData, P)| > 0
    ensures r.Some? ==> |r.value.correlationData| == |dims|
  {
    if |rawData| == 0 then None
    else
      var hd := HealthData(rawData, P);
      if |hd| == 0 then None else Some(MetricsFrom(hd, dims))
  }

  lemma {:induction false} SumPositive(s: seq<real>)
    requires |s| > 0 && forall k :: 0 <= k < |s| ==> s[k] > 0.0
    ensures Sum(s) > 0.0
    decreases |s|
  {
    if |s| > 1 {
      SumPositive(s[..|s| - 1]);
    }
  }

  /** A mean of positive answers is positive. */
  lemma MeanPositive(hd: seq<HealthRecord>, f: HealthRecord -> real)
    requires |hd| > 0 && forall i :: 0 <= i < |hd| ==> f(hd[i]) > 0.0
    ensures Mean(Column(hd, f)) > 0.0
  {
    SumPositive(Column(hd, f));
  }

  lemma {:induction false} SumNonNegative(s: seq<real>)
    requires forall k :: 0 <= k < |s| ==> s[k] >= 0.0
    ensures Sum(s) >= 0.0
    decreases |s|
  {
    if s != [] {
      SumNonNegative(s[..|s| - 1]);
    }
  }

  /**
   * The four averages are positive and the average satisfaction is not
   * negative, since every kept record holds positive answers.
   */
  lemma AveragesPositive(hd: seq<HealthRecord>, dims: seq<DimensionScore>)
    requires |hd| > 0 && forall i :: 0 <= i < |hd| ==> Plausible(hd[i])
    ensures var m := MetricsFrom(hd, dims);
      && m.averageHealthBefore > 0.0 && m.averageHealthAfter > 0.0
      && m.averageSelfManagementBefore > 0.0 && m.averageSelfManagementAfter > 0.0
      && m.averageSatisfaction >= 0.0
  {
    MeanPositive(hd, HealthBefore);
    MeanPositive(hd, HealthAfter);
    MeanPositive(hd, SelfManagementBefore);
    MeanPositive(hd, SelfManagementAfter);
    SumNonNegative(Column(hd, Satisfaction));
  }

  /** Counting every element means every element satisfies the condition. */
  lemma {:induction false} CountAll<T>(s: seq<T>, p: T -> bool)
    ensures Count(s, p) == |s| <==> forall i :: 0 <= i < |s| ==> p(s[i])
    decreases |s|
  {
    if s != [] {
      var prefix := s[..|s| - 1];
      CountAll(prefix, p);
      assert forall i :: 0 <= i < |prefix| ==> prefix[i] == s[i];
    }
  }

  /** Counting nothing means no element satisfies the condition. */
  lemma {:induction false} CountNone<T>(s: seq<T>, p: T -> bool)
    ensures Count(s, p) == 0 <==> forall i :: 0 <= i < |s| ==> !p(s[i])
    decreases |s|
  {
    if s != [] {
      var prefix := s[..|s| - 1];
      CountNone(prefix, p);
      assert forall i :: 0 <= i < |prefix| ==> prefix[i] == s[i];
    }
  }

  /**
   * The improvement rate is a percentage: 100 exactly when every kept
   * trainee's health improved, 0 exactly when none did.
   */
  lemma ImprovementRate(hd: seq<HealthRecord>, dims: seq<DimensionScore>)
    requires |hd| > 0
    ensures var m := MetricsFrom(hd, dims);
      && 0.0 <= m.healthImprovementRate <= 100.0
      && (m.healthImprovementRate == 100.0 <==> forall i :: 0 <= i < |hd| ==> hd[i].healthAfter > hd[i].healthBefore)
      && (m.healthImprovementRate == 0.0 <==> forall i :: 0 <= i < |hd| ==> hd[i].healthAfter <= hd[i].healthBefore)
  {
    CountAll(hd, Improved);
    CountNone(hd, Improved);
    Percentage(Count(hd, Improved), |hd|);
  }

  /** `(count / total) * 100` for a part of a non-empty whole. */
  lemma Percentage(count: nat, total: nat)
    requires 0 < total && count <= total
    ensures var r := count as real / total as real * 100.0;
      && 0.0 <= r <= 100.0 && (r == 100.0 <==> count == total) && (r == 0.0 <==> count == 0)
  {
    var c, t := count as real, total as real;
    var x := c / t;
    assert x * t == c;
    assert x <= 1.0 by {
      assert (x - 1.0) * t == c - t;
      FactorSign(x - 1.0, t);
    }
    assert x == 1.0 ==> c == t;
    assert x == 0.0 ==> c == 0.0;
  }

  /** A product with a positive factor that is not positive has a non-positive other factor. */
  lemma FactorSign(a: real, b: real)
    requires 0.0 < b && a * b <= 0.0
    ensures a <= 0.0
  {
  }

  lemma {:induction false} SumOfGains(hd: seq<HealthRecord>, before: HealthRecord -> real, after: HealthRecord -> real)
    ensures Sum(Gains(Improvements(hd, before, after))) == Sum(Column(hd, after)) - Sum(Column(hd, before))
    decreases |hd|
  {
    if hd != [] {
      var prefix := hd[..|hd| - 1];
      SumOfGains(prefix, before, after);
      assert Gains(Improvements(hd, before, after))[..|hd| - 1] == Gains(Improvements(prefix, before, after));
      assert Column(hd, after)[..|hd| - 1] == Column(prefix, after);
      assert Column(hd, before)[..|hd| - 1] == Column(prefix, before);
    }
  }

  /** `avgImprovement`, the KPI card's average of the health improvements. */
  function AverageImprovement(m: HealthMetrics): real
  {
    Mean(Gains(m.healthImprovements))
  }

  /**
   * The average improvement on the KPI card is the difference of the two
   * averages on the before/after chart, for health and for self-management.
   */
  lemma AverageImprovementIsDifference(hd: seq<HealthRecord>, dims: seq<DimensionScore>)
    requires |hd| > 0
    ensures var m := MetricsFrom(hd, dims);
      && AverageImprovement(m) == m.averageHealthAfter - m.averageHealthBefore
      && Mean(Gains(m.selfManagementImprovements)) == m.averageSelfManagementAfter - m.averageSelfManagementBefore
  {
    var n := |hd| as real;
    SumOfGains(hd, HealthBefore, HealthAfter);
    SumOfGains(hd, SelfManagementBefore, SelfManagementAfter);
    DivideDifference(Sum(Column(hd, HealthAfter)), Sum(Column(hd, HealthBefore)), n);
    DivideDifference(Sum(Column(hd, SelfManagementAfter)), Sum(Column(hd, SelfManagementBefore)), n);
  }

  lemma DivideDifference(a: real, b: real, n: real)
    requires n > 0.0
    ensures (a - b) / n == a / n - b / n
  {
    assert (a / n - b / n) * n == a - b;
  }

  // ---- The improvement distribution ----

  predicate HighImprovement(h: Improvement) { h.improvement > 2.0 }

  predicate MediumImprovement(h: Improvement) { h.improvement >= 1.0 && h.improvement <= 2.0 }

  predicate LowImprovement(h: Improvement) { h.improvement > 0.0 && h.improvement < 1.0 }

  predicate NoChange(h: Improvement) { h.improvement <= 0.0 }

  /** The four bars of the improvement distribution chart; the first is also `highImprovementCount`. */
  function Distribution(imps: seq<Improvement>): (r: seq<nat>)
    ensures |r| == 4
    ensures forall b :: 0 <= b < 4 ==> r[b] <= |imps|
  {
    [Count(imps, HighImprovement), Count(imps, MediumImprovement), Count(imps, LowImprovement), Count(imps, NoChange)]
  }

  /** Every trainee falls in exactly one bucket, so the four bars add up to `totalTrainees`. */
  lemma {:induction false} BucketsPartition(imps: seq<Improvement>)
    ensures var r := Distribution(imps); r[0] + r[1] + r[2] + r[3] == |imps|
    decreases |imps|
  {
    if imps != [] {
      BucketsPartition(imps[..|imps| - 1]);
    }
  }

  // ---- The dimension impact chart ----

  /** Between the two clamps the correlation is linear; it reaches 0.95 from a score of 6.5625 up. */
  lemma CorrelationOnScoreScale(score: real)
    ensures score <= 0.0 ==> CorrelationOf(score) == 0.2
    ensures score >= 6.5625 ==> CorrelationOf(score) == 0.95
    ensures 0.0 <= score <= 6.5625 ==> CorrelationOf(score) == score / 7.0 * 0.8 + 0.2
  {
  }

  /** A higher dimension score never gives a lower correlation. */
  lemma CorrelationMonotone(x: real, y: real)
    requires x <= y
    ensures CorrelationOf(x) <= CorrelationOf(y)
  {
  }

  /** The tooltip's impact wording. */
  datatype Impact = Strong | Moderate | Weak

  function ImpactOf(correlation: real): Impact
  {
    if correlation >= 0.7 then Strong else if correlation >= 0.5 then Moderate else Weak
  }

  /** The bar colours: green, blue, amber, red. */
  datatype Band = Green | Blue | Amber | Red

  function BandOf(correlation: real): Band
  {
    if correlation >= 0.7 then Green
    else if correlation >= 0.5 then Blue
    else if correlation >= 0.3 then Amber
    else Red
  }

  /**
   * On the 0..7 score scale a dimension is a strong influence from 4.375, a
   * moderate one from 2.625, and a bar is red only below 0.875; the bar colour
   * agrees with the tooltip wording for the two upper bands.
   */
  lemma ImpactOnScoreScale(score: real)
    ensures ImpactOf(CorrelationOf(score)) == Strong <==> score >= 4.375
    ensures ImpactOf(CorrelationOf(score)) == Moderate <==> 2.625 <= score < 4.375
    ensures BandOf(CorrelationOf(score)) == Red <==> score < 0.875
    ensures BandOf(CorrelationOf(score)) == Green <==> ImpactOf(CorrelationOf(score)) == Strong
    ensures BandOf(CorrelationOf(score)) == Blue <==> ImpactOf(CorrelationOf(score)) == Moderate
  {
  }
}
