/**
 * The sheet response as the dashboard reads it (src/App.tsx, `fetchSheetData`
 * and the cell parsing in `processRawData`): the gviz text is cut down to the
 * JSON object, the JSON is checked for table, columns and rows, each row's
 * cells are zipped to the headers, and a cell's score is read from its value.
 */
module Sheet {
  import opened Base
  import opened Text
  import opened Dict

  /** A cell value `v`: a number, a string, or `null`. */
  datatype Cell = Num(n: real) | Str(s: string) | Null

  /** A row object keyed by header, in header order. */
  type Row = Assoc<string, Cell>

  datatype Column = Column(labelText: string, id: string)

  /** `json.table`: both fields may be missing. A row is its `c` array; a `null` entry is `None`. */
  datatype GvizTable = GvizTable(cols: Option<seq<Column>>, rows: Option<seq<seq<Option<Cell>>>>)

  datatype GvizResponse = GvizResponse(table: Option<GvizTable>)

  datatype SheetError =
    | InvalidFormat              // 'Invalid response format from Google Sheets'
    | ParseFailure(msg: string)  // the message of the error `JSON.parse` throws
    | InvalidStructure           // 'Invalid JSON structure from Google Sheets'

  /** The message `fetchSheetData` stores as the fetch error. */
  function ErrorMessage(e: SheetError): string
  {
    match e
    case InvalidFormat => "Invalid response format from Google Sheets"
    case ParseFailure(msg) => msg
    case InvalidStructure => "Invalid JSON structure from Google Sheets"
  }

  /**
   * The text from the first '{' to the last '}' (`substring` swaps its bounds
   * when the last '}' comes before the first '{'); an error when either brace
   * is missing.
   */
  function Unwrap(text: string): (r: Result<string, SheetError>)
    ensures r.Err? <==> '{' !in text || '}' !in text
    ensures r.Err? ==> r.error == InvalidFormat
    ensures r.Ok? ==> forall k :: 0 <= k < |r.value| ==> r.value[k] in text
  {
    var start := IndexOf(text, '{');
    var end := LastIndexOf(text, '}') + 1;
    if start == -1 || end == 0 then Err(InvalidFormat)
    else
      var r := Substring(text, start, end);
      assert forall k :: 0 <= k < |r| ==> r[k] in text by {
        forall k | 0 <= k < |r| ensures r[k] in text {
          if start <= end { assert r[k] == text[start + k]; } else { assert r[k] == text[end + k]; }
        }
      }
      Ok(r)
  }

  /** Text around a JSON object that holds no '{' before it and no '}' after it is cut away exactly. */
  lemma UnwrapRoundTrip(before: string, body: string, after: string)
    requires '{' !in before && '}' !in after
    requires |body| >= 2 && body[0] == '{' && body[|body| - 1] == '}'
    ensures Unwrap(before + body + after) == Ok(body)
  {
    var text := before + body + after;
    var last := |before| + |body| - 1;
    assert text[..|before|] == before;
    assert text[last + 1..] == after;
    IndexOfAt(text, '{', |before|);
    LastIndexOfAt(text, '}', last);
    assert text[|before|..last + 1] == body;
  }

  /** `cols.map(col => col.label || col.id)`. */
  function Headers(cols: seq<Column>): (hs: seq<string>)
    ensures |hs| == |cols|
    ensures forall i :: 0 <= i < |cols| ==> hs[i] == (if cols[i].labelText != [] then cols[i].labelText else cols[i].id)
  {
    if cols == [] then [] else Headers(cols[..|cols| - 1]) + [if cols[|cols| - 1].labelText != [] then cols[|cols| - 1].labelText else cols[|cols| - 1].id]
  }

  /** `row.c[index] ? row.c[index].v : null`: a missing entry, a `null` entry or a `null` value all read as `Null`. */
  function CellAt(cells: seq<Option<Cell>>, index: nat): Cell
  {
    if index < |cells| && cells[index].Some? then cells[index].value else Null
  }

  /** The row object: `rowObject[headers[i]] = cell i`, for each header in order. */
  function ZipRow(headers: seq<string>, cells: seq<Option<Cell>>): (row: Row)
    ensures Keys(row) == Distinct(headers)
    ensures DistinctKeys(row)
  {
    if headers == [] then []
    else
      var n := |headers| - 1;
      var prev := ZipRow(headers[..n], cells);
      AssignDistinct(prev, headers[n], CellAt(cells, n));
      Assign(prev, headers[n], CellAt(cells, n))
  }

  /** The headers with later repetitions dropped: the keys of a row object, in order. */
  function Distinct(hs: seq<string>): seq<string>
  {
    if hs == [] then []
    else
      var d := Distinct(hs[..|hs| - 1]);
      if hs[|hs| - 1] in d then d else d + [hs[|hs| - 1]]
  }

  lemma {:induction false} DistinctSameElements(hs: seq<string>, h: string)
    ensures h in Distinct(hs) <==> h in hs
    decreases |hs|
  {
    if hs != [] {
      DistinctSameElements(hs[..|hs| - 1], h);
      assert hs == hs[..|hs| - 1] + [hs[|hs| - 1]];
    }
  }

  /** A name that is no header reads `undefined`. */
  lemma {:induction false} ZipRowAbsent(headers: seq<string>, cells: seq<Option<Cell>>, h: string)
    requires h !in headers
    ensures Lookup(ZipRow(headers, cells), h).None?
    decreases |headers|
  {
    if headers != [] {
      var n := |headers| - 1;
      ZipRowAbsent(headers[..n], cells, h);
      AssignOther(ZipRow(headers[..n], cells), headers[n], CellAt(cells, n), h);
    }
  }

  /**
   * Every header reads the cell of its LAST position: a repeated header is
   * overwritten by the later column.
   */
  lemma {:induction false} ZipRowLast(headers: seq<string>, cells: seq<Option<Cell>>, j: nat)
    requires j < |headers| && headers[j] !in headers[j + 1..]
    ensures Lookup(ZipRow(headers, cells), headers[j]) == Some(CellAt(cells, j))
    decreases |headers|
  {
    var n := |headers| - 1;
    var prev := ZipRow(headers[..n], cells);
    assert ZipRow(headers, cells) == Assign(prev, headers[n], CellAt(cells, n));
    if j == n {
      AssignLookup(prev, headers[n], CellAt(cells, n));
    } else {
      assert headers[n] == headers[j + 1..][n - j - 1];
      assert headers[..n][j] == headers[j];
      assert headers[..n][j + 1..] == headers[j + 1..n];
      ZipRowLast(headers[..n], cells, j);
      AssignOther(prev, headers[n], CellAt(cells, n), headers[j]);
    }
  }

  /**
   * The JSON checks and the row mapping: an error unless table, cols and rows
   * are all present; otherwise the headers and one row object per row.
   */
  function Normalize(resp: GvizResponse): (r: Result<(seq<string>, seq<Row>), SheetError>)
    ensures r.Err? <==> resp.table.None? || resp.table.value.cols.None? || resp.table.value.rows.None?
    ensures r.Err? ==> r.error == InvalidStructure
    ensures r.Ok? ==> |r.value.0| == |resp.table.value.cols.value| && |r.value.1| == |resp.table.value.rows.value|
    ensures r.Ok? ==> forall i :: 0 <= i < |r.value.1| ==> Keys(r.value.1[i]) == Distinct(r.value.0)
  {
    match resp.table
    case None => Err(InvalidStructure)
    case Some(t) =>
      if t.cols.None? || t.rows.None? then Err(InvalidStructure)
      else
        var headers := Headers(t.cols.value);
        Ok((headers, seq(|t.rows.value|, i requires 0 <= i < |t.rows.value| => ZipRow(headers, t.rows.value[i]))))
  }

  /**
   * The whole parse of a fetched body: unwrap, `JSON.parse` (a parameter of the
   * model: it yields the response object or the error it throws), then the
   * structure checks and the row mapping.
   */
  function ParseSheet(text: string, jsonParse: string -> Result<GvizResponse, string>): (r: Result<(seq<string>, seq<Row>), SheetError>)
    ensures ('{' !in text || '}' !in text) ==> r == Err(InvalidFormat)
    ensures r.Ok? ==> Unwrap(text).Ok? && jsonParse(Unwrap(text).value).Ok?
  {
    match Unwrap(text)
    case Err(e) => Err(e)
    case Ok(json) =>
      match jsonParse(json)
      case Err(msg) => Err(ParseFailure(msg))
      case Ok(resp) => Normalize(resp)
  }

  // ---- Per-cell score parsing ----

  predicate IsDigit(c: char) { '0' <= c <= '9' }

  predicate IsDigitOrDot(c: char) { IsDigit(c) || c == '.' }

  /** `s.split(/[^0-9.]+/)[0]`: the longest prefix made of digits and dots. */
  function NumericPrefix(s: string): (p: string)
    ensures |p| <= |s| && p == s[..|p|]
    ensures forall k :: 0 <= k < |p| ==> IsDigitOrDot(p[k])
    ensures |p| == |s| || !IsDigitOrDot(s[|p|])
  {
    if s == [] || !IsDigitOrDot(s[0]) then []
    else
      var t := NumericPrefix(s[1..]);
      assert [s[0]] + t == s[..|t| + 1];
      [s[0]] + t
  }

  /** The length of the run of digits that starts `s`. */
  function DigitRun(s: string): (k: nat)
    ensures k <= |s|
    ensures forall j :: 0 <= j < k ==> IsDigit(s[j])
    ensures k == |s| || !IsDigit(s[k])
  {
    if s == [] || !IsDigit(s[0]) then 0 else 1 + DigitRun(s[1..])
  }

  function DigitsValue(ds: string): nat
  {
    if ds == [] then 0 else DigitsValue(ds[..|ds| - 1]) * 10 + (if IsDigit(ds[|ds| - 1]) then ds[|ds| - 1] as int - '0' as int else 0)
  }

  function Pow10(k: nat): (r: nat)
    ensures r >= 1
  {
    if k == 0 then 1 else 10 * Pow10(k - 1)
  }

  /** The value of the decimal `whole.frac`: the fraction digits count in tenths, hundredths, and so on. */
  function DecimalValue(whole: string, frac: string): (v: real)
    ensures v >= 0.0
  {
    DigitsValue(whole) as real + DigitsValue(frac) as real / Pow10(|frac|) as real
  }

  /**
   * `parseFloat` of a text made of digits and dots: the integer digits, then
   * the fraction digits after one '.', up to the next '.'; no score when there
   * is no digit at all (`""`, `"."`, `".."`).
   */
  function ParseDecimal(p: string): (r: Option<real>)
    ensures r.Some? ==> r.value >= 0.0
    ensures p == [] || (p[0] != '.' && !IsDigit(p[0])) ==> r.None?
  {
    var i := DigitRun(p);
    var whole := p[..i];
    var rest := p[i..];
    var frac := if rest != [] && rest[0] == '.' then rest[1..][..DigitRun(rest[1..])] else [];
    if whole == [] && frac == [] then None
    else Some(DecimalValue(whole, frac))
  }

  /**
   * The score of a cell (`typeof v === 'number' ? v : parseFloat(String(v).split(/[^0-9.]+/)[0])`,
   * kept only when finite): a number as it is; a string by its leading digits
   * and dots, so a text score is never negative; `null` (read as "null") never.
   */
  function ParseScore(c: Cell): (r: Option<real>)
    ensures c.Num? ==> r == Some(c.n)
    ensures c.Null? ==> r.None?
    ensures c.Str? && (c.s == [] || !IsDigitOrDot(c.s[0])) ==> r.None?
    ensures c.Str? && r.Some? ==> r.value >= 0.0
  {
    match c
    case Num(x) => Some(x)
    case Str(s) => ParseDecimal(NumericPrefix(s))
    case Null => ParseDecimal(NumericPrefix("null"))
  }

  /** The decimal spelling of a natural number. */
  function NatDigits(n: nat): (ds: string)
    ensures |ds| >= 1 && forall k :: 0 <= k < |ds| ==> IsDigit(ds[k])
  {
    if n < 10 then [('0' as int + n) as char] else NatDigits(n / 10) + [('0' as int + n % 10) as char]
  }

  lemma {:induction false} NatDigitsValue(n: nat)
    ensures DigitsValue(NatDigits(n)) == n
    decreases n
  {
    if n >= 10 {
      var ds := NatDigits(n);
      NatDigitsValue(n / 10);
      assert ds[..|ds| - 1] == NatDigits(n / 10);
    }
  }

  lemma {:induction false} NumericPrefixOf(ds: string, rest: string)
    requires forall k :: 0 <= k < |ds| ==> IsDigitOrDot(ds[k])
    requires rest == [] || !IsDigitOrDot(rest[0])
    ensures NumericPrefix(ds + rest) == ds
    decreases |ds|
  {
    if ds == [] {
      assert ds + rest == rest;
    } else {
      assert (ds + rest)[1..] == ds[1..] + rest;
      NumericPrefixOf(ds[1..], rest);
    }
  }

  lemma {:induction false} DigitRunAll(ds: string)
    requires forall k :: 0 <= k < |ds| ==> IsDigit(ds[k])
    ensures DigitRun(ds) == |ds|
    decreases |ds|
  {
    if ds != [] {
      DigitRunAll(ds[1..]);
    }
  }

  /**
   * A Likert answer written as a whole number followed by text that does not
   * start with a digit or a dot ("5 - agree") scores that number.
   */
  lemma ParseScoreOfLeadingNumber(n: nat, rest: string)
    requires rest == [] || !IsDigitOrDot(rest[0])
    ensures ParseScore(Str(NatDigits(n) + rest)) == Some(n as real)
  {
    var ds := NatDigits(n);
    NumericPrefixOf(ds, rest);
    DigitRunAll(ds);
    assert ds[..|ds|] == ds && ds[|ds|..] == [];
    NatDigitsValue(n);
  }

  lemma {:induction false} DigitRunOf(ds: string, rest: string)
    requires forall k :: 0 <= k < |ds| ==> IsDigit(ds[k])
    requires rest == [] || !IsDigit(rest[0])
    ensures DigitRun(ds + rest) == |ds|
    decreases |ds|
  {
    if ds == [] {
      assert ds + rest == rest;
    } else {
      assert (ds + rest)[1..] == ds[1..] + rest;
      DigitRunOf(ds[1..], rest);
    }
  }

  /** A fraction's digits are worth less than one unit: `DigitsValue(ds) < 10^|ds|`. */
  lemma {:induction false} DigitsValueBelow(ds: string)
    ensures DigitsValue(ds) < Pow10(|ds|)
    decreases |ds|
  {
    if ds != [] {
      DigitsValueBelow(ds[..|ds| - 1]);
    }
  }

  /**
   * A decimal `ws.ds` (either part may be empty, not both) followed by
   * anything that is not a digit reads as the whole digits plus the fraction
   * digits over their power of ten: "4.5" is 4.5 and "4.5.6" is 4.5 too.
   */
  lemma ParseDecimalValue(ws: string, ds: string, rest: string)
    requires forall k :: 0 <= k < |ws| ==> IsDigit(ws[k])
    requires forall k :: 0 <= k < |ds| ==> IsDigit(ds[k])
    requires |ws| + |ds| > 0
    requires rest == [] || !IsDigit(rest[0])
    ensures ParseDecimal(ws + "." + ds + rest) == Some(DecimalValue(ws, ds))
    ensures DigitsValue(ws) as real <= DecimalValue(ws, ds) < DigitsValue(ws) as real + 1.0
  {
    AppendAssoc(ws, ".", ds, rest);
    DigitRunOf(ws, "." + ds + rest);
    DigitRunOf(ds, rest);
    ParseDecimalParts(ws, ds, rest);
    DecimalValueBounds(ws, ds);
  }

  /** `ParseDecimal` splits at the ends of the two digit runs. */
  lemma ParseDecimalParts(ws: string, ds: string, rest: string)
    requires DigitRun(ws + "." + ds + rest) == |ws| && DigitRun(ds + rest) == |ds|
    requires |ws| + |ds| > 0
    ensures ParseDecimal(ws + "." + ds + rest) == Some(DecimalValue(ws, ds))
  {
    var p := ws + "." + ds + rest;
    var tail := "." + ds + rest;
    AppendAssoc(ws, ".", ds, rest);
    assert p[..|ws|] == ws && p[|ws|..] == tail;
    assert tail[1..] == ds + rest;
    assert (ds + rest)[..|ds|] == ds;
  }

  /** The fraction part adds less than one. */
  lemma DecimalValueBounds(ws: string, ds: string)
    ensures DigitsValue(ws) as real <= DecimalValue(ws, ds) < DigitsValue(ws) as real + 1.0
  {
    DigitsValueBelow(ds);
    FractionBelowOne(DigitsValue(ds), Pow10(|ds|));
  }

  lemma AppendAssoc(a: string, b: string, c: string, d: string)
    ensures a + b + c + d == a + (b + c + d)
  {
  }

  lemma FractionBelowOne(a: nat, b: nat)
    requires a < b
    ensures 0.0 <= a as real / b as real < 1.0
  {
    assert a as real < b as real;
  }

  /** A decimal Likert answer followed by text ("4.5 - mostly agree") scores its decimal value. */
  lemma ParseScoreOfDecimal(ws: string, ds: string, rest: string)
    requires forall k :: 0 <= k < |ws| ==> IsDigit(ws[k])
    requires forall k :: 0 <= k < |ds| ==> IsDigit(ds[k])
    requires |ws| + |ds| > 0
    requires rest == [] || !IsDigitOrDot(rest[0])
    ensures ParseDecimal(NumericPrefix(ws + "." + ds + rest)) == Some(DecimalValue(ws, ds))
    ensures ParseScore(Str(ws + "." + ds + rest)) == Some(DecimalValue(ws, ds))
  {
    var p := ws + "." + ds;
    assert forall k :: 0 <= k < |p| ==> IsDigitOrDot(p[k]);
    NumericPrefixOf(p, rest);
    assert p + rest == ws + "." + ds + rest;
    ParseDecimalValue(ws, ds, []);
    assert p + [] == p;
  }
}
