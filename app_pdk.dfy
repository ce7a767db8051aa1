/**
 * The PDK (rehabilitation centre) side of src/App.tsx: the centre list and the
 * name normalisation table, how the PDK column is found among the headers,
 * the client-side row filter, and the filtered query URL.
 */
module Pdk {
  import opened Base
  import opened Text
  import opened Dict
  import opened Sheet
  import opened SeqUtil

  /** `PDK_LIST`: the centres a user can select (value and label coincide). */
  const PdkList: seq<string> := [
    "PDK Batu Kawa", "PDK Bau", "PDK Betong", "PDK Borneo Highland", "PDK Julau", "PDK KK",
    "PDK Morsjaya Miri", "PDK Nur Quseh Sibu", "PDK Penrissen", "PDK Pibalqis Miri", "PDK Putrajaya",
    "PDK Sadong Jaya", "PDK Saratok", "PDK Sarikei", "PDK Seberang Jaya", "PDK Sebuyau",
    "PDK Sentuhan Kasih Kuching", "PDK Sinar Putrajaya", "PDK Sri Aman", "PDK Sunflower Miri",
    "PDK Sungai Tiram", "PDK Tampaioli", "PDK Tuaran"]

  /** `PDK_NAME_MAP`: raw names found in the sheet and their standard names, in key order. */
  const PdkNameMap: Assoc<string, string> := [
    ("Sebuyau", "PDK Sebuyau"), ("Julau", "PDK Julau"), ("Saratok", "PDK Saratok")]

  const SheetId: string := "1ZFX7Hy-Hinw1rA-mkpVwfUBQLV1IoHYXnc0CTFVkhqU"

  /** `PDK_NAME_MAP[raw] || raw`: the standard name of a raw sheet value. */
  function StandardName(raw: string): (r: string)
    ensures raw !in Keys(PdkNameMap) ==> r == raw
  {
    match Lookup(PdkNameMap, raw)
    case Some(std) => if std != [] then std else raw
    case None => raw
  }

  /** Every standard name of the table is a selectable centre. */
  lemma StandardNamesListed(i: nat)
    requires i < |PdkNameMap|
    ensures PdkNameMap[i].1 in PdkList
  {
  }

  // ---- Finding the PDK column ----

  /** The header of question 6a, "Name of your PDK / Nama PDK", by its lower-cased text. */
  predicate IsPdkQuestionHeader(h: string)
  {
    var l := Lower(h);
    (Contains(l, "6a") && (Contains(l, "pdk") || Contains(l, "nama"))) || Contains(l, "name of your pdk")
    || Contains(l, "nama pdk")
  }

  predicate MentionsPdk(h: string)
  {
    Contains(Lower(h), "pdk")
  }

  /** `find` with `|| ''`: the first header satisfying `p`, or the empty string. */
  function FirstHeader(hs: seq<string>, p: string -> bool): (r: string)
    ensures r == [] || (r in hs && p(r))
    ensures r != [] ==> exists i :: 0 <= i < |hs| && hs[i] == r && forall j :: 0 <= j < i ==> !p(hs[j])
    ensures (forall i :: 0 <= i < |hs| ==> !p(hs[i])) ==> r == []
  {
    if hs == [] then []
    else if p(hs[0]) then hs[0]
    else
      var r := FirstHeader(hs[1..], p);
      assert r != [] ==> exists i :: 0 <= i < |hs[1..]| && hs[1..][i] == r && forall j :: 0 <= j < i ==> !p(hs[1..][j]);
      assert r != [] ==> exists i :: 1 <= i < |hs| && hs[i] == r && forall j :: 1 <= j < i ==> !p(hs[j]);
      r
  }

  /**
   * The PDK column header: the first header that names question 6a, else the
   * header at index 70 (column BS) when there are more than 70, else the first
   * header mentioning "pdk", else none (the empty string).
   */
  function PdkColumnHeader(headers: seq<string>): (r: string)
    ensures r == [] || r in headers
    ensures FirstHeader(headers, IsPdkQuestionHeader) != [] ==> r == FirstHeader(headers, IsPdkQuestionHeader)
    ensures FirstHeader(headers, IsPdkQuestionHeader) == [] && |headers| > 70 && headers[70] != [] ==> r == headers[70]
    ensures FirstHeader(headers, IsPdkQuestionHeader) == [] && (|headers| <= 70 || headers[70] == [])
            ==> r == FirstHeader(headers, MentionsPdk)
    ensures ((forall i :: 0 <= i < |headers| ==> !IsPdkQuestionHeader(headers[i]) && !MentionsPdk(headers[i]))
             && (|headers| <= 70 || headers[70] == [])) ==> r == []
  {
    var byQuestion := FirstHeader(headers, IsPdkQuestionHeader);
    if byQuestion != [] then byQuestion
    else if |headers| > 70 && headers[70] != [] then headers[70]
    else FirstHeader(headers, MentionsPdk)
  }

  // ---- The client-side filter ----

  /** `String(row[h] || '')`: falsy values (missing, null, 0, "") read as the empty string. */
  function CellText(c: Option<Cell>, showNumber: real -> string): string
  {
    match c
    case None => []
    case Some(Null) => []
    case Some(Str(s)) => s
    case Some(Num(x)) => if x == 0.0 then [] else showNumber(x)
  }

  /** Whether a row's trimmed PDK value names the selected centre, raw or standardised. */
  predicate KeepRow(row: Row, header: string, selected: string, showNumber: real -> string)
  {
    var raw := Trim(CellText(Lookup(row, header), showNumber));
    raw != [] && (StandardName(raw) == selected || raw == selected)
  }

  /** The guard of the filter: a centre is selected and the first row has the PDK column. */
  predicate FilterActive(rows: seq<Row>, header: string, selected: string)
  {
    selected != "all" && header != [] && |rows| > 0 && header in Keys(rows[0])
  }

  /** `KeepRow` as a function of the row. */
  function Keeps(header: string, selected: string, showNumber: real -> string): Row -> bool
  {
    row => KeepRow(row, header, selected, showNumber)
  }

  /** `rows.filter(keep)`: each kept row as many times as it occurs; the order via `KeepRowsAppend`. */
  function KeepRows(rows: seq<Row>, header: string, selected: string, showNumber: real -> string): (r: seq<Row>)
    ensures |r| <= |rows|
    ensures forall x :: x in r <==> x in rows && KeepRow(x, header, selected, showNumber)
    ensures forall x :: multiset(r)[x] == if KeepRow(x, header, selected, showNumber) then multiset(rows)[x] else 0
  {
    FilterMembers(rows, Keeps(header, selected, showNumber));
    Filter(rows, Keeps(header, selected, showNumber))
  }

  /**
   * Filtering a sheet filters each part of it, so kept rows stay in sheet
   * order: a row before another in the sheet is before it in the result.
   */
  lemma KeepRowsAppend(a: seq<Row>, b: seq<Row>, header: string, selected: string, showNumber: real -> string)
    ensures KeepRows(a + b, header, selected, showNumber)
            == KeepRows(a, header, selected, showNumber) + KeepRows(b, header, selected, showNumber)
  {
    FilterAppend(a, b, Keeps(header, selected, showNumber));
  }

  /**
   * The PDK filter: every row when no centre is selected or the column is
   * absent; otherwise exactly the rows whose trimmed, non-empty PDK value is
   * the selection either as it is or after standardisation, in sheet order.
   * Number cells are shown through `showNumber` (JavaScript's `String(number)`).
   */
  function FilterByPdk(rows: seq<Row>, header: string, selected: string, showNumber: real -> string): (r: seq<Row>)
    ensures !FilterActive(rows, header, selected) ==> r == rows
    ensures FilterActive(rows, header, selected) ==>
              forall x :: x in r <==> x in rows && KeepRow(x, header, selected, showNumber)
    ensures FilterActive(rows, header, selected) ==>
              forall x :: multiset(r)[x] == if KeepRow(x, header, selected, showNumber) then multiset(rows)[x] else 0
  {
    if FilterActive(rows, header, selected) then KeepRows(rows, header, selected, showNumber) else rows
  }

  /** A raw name of the table standardises to its entry. */
  lemma AliasStandard(raw: string, std: string)
    requires (raw, std) in PdkNameMap
    ensures raw == "Sebuyau" || raw == "Julau" || raw == "Saratok"
    ensures StandardName(raw) == std
  {
    assert raw == "Sebuyau" || raw == "Julau" || raw == "Saratok";
  }

  /** A raw name of the table is already trimmed. */
  lemma AliasTrimmed(raw: string)
    requires raw == "Sebuyau" || raw == "Julau" || raw == "Saratok"
    ensures Trim(raw) == raw
  {
    assert !IsJsSpace(raw[0]) && !IsJsSpace(raw[|raw| - 1]);
    TrimOfPadded([], raw, []);
    assert [] + raw + [] == raw;
  }

  /** A row whose PDK cell is an already trimmed name standardising to the selection is kept. */
  lemma KeptByStandardName(row: Row, header: string, showNumber: real -> string, raw: string, selected: string)
    requires Lookup(row, header) == Some(Str(raw))
    requires Trim(raw) == raw != []
    requires StandardName(raw) == selected
    ensures KeepRow(row, header, selected, showNumber)
  {
  }

  lemma AliasNameKept(row: Row, header: string, showNumber: real -> string, raw: string, std: string)
    requires raw == "Sebuyau" || raw == "Julau" || raw == "Saratok"
    requires StandardName(raw) == std
    requires Lookup(row, header) == Some(Str(raw))
    ensures KeepRow(row, header, std, showNumber)
  {
    AliasTrimmed(raw);
    KeptByStandardName(row, header, showNumber, raw, std);
  }

  /** A row whose PDK cell is a raw alias of the selection (say "Julau" for "PDK Julau") is kept. */
  lemma AliasKept(row: Row, header: string, showNumber: real -> string, raw: string, std: string)
    requires (raw, std) in PdkNameMap
    requires Lookup(row, header) == Some(Str(raw))
    ensures KeepRow(row, header, std, showNumber)
  {
    AliasStandard(raw, std);
    AliasNameKept(row, header, showNumber, raw, std);
  }

  // ---- The filtered query URL ----

  /** `s.replace(/'/g, "''")`: the quoting of a string literal in the query language. */
  function EscapeQuotes(s: string): string
  {
    ReplaceAll(s, "'", "''")
  }

  /** The inverse reading of an escaped literal: each doubled quote is one quote. */
  function UnescapeQuotes(s: string): string
  {
    ReplaceAll(s, "''", "'")
  }

  /** Escaping loses nothing: unescaping gives the name back. */
  lemma {:induction false} EscapeRoundTrip(s: string)
    ensures UnescapeQuotes(EscapeQuotes(s)) == s
    decreases |s|
  {
    if s != [] {
      EscapeRoundTrip(s[1..]);
      var t := EscapeQuotes(s[1..]);
      if s[0] == '\'' {
        assert StartsWith(s, "'");
        assert EscapeQuotes(s) == "''" + t;
        assert StartsWith("''" + t, "''");
        assert ("''" + t)[2..] == t;
      } else {
        assert !StartsWith(s, "'");
        assert EscapeQuotes(s) == [s[0]] + t;
        assert ([s[0]] + t)[0] == s[0];
        assert !StartsWith([s[0]] + t, "''");
        assert ([s[0]] + t)[1..] == t;
        assert [s[0]] + s[1..] == s;
      }
    }
  }

  /** The first key of `PDK_NAME_MAP` whose standard name is `name`. */
  function RawNameOf(name: string): (r: Option<string>)
    ensures r.Some? ==> Lookup(PdkNameMap, r.value) == Some(name)
    ensures r.None? ==> forall i :: 0 <= i < |PdkNameMap| ==> PdkNameMap[i].1 != name
  {
    if name == "PDK Sebuyau" then Some("Sebuyau")
    else if name == "PDK Julau" then Some("Julau")
    else if name == "PDK Saratok" then Some("Saratok")
    else None
  }

  /** Characters `encodeURIComponent` leaves as they are. */
  predicate IsUriUnreserved(c: char)
  {
    ('A' <= c <= 'Z') || ('a' <= c <= 'z') || ('0' <= c <= '9') || c == '-' || c == '_' || c == '.'
    || c == '!' || c == '~' || c == '*' || c == '\'' || c == '(' || c == ')'
  }

  function HexDigit(d: nat): (c: char)
    requires d < 16
    ensures ('0' <= c <= '9') || ('A' <= c <= 'F')
  {
    if d < 10 then ('0' as int + d) as char else ('A' as int + d - 10) as char
  }

  /** The value of a hexadecimal digit, either case. */
  function HexValue(c: char): (d: Option<nat>)
    ensures d.Some? ==> d.value < 16
  {
    if '0' <= c <= '9' then Some(c as int - '0' as int)
    else if 'A' <= c <= 'F' then Some(c as int - 'A' as int + 10)
    else if 'a' <= c <= 'f' then Some(c as int - 'a' as int + 10)
    else None
  }

  lemma HexRoundTrip(d: nat)
    requires d < 16
    ensures HexValue(HexDigit(d)) == Some(d)
  {
  }

  /** The UTF-8 bytes of a Unicode scalar value. */
  function Utf8(c: char): (bytes: seq<nat>)
    ensures 1 <= |bytes| <= 4 && forall k :: 0 <= k < |bytes| ==> bytes[k] < 256
  {
    var n := c as int;
    if n < 0x80 then [n]
    else if n < 0x800 then [0xC0 + n / 64, 0x80 + n % 64]
    else if n < 0x10000 then [0xE0 + n / 4096, 0x80 + (n / 64) % 64, 0x80 + n % 64]
    else [0xF0 + n / 262144, 0x80 + (n / 4096) % 64, 0x80 + (n / 64) % 64, 0x80 + n % 64]
  }

  /** Each byte as '%' and its two upper-case hexadecimal digits. */
  function PercentBytes(bytes: seq<nat>): (r: string)
    requires forall k :: 0 <= k < |bytes| ==> bytes[k] < 256
    ensures |r| == 3 * |bytes|
    ensures forall k :: 0 <= k < |r| ==> r[k] == '%' || ('0' <= r[k] <= '9') || ('A' <= r[k] <= 'F')
    ensures forall k :: 0 <= k < |bytes| ==>
              r[3 * k] == '%' && r[3 * k + 1] == HexDigit(bytes[k] / 16) && r[3 * k + 2] == HexDigit(bytes[k] % 16)
  {
    if bytes == [] then []
    else
      var rest := PercentBytes(bytes[1..]);
      var r := ['%', HexDigit(bytes[0] / 16), HexDigit(bytes[0] % 16)] + rest;
      PercentBytesAt(bytes, rest, r);
      r
  }

  lemma PercentBytesAt(bytes: seq<nat>, rest: string, r: string)
    requires |bytes| > 0 && forall k :: 0 <= k < |bytes| ==> bytes[k] < 256
    requires |rest| == 3 * (|bytes| - 1)
    requires forall k :: 0 <= k < |rest| ==> rest[k] == '%' || ('0' <= rest[k] <= '9') || ('A' <= rest[k] <= 'F')
    requires forall k :: 0 <= k < |bytes| - 1 ==>
               rest[3 * k] == '%' && rest[3 * k + 1] == HexDigit(bytes[k + 1] / 16)
               && rest[3 * k + 2] == HexDigit(bytes[k + 1] % 16)
    requires r == ['%', HexDigit(bytes[0] / 16), HexDigit(bytes[0] % 16)] + rest
    ensures |r| == 3 * |bytes|
    ensures forall k :: 0 <= k < |r| ==> r[k] == '%' || ('0' <= r[k] <= '9') || ('A' <= r[k] <= 'F')
    ensures forall k :: 0 <= k < |bytes| ==>
              r[3 * k] == '%' && r[3 * k + 1] == HexDigit(bytes[k] / 16) && r[3 * k + 2] == HexDigit(bytes[k] % 16)
  {
    forall k | 3 <= k < |r| ensures r[k] == rest[k - 3] {
    }
    forall k | 1 <= k < |bytes|
      ensures r[3 * k] == '%' && r[3 * k + 1] == HexDigit(bytes[k] / 16) && r[3 * k + 2] == HexDigit(bytes[k] % 16)
    {
      var j := k - 1;
      assert 3 * k == 3 * j + 3;
      assert r[3 * k] == rest[3 * j] && r[3 * k + 1] == rest[3 * j + 1] && r[3 * k + 2] == rest[3 * j + 2];
    }
  }

  /** `encodeURIComponent`: unreserved characters kept, every other one as its percent-encoded UTF-8 bytes. */
  function EncodeUriComponent(s: string): (r: string)
    ensures forall k :: 0 <= k < |r| ==> IsUriUnreserved(r[k]) || r[k] == '%' || ('0' <= r[k] <= '9') || ('A' <= r[k] <= 'F')
    ensures (forall k :: 0 <= k < |s| ==> IsUriUnreserved(s[k])) ==> r == s
  {
    if s == [] then []
    else
      var head := if IsUriUnreserved(s[0]) then [s[0]] else PercentBytes(Utf8(s[0]));
      var r := head + EncodeUriComponent(s[1..]);
      assert (forall k :: 0 <= k < |s| ==> IsUriUnreserved(s[k])) ==> r == [s[0]] + s[1..];
      r
  }

  // ---- Decoding, the inverse of the encoding ----

  /** `p` in front of a decoded remainder; no result when the remainder does not decode. */
  function Prepend<T>(p: seq<T>, o: Option<seq<T>>): Option<seq<T>>
  {
    match o
    case None => None
    case Some(t) => Some(p + t)
  }

  /** The bytes of a percent-encoded text; characters outside escapes must be ASCII. */
  function PercentDecode(s: string): (r: Option<seq<nat>>)
    decreases |s|
  {
    if s == [] then Some([])
    else if s[0] == '%' then
      if |s| >= 3 && HexValue(s[1]).Some? && HexValue(s[2]).Some? then
        Prepend([16 * HexValue(s[1]).value + HexValue(s[2]).value], PercentDecode(s[3..]))
      else None
    else if s[0] as int < 0x80 then Prepend([s[0] as int], PercentDecode(s[1..]))
    else None
  }

  predicate IsContinuation(b: nat)
  {
    0x80 <= b < 0xC0
  }

  predicate IsScalar(n: int)
  {
    0 <= n < 0xD800 || 0xE000 <= n < 0x110000
  }

  /** The characters a UTF-8 byte sequence spells; none when it is malformed. */
  function Utf8Decode(bs: seq<nat>): Option<string>
    decreases |bs|
  {
    if bs == [] then Some([])
    else if bs[0] < 0x80 then Prepend([bs[0] as char], Utf8Decode(bs[1..]))
    else if 0xC0 <= bs[0] < 0xE0 && |bs| >= 2 && IsContinuation(bs[1]) then
      var n := (bs[0] - 0xC0) * 64 + (bs[1] - 0x80);
      if IsScalar(n) then Prepend([n as char], Utf8Decode(bs[2..])) else None
    else if 0xE0 <= bs[0] < 0xF0 && |bs| >= 3 && IsContinuation(bs[1]) && IsContinuation(bs[2]) then
      var n := ((bs[0] - 0xE0) * 64 + (bs[1] - 0x80)) * 64 + (bs[2] - 0x80);
      if IsScalar(n) then Prepend([n as char], Utf8Decode(bs[3..])) else None
    else if 0xF0 <= bs[0] < 0xF8 && |bs| >= 4 && IsContinuation(bs[1]) && IsContinuation(bs[2]) && IsContinuation(bs[3]) then
      var n := (((bs[0] - 0xF0) * 64 + (bs[1] - 0x80)) * 64 + (bs[2] - 0x80)) * 64 + (bs[3] - 0x80);
      if IsScalar(n) then Prepend([n as char], Utf8Decode(bs[4..])) else None
    else None
  }

  /** `decodeURIComponent`: the percent escapes read as bytes, the bytes read as UTF-8. */
  function DecodeUriComponent(s: string): Option<string>
  {
    match PercentDecode(s)
    case None => None
    case Some(bs) => Utf8Decode(bs)
  }

  /** The UTF-8 bytes of a whole text. */
  function Utf8Encode(s: string): (bs: seq<nat>)
    ensures forall k :: 0 <= k < |bs| ==> bs[k] < 256
  {
    if s == [] then [] else Utf8(s[0]) + Utf8Encode(s[1..])
  }

  lemma PrependTwice<T>(a: seq<T>, b: seq<T>, o: Option<seq<T>>)
    ensures Prepend(a, Prepend(b, o)) == Prepend(a + b, o)
  {
    match o
    case None =>
    case Some(t) => assert a + (b + t) == (a + b) + t;
  }

  /** One escape `%XY` followed by `rest` decodes to its byte before the bytes of `rest`. */
  lemma PercentDecodeOne(b: nat, rest: string)
    requires b < 256
    ensures PercentDecode(['%', HexDigit(b / 16), HexDigit(b % 16)] + rest) == Prepend([b], PercentDecode(rest))
  {
    var s := ['%', HexDigit(b / 16), HexDigit(b % 16)] + rest;
    HexRoundTrip(b / 16);
    HexRoundTrip(b % 16);
    assert s[0] == '%' && s[1] == HexDigit(b / 16) && s[2] == HexDigit(b % 16);
    assert s[3..] == rest;
  }

  lemma {:induction false} PercentDecodeBytes(bytes: seq<nat>, rest: string)
    requires forall k :: 0 <= k < |bytes| ==> bytes[k] < 256
    ensures PercentDecode(PercentBytes(bytes) + rest) == Prepend(bytes, PercentDecode(rest))
    decreases |bytes|
  {
    if bytes != [] {
      PercentDecodeBytes(bytes[1..], rest);
      PercentBytesCons(bytes, rest);
      PercentDecodeStep(bytes[0], bytes[1..], PercentBytes(bytes[1..]), rest);
      ConsTail(bytes);
    } else {
      assert PercentBytes(bytes) == [];
      PrependNothing(rest, PercentDecode(rest));
    }
  }

  /** Nothing in front changes neither a text nor a decoded remainder. */
  lemma PrependNothing<T>(rest: string, o: Option<seq<T>>)
    ensures [] + rest == rest && Prepend([], o) == o
  {
    match o
    case None =>
    case Some(t) => assert [] + t == t;
  }

  lemma PercentDecodeStep(b: nat, bs: seq<nat>, t: string, rest: string)
    requires b < 256
    requires PercentDecode(t + rest) == Prepend(bs, PercentDecode(rest))
    ensures PercentDecode(['%', HexDigit(b / 16), HexDigit(b % 16)] + (t + rest)) == Prepend([b] + bs, PercentDecode(rest))
  {
    PercentDecodeOne(b, t + rest);
    PrependTwice([b], bs, PercentDecode(rest));
  }

  lemma PercentBytesCons(bytes: seq<nat>, rest: string)
    requires |bytes| > 0 && forall k :: 0 <= k < |bytes| ==> bytes[k] < 256
    ensures PercentBytes(bytes) + rest ==
            ['%', HexDigit(bytes[0] / 16), HexDigit(bytes[0] % 16)] + (PercentBytes(bytes[1..]) + rest)
  {
    var e, t := ['%', HexDigit(bytes[0] / 16), HexDigit(bytes[0] % 16)], PercentBytes(bytes[1..]);
    assert PercentBytes(bytes) == e + t;
    ConcatAssoc(e, t, rest);
  }


  /** Undoing the percent escapes of an encoded text gives its UTF-8 bytes. */
  lemma {:induction false} PercentDecodeEncoded(s: string)
    ensures PercentDecode(EncodeUriComponent(s)) == Some(Utf8Encode(s))
    decreases |s|
  {
    if s != [] {
      var rest := EncodeUriComponent(s[1..]);
      PercentDecodeEncoded(s[1..]);
      if IsUriUnreserved(s[0]) {
        assert ([s[0]] + rest)[1..] == rest;
      } else {
        PercentDecodeBytes(Utf8(s[0]), rest);
      }
    }
  }

  lemma DivDiv(n: int)
    requires n >= 0
    ensures n / 4096 == (n / 64) / 64
    ensures n / 262144 == (n / 4096) / 64
  {
  }

  /** Decoding the bytes of one character reads that character and goes on with the rest. */
  lemma Utf8DecodeChar(c: char, rest: seq<nat>)
    ensures Utf8Decode(Utf8(c) + rest) == Prepend([c], Utf8Decode(rest))
  {
    var n := c as int;
    if n < 0x80 {
      assert (Utf8(c) + rest)[1..] == rest;
    } else if n < 0x800 {
      Utf8DecodeTwo(c, rest);
    } else if n < 0x10000 {
      Utf8DecodeThree(c, rest);
    } else {
      Utf8DecodeFour(c, rest);
    }
  }

  lemma Utf8DecodeTwo(c: char, rest: seq<nat>)
    requires 0x80 <= c as int < 0x800
    ensures Utf8Decode(Utf8(c) + rest) == Prepend([c], Utf8Decode(rest))
  {
    var n := c as int;
    var bs := Utf8(c) + rest;
    assert bs[0] == 0xC0 + n / 64 && bs[1] == 0x80 + n % 64;
    assert bs[2..] == rest;
    assert (bs[0] - 0xC0) * 64 + (bs[1] - 0x80) == n;
  }

  lemma Utf8DecodeThree(c: char, rest: seq<nat>)
    requires 0x800 <= c as int < 0x10000
    ensures Utf8Decode(Utf8(c) + rest) == Prepend([c], Utf8Decode(rest))
  {
    var n := c as int;
    var bs := Utf8(c) + rest;
    DivDiv(n);
    assert bs[0] == 0xE0 + n / 4096 && bs[1] == 0x80 + (n / 64) % 64 && bs[2] == 0x80 + n % 64;
    assert bs[3..] == rest;
    assert (n / 4096) * 64 + (n / 64) % 64 == n / 64;
    assert ((bs[0] - 0xE0) * 64 + (bs[1] - 0x80)) * 64 + (bs[2] - 0x80) == n;
  }

  lemma Utf8DecodeFour(c: char, rest: seq<nat>)
    requires 0x10000 <= c as int
    ensures Utf8Decode(Utf8(c) + rest) == Prepend([c], Utf8Decode(rest))
  {
    var n := c as int;
    var bs := Utf8(c) + rest;
    DivDiv(n);
    assert bs[0] == 0xF0 + n / 262144 && bs[1] == 0x80 + (n / 4096) % 64;
    assert bs[2] == 0x80 + (n / 64) % 64 && bs[3] == 0x80 + n % 64;
    assert bs[4..] == rest;
    assert (n / 262144) * 64 + (n / 4096) % 64 == n / 4096;
    assert (n / 4096) * 64 + (n / 64) % 64 == n / 64;
    assert (((bs[0] - 0xF0) * 64 + (bs[1] - 0x80)) * 64 + (bs[2] - 0x80)) * 64 + (bs[3] - 0x80) == n;
  }

  lemma {:induction false} Utf8RoundTrip(s: string)
    ensures Utf8Decode(Utf8Encode(s)) == Some(s)
    decreases |s|
  {
    if s != [] {
      Utf8RoundTrip(s[1..]);
      Utf8DecodeChar(s[0], Utf8Encode(s[1..]));
      assert [s[0]] + s[1..] == s;
    }
  }

  /** `decodeURIComponent(encodeURIComponent(s)) === s`: the encoding loses nothing. */
  lemma UriRoundTrip(s: string)
    ensures DecodeUriComponent(EncodeUriComponent(s)) == Some(s)
  {
    PercentDecodeEncoded(s);
    Utf8RoundTrip(s);
  }

  // ---- The query and the URL ----

  const BaseUrl: string := "https://docs.google.com/spreadsheets/d/" + SheetId + "/gviz/tq?tqx=out:json"

  /** A quoted literal of the query language is well formed: every quote inside it is doubled. */
  predicate QuotesDoubled(e: string)
    decreases |e|
  {
    e == [] || (e[0] != '\'' && QuotesDoubled(e[1..])) || (|e| >= 2 && e[..2] == "''" && QuotesDoubled(e[2..]))
  }

  /** Escaping a name leaves no quote that could end the literal early. */
  lemma {:induction false} EscapedQuotesDoubled(s: string)
    ensures QuotesDoubled(EscapeQuotes(s))
    decreases |s|
  {
    if s != [] {
      EscapedQuotesDoubled(s[1..]);
      var t := EscapeQuotes(s[1..]);
      if s[0] == '\'' {
        assert StartsWith(s, "'");
        assert EscapeQuotes(s) == "''" + t;
        assert ("''" + t)[..2] == "''" && ("''" + t)[2..] == t;
      } else {
        assert !StartsWith(s, "'");
        assert EscapeQuotes(s) == [s[0]] + t;
        assert ([s[0]] + t)[1..] == t;
      }
    }
  }

  /** The template of the query: column `col` equals the literal `e1` or the literal `e2`. */
  function Select(col: string, e1: string, e2: string): string
  {
    "select * where '" + col + "' = '" + e1 + "' or '" + col + "' = '" + e2 + "'"
  }

  /** The raw sheet name of a selected centre: its `PDK_NAME_MAP` key, or the name itself. */
  function RawName(pdkFilter: string): string
  {
    match RawNameOf(pdkFilter) case Some(k) => k case None => pdkFilter
  }

  /**
   * The query of `buildGoogleSheetUrl`: two well-formed literals, the first
   * reading as the centre's raw sheet name (its alias key, or the name itself
   * when no alias maps to it) and the second as the selected name.
   */
  function PdkQuery(pdkFilter: string, pdkColumn: string): (q: string)
    ensures exists e1, e2 {:trigger Select(pdkColumn, e1, e2)} ::
              q == Select(pdkColumn, e1, e2) && QuotesDoubled(e1) && QuotesDoubled(e2)
              && UnescapeQuotes(e2) == pdkFilter
              && (Lookup(PdkNameMap, UnescapeQuotes(e1)) == Some(pdkFilter)
                  || (UnescapeQuotes(e1) == pdkFilter && forall i :: 0 <= i < |PdkNameMap| ==> PdkNameMap[i].1 != pdkFilter))
  {
    var e1 := EscapeQuotes(RawName(pdkFilter));
    var e2 := EscapeQuotes(pdkFilter);
    EscapeRoundTrip(RawName(pdkFilter));
    EscapeRoundTrip(pdkFilter);
    EscapedQuotesDoubled(RawName(pdkFilter));
    EscapedQuotesDoubled(pdkFilter);
    Select(pdkColumn, e1, e2)
  }

  /**
   * `buildGoogleSheetUrl`: the plain gviz URL unless a centre other than
   * 'all' and a column are both given (an absent argument is the empty
   * string); then the URL carries a `tq` parameter that decodes to the query.
   */
  function BuildSheetUrl(pdkFilter: string, pdkColumn: string): (url: string)
    ensures pdkFilter == [] || pdkColumn == [] || pdkFilter == "all" ==> url == BaseUrl
    ensures pdkFilter != [] && pdkColumn != [] && pdkFilter != "all" ==>
              |url| >= |BaseUrl| + 4 && url[..|BaseUrl| + 4] == BaseUrl + "&tq="
              && DecodeUriComponent(url[|BaseUrl| + 4..]) == Some(PdkQuery(pdkFilter, pdkColumn))
  {
    if pdkFilter != [] && pdkColumn != [] && pdkFilter != "all" then
      var tq := EncodeUriComponent(PdkQuery(pdkFilter, pdkColumn));
      UriRoundTrip(PdkQuery(pdkFilter, pdkColumn));
      var url := BaseUrl + "&tq=" + tq;
      assert url[..|BaseUrl| + 4] == BaseUrl + "&tq=" && url[|BaseUrl| + 4..] == tq;
      url
    else BaseUrl
  }
}
