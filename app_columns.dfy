/**
 * Spreadsheet column letters and 0-based column indices (`excelColumnToIndex`
 * and `indexToExcelColumn` in src/App.tsx): the letters are bijective base 26,
 * 'A' = 1 ... 'Z' = 26, and index = number - 1.
 */
module Columns {

  /** The column number the letters spell, folding left to right with digit `code - 'A' + 1`. */
  function ColumnNumber(s: string): int
  {
    if s == [] then 0 else ColumnNumber(s[..|s| - 1]) * 26 + (s[|s| - 1] as int - 'A' as int + 1)
  }

  /** The letters of a 1-based column number; the empty string for 0. */
  function LettersOf(n: nat): string
  {
    if n == 0 then [] else LettersOf((n - 1) / 26) + [(65 + (n - 1) % 26) as char]
  }

  predicate AllUpper(s: string)
  {
    forall k :: 0 <= k < |s| ==> 'A' <= s[k] <= 'Z'
  }

  /** `excelColumnToIndex`: the number the letters spell, minus one. */
  method ExcelColumnToIndex(column: string) returns (index: int)
    ensures index == ColumnNumber(column) - 1
  {
    var result := 0;
    var i := 0;
    while i < |column|
      invariant 0 <= i <= |column|
      invariant result == ColumnNumber(column[..i])
    {
      assert column[..i + 1][..i] == column[..i];
      result := result * 26 + (column[i] as int - 'A' as int + 1);
      i := i + 1;
    }
    assert column[..|column|] == column;
    index := result - 1;
  }

  /** `indexToExcelColumn`: the letters of `index + 1`, nothing for a negative index. */
  method IndexToExcelColumn(index: int) returns (column: string)
    ensures index < 0 ==> column == []
    ensures index >= 0 ==> column == LettersOf(index + 1)
  {
    column := [];
    var num := index + 1;
    if num <= 0 {
      return;
    }
    while num > 0
      invariant num >= 0
      invariant LettersOf(index + 1) == LettersOf(num) + column
    {
      num := num - 1;
      column := [(65 + num % 26) as char] + column;
      num := num / 26;
    }
  }

  /** Every character `indexToExcelColumn` emits is a letter 'A'-'Z'. */
  lemma {:induction false} LettersAreUpper(n: nat)
    ensures AllUpper(LettersOf(n))
    decreases n
  {
    if n > 0 {
      LettersAreUpper((n - 1) / 26);
    }
  }

  /** Spelling a number and reading it back gives the number. */
  lemma {:induction false} NumberOfLetters(n: nat)
    ensures ColumnNumber(LettersOf(n)) == n
    decreases n
  {
    if n > 0 {
      var s := LettersOf(n);
      NumberOfLetters((n - 1) / 26);
      assert s[..|s| - 1] == LettersOf((n - 1) / 26);
    }
  }

  /** `excelColumnToIndex(indexToExcelColumn(i)) == i` for every i >= 0. */
  lemma IndexRoundTrip(i: nat)
    ensures ColumnNumber(LettersOf(i + 1)) - 1 == i
  {
    NumberOfLetters(i + 1);
  }

  /** Reading non-empty capital letters and spelling the number gives the letters back. */
  lemma {:induction false} LettersOfNumber(s: string)
    requires s != [] && AllUpper(s)
    ensures ColumnNumber(s) >= 1
    ensures LettersOf(ColumnNumber(s)) == s
    decreases |s|
  {
    var s' := s[..|s| - 1];
    var c := s[|s| - 1];
    var d := c as int - 'A' as int + 1;
    var m := ColumnNumber(s');
    if s' != [] {
      LettersOfNumber(s');
    }
    assert 1 <= d <= 26 && m >= 0;
    var n := m * 26 + d;
    assert (n - 1) / 26 == m && (n - 1) % 26 == d - 1;
    assert s == s' + [c];
  }

  /** Columns 1-26 are one letter. */
  lemma LettersOfOne(n: nat)
    requires 1 <= n <= 26
    ensures LettersOf(n) == [(64 + n) as char]
  {
    assert (n - 1) / 26 == 0;
  }

  /** Columns 27-702 are two letters. */
  lemma LettersOfTwo(n: nat)
    requires 27 <= n <= 702
    ensures LettersOf(n) == [(64 + (n - 1) / 26) as char, (65 + (n - 1) % 26) as char]
  {
    var m := (n - 1) / 26;
    assert 1 <= m <= 26;
    LettersOfOne(m);
  }

  /** Columns from 703 on have at least three letters. */
  lemma {:induction false} LettersOfLong(n: nat)
    requires n >= 703
    ensures |LettersOf(n)| >= 3
  {
    var m := (n - 1) / 26;
    assert m >= 27;
    if m <= 702 {
      LettersOfTwo(m);
    } else {
      LettersOfLong(m);
    }
  }
}
