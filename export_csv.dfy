/**
 * The text built by `exportCSV` in src/utils/exportCSV.js before it is URI-encoded and
 * downloaded: a data-URI prefix, a header line of the first row's keys, then one line of
 * values per row. Fields are neither quoted nor escaped.
 */
module ExportCsv {
  import opened Common

  /** A row object: its (key, value) properties in property order, values already strings. */
  type Row = seq<(string, string)>

  const DataUriPrefix: string := "data:text/csv;charset=utf-8,"

  /** `Object.keys(row)`. */
  function Keys(row: Row): seq<string> {
    seq(|row|, i requires 0 <= i < |row| => row[i].0)
  }

  /** `Object.values(row)`. */
  function Values(row: Row): seq<string> {
    seq(|row|, i requires 0 <= i < |row| => row[i].1)
  }

  /** `Array.prototype.join`: no separator before the first part nor after the last. */
  function Join(parts: seq<string>, sep: string): (r: string)
    ensures |parts| > 0 ==> parts[0] <= r
    ensures |parts| > 1 ==> parts[0] + sep <= r
  {
    if |parts| == 0 then ""
    else if |parts| == 1 then parts[0]
    else parts[0] + sep + Join(parts[1..], sep)
  }

  /** `data.map(row => Object.values(row).join(","))`. */
  function ValueLines(data: seq<Row>): (lines: seq<string>)
    ensures |lines| == |data|
  {
    seq(|data|, i requires 0 <= i < |data| => Join(Values(data[i]), ","))
  }

  /** The `csvContent` string; `None` when `data` is empty, where reading `data[0]` throws. */
  function CsvContent(data: seq<Row>): (text: Option<string>)
    ensures text.None? <==> data == []
    ensures text.Some? ==> DataUriPrefix <= text.value
  {
    if data == [] then None
    else Some(DataUriPrefix + Join(Keys(data[0]), ",") + "\n" + Join(ValueLines(data), "\n"))
  }

  // ---------------------------------------------------------------- reading the text back

  /** `s.split(sep)` for a one-character separator: the inverse of `Join`. */
  function Split(s: string, sep: char): (parts: seq<string>)
    ensures |parts| >= 1
    ensures forall i :: 0 <= i < |parts| ==> sep !in parts[i]
  {
    if s == [] then [""]
    else
      var rest := Split(s[1..], sep);
      if s[0] == sep then [""] + rest
      else
        var parts := [[s[0]] + rest[0]] + rest[1..];
        assert forall i :: 1 <= i < |parts| ==> parts[i] == rest[i];
        parts
  }

  /** Joining the pieces of a split with the separator gives the text back. */
  lemma {:induction false} JoinSplit(s: string, sep: char)
    ensures Join(Split(s, sep), [sep]) == s
  {
    if s != [] {
      var rest := Split(s[1..], sep);
      JoinSplit(s[1..], sep);
      assert s == [s[0]] + s[1..];
      if s[0] != sep && |rest| > 1 {
        var parts := Split(s, sep);
        assert parts[1..] == rest[1..];
      }
    }
  }

  lemma {:induction false} SplitWithout(s: string, sep: char)
    requires sep !in s
    ensures Split(s, sep) == [s]
  {
    if s != [] {
      SplitWithout(s[1..], sep);
      assert [s[0]] + s[1..] == s;
    }
  }

  lemma {:induction false} SplitAt(p: string, sep: char, rest: string)
    requires sep !in p
    ensures Split(p + [sep] + rest, sep) == [p] + Split(rest, sep)
  {
    if p == [] {
      assert p + [sep] + rest == [sep] + rest;
    } else {
      var s := p + [sep] + rest;
      assert s[0] == p[0] && s[1..] == p[1..] + [sep] + rest;
      SplitAt(p[1..], sep, rest);
      assert [p[0]] + p[1..] == p;
    }
  }

  /** Splitting a join on its separator gives the parts back when no part holds the separator. */
  lemma {:induction false} SplitJoin(parts: seq<string>, sep: char)
    requires |parts| >= 1
    requires forall i :: 0 <= i < |parts| ==> sep !in parts[i]
    ensures Split(Join(parts, [sep]), sep) == parts
  {
    if |parts| == 1 {
      SplitWithout(parts[0], sep);
    } else {
      SplitJoin(parts[1..], sep);
      SplitAt(parts[0], sep, Join(parts[1..], [sep]));
    }
  }

  /** A join holds a character only if a part or the separator does. */
  lemma {:induction false} JoinWithout(parts: seq<string>, sep: string, c: char)
    requires c !in sep
    requires forall i :: 0 <= i < |parts| ==> c !in parts[i]
    ensures c !in Join(parts, sep)
  {
    if |parts| > 1 {
      JoinWithout(parts[1..], sep, c);
    }
  }

  /** Whether no key and no value of any row holds a line break. */
  predicate NoLineBreaks(data: seq<Row>) {
    forall i, j :: 0 <= i < |data| && 0 <= j < |data[i]| ==> '\n' !in data[i][j].0 && '\n' !in data[i][j].1
  }

  /**
   * Without line breaks in the data, the text after the prefix has exactly `|data| + 1` lines:
   * the first row's keys, then each row's values in input order, all joined by commas.
   */
  lemma {:induction false} CsvLines(data: seq<Row>)
    requires data != [] && NoLineBreaks(data)
    ensures var text := CsvContent(data).value;
      var lines := Split(text[|DataUriPrefix|..], '\n');
      && text[..|DataUriPrefix|] == DataUriPrefix
      && lines == [Join(Keys(data[0]), ",")] + ValueLines(data)
      && |lines| == |data| + 1
      && lines[0] == Join(Keys(data[0]), ",")
      && forall i :: 0 <= i < |data| ==> lines[i + 1] == Join(Values(data[i]), ",")
  {
    var header := Join(Keys(data[0]), ",");
    var rows := ValueLines(data);
    var all := [header] + rows;
    JoinWithout(Keys(data[0]), ",", '\n');
    forall i | 0 <= i < |data|
      ensures '\n' !in rows[i]
    {
      JoinWithout(Values(data[i]), ",", '\n');
    }
    assert all[1..] == rows;
    assert Join(all, "\n") == header + "\n" + Join(rows, "\n");
    SplitJoin(all, '\n');
    var text := CsvContent(data).value;
    assert text == DataUriPrefix + Join(all, "\n");
    assert text[|DataUriPrefix|..] == Join(all, "\n");
  }

  /**
   * Fields are not quoted: a one-cell table is written as its key and its value verbatim, so a
   * value holding a comma reads back as two fields.
   */
  lemma {:induction false} ValuesAreWrittenVerbatim(key: string, value: string)
    ensures CsvContent([[(key, value)]]) == Some(DataUriPrefix + key + "\n" + value)
  {
  }

  /**
   * A value holding a comma is written unquoted: in a one-cell table whose key is `key` and
   * whose value is `a + "," + b`, the second line reads back as the two fields `a` and `b`.
   */
  lemma {:induction false} CommaInValueSplitsIt(key: string, a: string, b: string)
    requires ',' !in key && ',' !in a && ',' !in b
    requires '\n' !in key && '\n' !in a && '\n' !in b
    ensures var text := CsvContent([[(key, a + "," + b)]]).value;
      var lines := Split(text[|DataUriPrefix|..], '\n');
      |lines| == 2 && lines[0] == key && Split(lines[1], ',') == [a, b]
  {
    var data: seq<Row> := [[(key, a + "," + b)]];
    assert '\n' !in a + "," + b;
    assert NoLineBreaks(data);
    CsvLines(data);
    assert Keys(data[0]) == [key] && Values(data[0]) == [a + "," + b];
    SplitAt(a, ',', b);
    SplitWithout(b, ',');
  }
}
