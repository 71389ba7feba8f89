/**
 CSV export: `rowsToCsv` of indexer/src/api.js, against a reader of the grammar in section 2 of RFC 4180 whose records
 end in LF and whose text data may contain CR.
 */
module Csv {
  import opened Options

  /** A row maps column names to the text of its values; a null or missing value has no entry. */
  type Row = map<string, string>

  predicate Special(c: char) {
    c == ',' || c == '"' || c == '\n'
  }

  predicate PlainText(s: string) {
    forall i :: 0 <= i < |s| ==> !Special(s[i])
  }

  /** `s.replace(/"/g, '""')` */
  function DoubleQuotes(s: string): string {
    if s == "" then "" else (if s[0] == '"' then "\"\"" else [s[0]]) + DoubleQuotes(s[1..])
  }

  function Escape(s: string): string {
    if PlainText(s) then s else "\"" + DoubleQuotes(s) + "\""
  }

  function Join(parts: seq<string>, separator: string): string {
    if parts == [] then "" else if |parts| == 1 then parts[0] else parts[0] + separator + Join(parts[1..], separator)
  }

  function Value(row: Row, column: string): string {
    if column in row then row[column] else ""
  }

  function Values(row: Row, columns: seq<string>): (vs: seq<string>)
    ensures |vs| == |columns|
  {
    if columns == [] then [] else [Value(row, columns[0])] + Values(row, columns[1..])
  }

  function EscapeAll(vs: seq<string>): (r: seq<string>)
    ensures |r| == |vs|
  {
    if vs == [] then [] else [Escape(vs[0])] + EscapeAll(vs[1..])
  }

  function Lines(rows: seq<Row>, columns: seq<string>): (r: seq<string>)
    ensures |r| == |rows|
  {
    if rows == [] then [] else [Join(EscapeAll(Values(rows[0], columns)), ",")] + Lines(rows[1..], columns)
  }

  function RowsToCsv(rows: seq<Row>, columns: seq<string>): string {
    if rows == [] then Join(columns, ",") + "\n"
    else Join(columns, ",") + "\n" + Join(Lines(rows, columns), "\n") + "\n"
  }

  /* ----- the reader ----- */

  /** The content of a quoted field after its opening quote, and what follows its closing quote. */
  function ReadQuoted(s: string): (r: Option<(string, string)>)
    ensures r.Some? ==> |r.value.0| + |r.value.1| < |s|
  {
    if s == "" then None
    else if s[0] == '"' && !(|s| > 1 && s[1] == '"') then Some(("", s[1..]))
    else
      var rest := ReadQuoted(if s[0] == '"' then s[2..] else s[1..]);
      if rest.None? then None else Some(([s[0]] + rest.value.0, rest.value.1))
  }

  function ReadPlain(s: string): (r: (string, string))
    ensures r.0 + r.1 == s && PlainText(r.0) && (r.1 == "" || Special(r.1[0]))
  {
    if s == "" || Special(s[0]) then ("", s)
    else var r := ReadPlain(s[1..]); ([s[0]] + r.0, r.1)
  }

  function ReadField(s: string): (r: Option<(string, string)>)
    ensures r.Some? ==> |r.value.1| <= |s|
  {
    if s != "" && s[0] == '"' then ReadQuoted(s[1..]) else Some(ReadPlain(s))
  }

  /** Fields up to the LF that ends the record, and what follows it. */
  function ReadRecord(s: string): (r: Option<(seq<string>, string)>)
    ensures r.Some? ==> |r.value.1| < |s| && |r.value.0| >= 1
    decreases |s|
  {
    var f := ReadField(s);
    if f.None? || f.value.1 == "" then None
    else
      var (field, rest) := f.value;
      if rest[0] == '\n' then Some(([field], rest[1..]))
      else if rest[0] == ',' then
        var more := ReadRecord(rest[1..]);
        if more.None? then None else Some(([field] + more.value.0, more.value.1))
      else None
  }

  function ReadFile(s: string): Option<seq<seq<string>>>
    decreases |s|
  {
    if s == "" then Some([])
    else
      var r := ReadRecord(s);
      if r.None? then None
      else
        var more := ReadFile(r.value.1);
        if more.None? then None else Some([r.value.0] + more.value)
  }

  /* ----- reading back what was written ----- */

  lemma {:induction false} QuotedBack(s: string, rest: string)
    requires rest == "" || rest[0] != '"'
    ensures ReadQuoted(DoubleQuotes(s) + "\"" + rest) == Some((s, rest))
  {
    var text := DoubleQuotes(s) + "\"" + rest;
    if s == "" {
      assert text == "\"" + rest && text[1..] == rest;
    } else {
      QuotedBack(s[1..], rest);
      var tail := DoubleQuotes(s[1..]) + "\"" + rest;
      assert [s[0]] + s[1..] == s;
      if s[0] == '"' {
        assert text == "\"\"" + tail;
        hide DoubleQuotes;
        assert text[2..] == tail;
      } else {
        assert text == [s[0]] + tail;
        hide DoubleQuotes;
        assert text[1..] == tail;
      }
    }
  }

  lemma {:induction false} PlainBack(s: string, rest: string)
    requires PlainText(s) && (rest == "" || Special(rest[0]))
    ensures ReadPlain(s + rest) == (s, rest)
  {
    if s == "" {
      assert s + rest == rest;
    } else {
      assert (s + rest)[1..] == s[1..] + rest;
      PlainBack(s[1..], rest);
      assert [s[0]] + s[1..] == s;
    }
  }

  lemma PlainFieldBack(s: string, rest: string)
    requires PlainText(s) && rest != "" && (rest[0] == ',' || rest[0] == '\n')
    ensures ReadField(s + rest) == Some((s, rest))
  {
    PlainBack(s, rest);
    hide ReadPlain, ReadQuoted;
    assert s != "" ==> Special(s[0]) == false;
    assert (s + rest)[0] != '"';
  }

  lemma OpeningQuote(d: string, rest: string)
    ensures var text := "\"" + d + "\"" + rest; text != "" && text[0] == '"' && text[1..] == d + "\"" + rest
  {
  }

  lemma ReadFieldQuoted(text: string)
    requires text != "" && text[0] == '"'
    ensures ReadField(text) == ReadQuoted(text[1..])
  {
    hide ReadQuoted;
  }

  lemma QuotedFieldBack(s: string, rest: string)
    requires rest != "" && rest[0] != '"'
    ensures ReadField("\"" + DoubleQuotes(s) + "\"" + rest) == Some((s, rest))
  {
    hide ReadField, ReadQuoted, DoubleQuotes;
    QuotedBack(s, rest);
    OpeningQuote(DoubleQuotes(s), rest);
    ReadFieldQuoted("\"" + DoubleQuotes(s) + "\"" + rest);
  }

  lemma FieldBack(s: string, rest: string)
    requires rest != "" && (rest[0] == ',' || rest[0] == '\n')
    ensures ReadField(Escape(s) + rest) == Some((s, rest))
  {
    hide ReadField, DoubleQuotes, PlainText;
    if PlainText(s) {
      PlainFieldBack(s, rest);
    } else {
      QuotedFieldBack(s, rest);
    }
  }

  lemma {:induction false} RecordBack(vs: seq<string>, rest: string)
    requires vs != []
    ensures ReadRecord(Join(EscapeAll(vs), ",") + "\n" + rest) == Some((vs, rest))
    decreases |vs|
  {
    hide Escape, ReadField;
    var text := Join(EscapeAll(vs), ",") + "\n" + rest;
    if |vs| == 1 {
      var after := "\n" + rest;
      assert text == Escape(vs[0]) + after && after[1..] == rest;
      FieldBack(vs[0], after);
      assert [vs[0]] == vs;
    } else {
      RecordBack(vs[1..], rest);
      var tail := Join(EscapeAll(vs[1..]), ",") + "\n" + rest;
      var after := "," + tail;
      assert EscapeAll(vs)[1..] == EscapeAll(vs[1..]);
      assert text == Escape(vs[0]) + after && after[1..] == tail;
      FieldBack(vs[0], after);
      assert [vs[0]] + vs[1..] == vs;
    }
  }

  function Records(rows: seq<Row>, columns: seq<string>): seq<seq<string>> {
    if rows == [] then [] else [Values(rows[0], columns)] + Records(rows[1..], columns)
  }

  lemma {:induction false} ValueAt(row: Row, columns: seq<string>, j: nat)
    requires j < |columns|
    ensures Values(row, columns)[j] == if columns[j] in row then row[columns[j]] else ""
  {
    if j > 0 {
      ValueAt(row, columns[1..], j - 1);
    }
  }

  /** One record for each row in order, with one field for each column in order. */
  lemma {:induction false} RecordsMeaning(rows: seq<Row>, columns: seq<string>)
    ensures |Records(rows, columns)| == |rows|
    ensures forall i :: 0 <= i < |rows| ==> |Records(rows, columns)[i]| == |columns|
    ensures forall i, j :: 0 <= i < |rows| && 0 <= j < |columns| ==>
                             Records(rows, columns)[i][j] == if columns[j] in rows[i] then rows[i][columns[j]] else ""
  {
    hide Values;
    if rows != [] {
      RecordsMeaning(rows[1..], columns);
      forall j | 0 <= j < |columns|
        ensures Values(rows[0], columns)[j] == if columns[j] in rows[0] then rows[0][columns[j]] else ""
      {
        ValueAt(rows[0], columns, j);
      }
    }
  }

  lemma {:induction false} BodyBack(rows: seq<Row>, columns: seq<string>)
    requires rows != [] && columns != []
    ensures ReadFile(Join(Lines(rows, columns), "\n") + "\n") == Some(Records(rows, columns))
  {
    hide ReadRecord;
    var line := Join(EscapeAll(Values(rows[0], columns)), ",");
    var text := Join(Lines(rows, columns), "\n") + "\n";
    if |rows| == 1 {
      assert text == line + "\n" + "";
      RecordBack(Values(rows[0], columns), "");
    } else {
      BodyBack(rows[1..], columns);
      var tail := Join(Lines(rows[1..], columns), "\n") + "\n";
      assert Lines(rows, columns)[1..] == Lines(rows[1..], columns);
      assert text == line + "\n" + tail;
      RecordBack(Values(rows[0], columns), tail);
    }
  }

  predicate PlainNames(columns: seq<string>) {
    forall i :: 0 <= i < |columns| ==> PlainText(columns[i])
  }

  lemma {:induction false} PlainNeedNoEscape(columns: seq<string>)
    requires PlainNames(columns)
    ensures EscapeAll(columns) == columns
  {
    if columns != [] { PlainNeedNoEscape(columns[1..]); }
  }

  /**
   The file reads back as the header and every row's values, for any values: a null or missing one as the empty field.
   (The header is written unescaped, so its names must not need escaping.)
   */
  lemma CsvReadsBack(rows: seq<Row>, columns: seq<string>)
    requires columns != [] && PlainNames(columns)
    ensures ReadFile(RowsToCsv(rows, columns)) == Some([columns] + Records(rows, columns))
    ensures |Records(rows, columns)| == |rows|
    ensures forall i :: 0 <= i < |rows| ==> |Records(rows, columns)[i]| == |columns|
    ensures forall i, j :: 0 <= i < |rows| && 0 <= j < |columns| ==>
                             Records(rows, columns)[i][j] == if columns[j] in rows[i] then rows[i][columns[j]] else ""
  {
    RecordsMeaning(rows, columns);
    hide ReadRecord;
    PlainNeedNoEscape(columns);
    if rows == [] {
      RecordBack(columns, "");
      assert Join(columns, ",") + "\n" + "" == RowsToCsv(rows, columns);
    } else {
      var body := Join(Lines(rows, columns), "\n") + "\n";
      RecordBack(columns, body);
      assert Join(columns, ",") + "\n" + body == RowsToCsv(rows, columns);
      BodyBack(rows, columns);
    }
  }

  /* ----- when the header reads back ----- */

  function TotalLength(fields: seq<string>): nat {
    if fields == [] then 0 else |fields[0]| + TotalLength(fields[1..])
  }

  lemma FieldLength(s: string)
    ensures var r := ReadField(s);
            r.Some? ==> |s| - |r.value.1| >= |r.value.0|
                        && (|s| - |r.value.1| == |r.value.0| ==> PlainText(r.value.0))
  {
  }

  /** A record takes at least its fields and one separator each, and exactly that only if no field was quoted. */
  lemma {:induction false} RecordLength(s: string)
    requires ReadRecord(s).Some?
    ensures var (fields, rest) := ReadRecord(s).value;
            && |s| - |rest| >= TotalLength(fields) + |fields|
            && (|s| - |rest| == TotalLength(fields) + |fields| ==> PlainNames(fields))
    decreases |s|
  {
    hide ReadField, PlainText;
    FieldLength(s);
    var (field, after) := ReadField(s).value;
    if after[0] == ',' {
      RecordLength(after[1..]);
      var (fields, rest) := ReadRecord(s).value;
      assert fields[1..] == ReadRecord(after[1..]).value.0;
    } else {
      assert TotalLength([field]) == |field| + TotalLength([field][1..]) == |field|;
    }
  }

  lemma {:induction false} JoinLength(parts: seq<string>)
    requires parts != []
    ensures |Join(parts, ",")| == TotalLength(parts) + |parts| - 1
  {
    if |parts| > 1 { JoinLength(parts[1..]); }
  }

  /** The unescaped header line reads back as the column names exactly when no name needs escaping. */
  lemma HeaderReadsBackIff(columns: seq<string>, rest: string)
    requires columns != []
    ensures ReadRecord(Join(columns, ",") + "\n" + rest) == Some((columns, rest)) <==> PlainNames(columns)
  {
    hide ReadRecord;
    var text := Join(columns, ",") + "\n" + rest;
    if PlainNames(columns) {
      PlainNeedNoEscape(columns);
      RecordBack(columns, rest);
    } else if ReadRecord(text) == Some((columns, rest)) {
      RecordLength(text);
      JoinLength(columns);
    }
  }
}
