/** The CSV download of a widget's data (handleDownload in
    components/dashboard/DashboardGrid.tsx): a header line of the first row's keys and one
    line per row of double-quoted values, and the file name derived from the title. */
module Csv {
  import opened Common
  import opened Values

  // ---------------------------------------------------------------------------
  // Text layout

  /** `"${val}"`: the value's text between double quotes, with nothing escaped. */
  function Quoted(t: string): (r: string)
    ensures |r| == |t| + 2 && r[0] == '"' && r[|r| - 1] == '"'
  {
    "\"" + t + "\""
  }

  /** The value texts a row contributes to its line; a header the row lacks gives
      undefined. */
  function FieldTexts(row: Row, headers: seq<string>): (r: seq<string>)
    ensures |r| == |headers|
    ensures forall i :: 0 <= i < |headers| ==> r[i] == Text(Lookup(row, headers[i]))
  {
    seq(|headers|, i requires 0 <= i < |headers| => Text(Lookup(row, headers[i])))
  }

  function QuotedAll(ts: seq<string>): (r: seq<string>)
    ensures |r| == |ts| && forall i :: 0 <= i < |ts| ==> r[i] == Quoted(ts[i])
  {
    seq(|ts|, i requires 0 <= i < |ts| => Quoted(ts[i]))
  }

  /** The line of one row: its value under every header, quoted, joined by commas. */
  function Record(row: Row, headers: seq<string>): string
  {
    Join(QuotedAll(FieldTexts(row, headers)), ",")
  }

  /** The lines of the file: the header line, then one per row. */
  function CsvLines(data: seq<Row>): (r: seq<string>)
    requires |data| > 0
    ensures |r| == |data| + 1
    ensures r[0] == Join(Keys(data[0]), ",")
    ensures forall i :: 0 <= i < |data| ==> r[i + 1] == Record(data[i], Keys(data[0]))
  {
    [Join(Keys(data[0]), ",")] + seq(|data|, i requires 0 <= i < |data| => Record(data[i], Keys(data[0])))
  }

  /** The file's text; no data gives no download. */
  function CsvText(data: seq<Row>): (r: Option<string>)
    ensures r.None? <==> data == []
  {
    if data == [] then None else Some(Join(CsvLines(data), "\n"))
  }

  // ---------------------------------------------------------------------------
  // Reading the text back

  /** s cut at every occurrence of c (String.prototype.split with a one-character
      separator). */
  function Split(s: string, c: char): (r: seq<string>)
    ensures |r| >= 1
    decreases |s|
  {
    if s == [] then [""]
    else if s[0] == c then [""] + Split(s[1..], c)
    else var t := Split(s[1..], c); [[s[0]] + t[0]] + t[1..]
  }

  lemma {:induction false} SplitWithout(p: string, c: char)
    requires c !in p
    ensures Split(p, c) == [p]
    decreases |p|
  {
    if p != [] {
      SplitWithout(p[1..], c);
      assert p == [p[0]] + p[1..];
    }
  }

  lemma {:induction false} SplitAfter(p: string, c: char, t: string)
    requires c !in p
    ensures Split(p + [c] + t, c) == [p] + Split(t, c)
    decreases |p|
  {
    if p == [] {
      assert p + [c] + t == [c] + t;
      assert (p + [c] + t)[1..] == t;
    } else {
      SplitAfter(p[1..], c, t);
      assert (p + [c] + t)[1..] == p[1..] + [c] + t;
      assert p == [p[0]] + p[1..];
    }
  }

  /** Splitting lines joined by c gives the lines back when none of them holds c. */
  lemma {:induction false} SplitJoin(parts: seq<string>, c: char)
    requires |parts| >= 1
    requires forall i :: 0 <= i < |parts| ==> c !in parts[i]
    ensures Split(Join(parts, [c]), c) == parts
    decreases |parts|
  {
    if |parts| == 1 {
      SplitWithout(parts[0], c);
    } else {
      SplitJoin(parts[1..], c);
      assert Join(parts, [c]) == parts[0] + [c] + Join(parts[1..], [c]);
      SplitAfter(parts[0], c, Join(parts[1..], [c]));
      assert parts == [parts[0]] + parts[1..];
    }
  }

  /** One quoted field at the front of s: its text and what follows the closing quote. */
  function TakeQuoted(s: string): (r: Option<(string, string)>)
    ensures r.Some? ==> |r.value.1| < |s|
  {
    if |s| < 1 || s[0] != '"' then None else TakeBody(s[1..])
  }

  /** The text up to the next double quote and what follows that quote. */
  function TakeBody(s: string): (r: Option<(string, string)>)
    ensures r.Some? ==> |r.value.1| < |s|
    decreases |s|
  {
    if s == [] then None
    else if s[0] == '"' then Some(("", s[1..]))
    else match TakeBody(s[1..])
      case None => None
      case Some((t, rest)) => Some(([s[0]] + t, rest))
  }

  lemma {:induction false} TakeBodyOf(t: string, rest: string)
    requires '"' !in t
    ensures TakeBody(t + "\"" + rest) == Some((t, rest))
    decreases |t|
  {
    if t == [] {
      assert t + "\"" + rest == "\"" + rest;
      assert ("\"" + rest)[1..] == rest;
    } else {
      TakeBodyOf(t[1..], rest);
      assert (t + "\"" + rest)[1..] == t[1..] + "\"" + rest;
      assert t == [t[0]] + t[1..];
    }
  }

  /** The field texts of a line of comma-separated quoted fields. */
  function ParseRecord(s: string): (r: Option<seq<string>>)
    decreases |s|
  {
    match TakeQuoted(s)
    case None => None
    case Some((t, rest)) =>
      if rest == [] then Some([t])
      else if rest[0] != ',' then None
      else match ParseRecord(rest[1..])
        case None => None
        case Some(ts) => Some([t] + ts)
  }

  lemma TakeQuotedOf(t: string, rest: string)
    requires '"' !in t
    ensures TakeQuoted(Quoted(t) + rest) == Some((t, rest))
  {
    assert (Quoted(t) + rest)[1..] == t + "\"" + rest;
    TakeBodyOf(t, rest);
  }

  /** Quoting texts without double quotes and joining them by commas is read back by
      ParseRecord: each line of the file holds the row's values in header order. */
  lemma {:induction false} ParseQuotedJoin(ts: seq<string>)
    requires |ts| >= 1
    requires forall i :: 0 <= i < |ts| ==> '"' !in ts[i]
    ensures ParseRecord(Join(QuotedAll(ts), ",")) == Some(ts)
    decreases |ts|
  {
    var q := QuotedAll(ts);
    if |ts| == 1 {
      assert Join(q, ",") == Quoted(ts[0]) + "";
      TakeQuotedOf(ts[0], "");
      assert ts == [ts[0]];
    } else {
      var tail := Join(QuotedAll(ts[1..]), ",");
      assert q[1..] == QuotedAll(ts[1..]);
      assert Join(q, ",") == Quoted(ts[0]) + ("," + tail);
      TakeQuotedOf(ts[0], "," + tail);
      assert ("," + tail)[1..] == tail;
      ParseQuotedJoin(ts[1..]);
      assert ts == [ts[0]] + ts[1..];
    }
  }

  /** A row's line is read back into the texts of its values under the headers, when none
      holds a double quote. */
  lemma RecordFields(row: Row, headers: seq<string>)
    requires |headers| >= 1
    requires forall i :: 0 <= i < |headers| ==> '"' !in FieldTexts(row, headers)[i]
    ensures ParseRecord(Record(row, headers)) == Some(FieldTexts(row, headers))
  {
    ParseQuotedJoin(FieldTexts(row, headers));
  }

  /** No line break in any header or value: the file splits into the header line and one
      line per row, in row order. */
  lemma CsvTextLines(data: seq<Row>)
    requires |data| > 0
    requires forall h :: h in Keys(data[0]) ==> '\n' !in h
    requires forall i, j :: 0 <= i < |data| && 0 <= j < |Keys(data[0])| ==>
      '\n' !in FieldTexts(data[i], Keys(data[0]))[j]
    ensures Split(CsvText(data).value, '\n') == CsvLines(data)
  {
    var lines := CsvLines(data);
    var headers := Keys(data[0]);
    forall i | 0 <= i < |lines| ensures '\n' !in lines[i] {
      if i == 0 {
        CommaHasNoBreak();
        NoBreakInJoin(headers, ",");
      } else {
        RecordHasNoBreak(data[i - 1], headers);
      }
    }
    assert CsvText(data).value == Join(lines, ['\n']);
    SplitJoin(lines, '\n');
  }

  lemma CommaHasNoBreak()
    ensures '\n' !in ","
  {
  }

  lemma RecordHasNoBreak(row: Row, headers: seq<string>)
    requires forall j :: 0 <= j < |headers| ==> '\n' !in FieldTexts(row, headers)[j]
    ensures '\n' !in Record(row, headers)
  {
    var ts := FieldTexts(row, headers);
    var q := QuotedAll(ts);
    forall j | 0 <= j < |q| ensures '\n' !in q[j] {
      assert '\n' !in ts[j];
      assert q[j] == "\"" + ts[j] + "\"";
    }
    CommaHasNoBreak();
    NoBreakInJoin(q, ",");
  }

  lemma {:induction false} NoBreakInJoin(parts: seq<string>, sep: string)
    requires '\n' !in sep
    requires forall i :: 0 <= i < |parts| ==> '\n' !in parts[i]
    ensures '\n' !in Join(parts, sep)
    decreases |parts|
  {
    if |parts| > 1 {
      NoBreakInJoin(parts[1..], sep);
      assert Join(parts, sep) == parts[0] + sep + Join(parts[1..], sep);
    }
  }

  /** The file of a one-row table: the header line, a line break, the record. */
  lemma OneRowText(row: Row)
    ensures CsvText([row]) == Some(Join(Keys(row), ",") + "\n" + Record(row, Keys(row)))
  {
    var lines := CsvLines([row]);
    assert lines == [Join(Keys(row), ","), Record(row, Keys(row))];
    assert lines[1..] == [lines[1]];
    assert Join(lines, "\n") == lines[0] + "\n" + Join(lines[1..], "\n");
  }

  /** The record of a row under two headers. */
  lemma TwoFieldRecord(row: Row, a: string, b: string)
    ensures Record(row, [a, b]) == Quoted(Text(Lookup(row, a))) + "," + Quoted(Text(Lookup(row, b)))
  {
    var q := QuotedAll(FieldTexts(row, [a, b]));
    assert q == [Quoted(Text(Lookup(row, a))), Quoted(Text(Lookup(row, b)))];
    assert q[1..] == [q[1]];
    assert Join(q, ",") == q[0] + "," + Join(q[1..], ",");
  }

  lemma TwoColumnKeys(row: Row)
    requires |row| == 2 && row[0].0 == "a" && row[1].0 == "b"
    ensures Keys(row) == ["a", "b"]
    ensures Join(Keys(row), ",") == "a,b"
  {
    NamesAt(row, 0);
    NamesAt(row, 1);
    assert Names(row) == ["a", "b"];
    PlainNames(["a", "b"]);
    HeaderLine();
  }

  lemma HeaderLine()
    ensures Join(["a", "b"], ",") == "a,b"
  {
    var ks := ["a", "b"];
    assert ks[1..] == ["b"];
    assert Join(ks, ",") == "a" + "," + Join(["b"], ",");
  }

  /** The record of a two-column row whose values read as the texts x and y. */
  lemma TwoColumnRecord(row: Row, x: string, y: string)
    requires |row| == 2 && row[0].0 == "a" && row[1].0 == "b"
    requires Text(Some(row[0].1)) == x && Text(Some(row[1].1)) == y
    ensures Record(row, Keys(row)) == Quoted(x) + "," + Quoted(y)
  {
    TwoColumnKeys(row);
    TwoFieldRecord(row, "a", "b");
    LookupAt(row, "a", 0);
    LookupAt(row, "b", 1);
  }

  /** The file of a two-column row whose values read as x and y. */
  lemma TwoColumnText(row: Row, x: string, y: string)
    requires |row| == 2 && row[0].0 == "a" && row[1].0 == "b"
    requires Text(Some(row[0].1)) == x && Text(Some(row[1].1)) == y
    ensures CsvText([row]) == Some("a,b\n" + (Quoted(x) + "," + Quoted(y)))
  {
    TwoColumnKeys(row);
    OneRowText(row);
    TwoColumnRecord(row, x, y);
    var header := Join(Keys(row), ",");
    var record := Record(row, Keys(row));
    assert header + "\n" + record == "a,b\n" + (Quoted(x) + "," + Quoted(y));
  }

  /** [{a: 1, b: "x"}] downloads as the header line a,b and the record "1","x". */
  lemma CsvExample(row: Row)
    requires row == [("a", Num(1.0)), ("b", Str("x"))]
    ensures CsvText([row]) == Some("a,b\n\"1\",\"x\"")
  {
    UnsignedIntegerText(1);
    assert NatText(1) == "1";
    TwoColumnText(row, "1", "x");
    ExampleText();
  }

  lemma ExampleText()
    ensures "a,b\n" + (Quoted("1") + "," + Quoted("x")) == "a,b\n\"1\",\"x\""
  {
  }

  /** Embedded quotes are written unchanged, so two different tables can give the same
      file: a value p","q followed by r reads the same as p followed by q","r. */
  lemma UndoubledQuotesCollide(row1: Row, row2: Row)
    requires row1 == [("a", Str("p\",\"q")), ("b", Str("r"))]
    requires row2 == [("a", Str("p")), ("b", Str("q\",\"r"))]
    ensures row1 != row2 && CsvText([row1]) == CsvText([row2])
  {
    TwoColumnText(row1, "p\",\"q", "r");
    TwoColumnText(row2, "p", "q\",\"r");
    CollidingText();
    assert |row1[0].1.s| != |row2[0].1.s|;
  }

  lemma CollidingText()
    ensures Quoted("p\",\"q") + "," + Quoted("r") == Quoted("p") + "," + Quoted("q\",\"r")
  {
  }

  // ---------------------------------------------------------------------------
  // File name

  predicate IsAsciiAlphanumeric(c: char)
  {
    'a' <= c <= 'z' || 'A' <= c <= 'Z' || '0' <= c <= '9'
  }

  /** replace(/[^a-z0-9]/gi, '_') */
  function Underscored(s: string): (r: string)
    ensures |r| == |s|
    ensures forall i :: 0 <= i < |s| ==> r[i] == if IsAsciiAlphanumeric(s[i]) then s[i] else '_'
  {
    seq(|s|, i requires 0 <= i < |s| => if IsAsciiAlphanumeric(s[i]) then s[i] else '_')
  }

  /** The download's base name: the title, or export for an untitled widget, with every
      character outside a-z, A-Z and 0-9 replaced by an underscore, then lower-cased. */
  function ExportFileName(title: string): string
  {
    Lower(Underscored(if title == "" then "export" else title))
  }

  /** The name has one character per title character, each a lower-case letter, a digit
      or an underscore: letters and digits of the title lower-cased, everything else an
      underscore. */
  lemma ExportFileNameMeaning(title: string)
    ensures var base := if title == "" then "export" else title;
      var name := ExportFileName(title);
      |name| == |base|
      && (forall i :: 0 <= i < |base| ==>
            name[i] == if IsAsciiAlphanumeric(base[i]) then LowerChar(base[i]) else '_')
      && (forall i :: 0 <= i < |name| ==>
            ('a' <= name[i] <= 'z' || '0' <= name[i] <= '9' || name[i] == '_'))
  {
    var base := if title == "" then "export" else title;
    forall i | 0 <= i < |base| ensures ExportFileName(title)[i] == LowerChar(Underscored(base)[i]) {
      LowerAt(Underscored(base), i);
    }
  }

  /** A non-empty file name is its own file name. */
  lemma ExportFileNameIdempotent(title: string)
    ensures ExportFileName(ExportFileName(title)) == ExportFileName(title)
  {
    ExportFileNameMeaning(title);
    var name := ExportFileName(title);
    ExportFileNameMeaning(name);
  }
}
