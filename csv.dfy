/**
 * The CSV export: every field is wrapped in double quotes with inner quotes
 * doubled, fields are separated by commas and lines by newlines. A reader
 * for that format is defined alongside so that the export can be shown to
 * lose nothing.
 */
module Csv {
  import opened Wrappers
  import opened Json
  import opened Text

  /** One exported column: the row key it reads and the label (`caption`) written in the header line. */
  datatype Header = Header(key: string, caption: string)

  type Row = map<string, Value>

  /** `r[h.key]`: a missing key reads as undefined, which exports like null. */
  function Lookup(r: Row, key: string): Value {
    if key in r then r[key] else Null
  }

  /**
   * `String(v ?? '')`. How a number is printed is left to `showNum`;
   * an array prints its elements joined by commas, an object prints as
   * `[object Object]`.
   */
  function Show(v: Value, showNum: real -> string): (r: string)
    ensures v.Null? ==> r == []
    ensures v.Str? ==> r == v.s
  {
    match v
    case Null => []
    case Bool(b) => if b then "true" else "false"
    case Num(n) => showNum(n)
    case Str(s) => s
    case Arr(items) => Join(seq(|items|, i requires 0 <= i < |items| => Show(items[i], showNum)), ',')
    case Obj(_) => "[object Object]"
  }

  /** Undoes the doubling of quotes: each `""` becomes `"`. */
  function Unescape(s: string): string {
    if |s| >= 2 && s[0] == '"' && s[1] == '"' then ['"'] + Unescape(s[2..])
    else if s == [] then []
    else [s[0]] + Unescape(s[1..])
  }

  /** How many double quotes `s` holds. */
  function Quotes(s: string): nat {
    if s == [] then 0 else (if s[0] == '"' then 1 else 0) + Quotes(s[1..])
  }

  /** `s.replaceAll('"', '""')` */
  function Escape(s: string): (r: string)
    ensures |r| == |s| + Quotes(s)
  {
    if s == [] then []
    else if s[0] == '"' then "\"\"" + Escape(s[1..])
    else [s[0]] + Escape(s[1..])
  }

  /** Un-doubling the quotes of an escaped string recovers it. */
  lemma {:induction false} UnescapeEscape(s: string)
    ensures Unescape(Escape(s)) == s
  {
    if s != [] {
      UnescapeEscape(s[1..]);
      var e := Escape(s);
      if s[0] == '"' {
        assert e[2..] == Escape(s[1..]);
      } else {
        assert e[1..] == Escape(s[1..]);
      }
      assert s == [s[0]] + s[1..];
    }
  }

  /** A field as written: the escaped text between double quotes. */
  function Quote(s: string): string {
    "\"" + Escape(s) + "\""
  }

  function QuoteAll(fields: seq<string>): (r: seq<string>)
    ensures |r| == |fields|
    ensures forall i :: 0 <= i < |fields| ==> r[i] == Quote(fields[i])
  {
    if fields == [] then [] else [Quote(fields[0])] + QuoteAll(fields[1..])
  }

  /** One line: the quoted fields joined by commas. */
  function Line(fields: seq<string>): string {
    Join(QuoteAll(fields), ',')
  }

  /** The header labels, in column order. */
  function Labels(headers: seq<Header>): (r: seq<string>)
    ensures |r| == |headers|
    ensures forall i :: 0 <= i < |headers| ==> r[i] == headers[i].caption
  {
    if headers == [] then [] else [headers[0].caption] + Labels(headers[1..])
  }

  /** The texts of one row: one per header, in header order. */
  function CellsOf(r: Row, headers: seq<Header>, showNum: real -> string): (cs: seq<string>)
    ensures |cs| == |headers|
    ensures forall i :: 0 <= i < |headers| ==> cs[i] == Show(Lookup(r, headers[i].key), showNum)
  {
    if headers == [] then [] else [Show(Lookup(r, headers[0].key), showNum)] + CellsOf(r, headers[1..], showNum)
  }

  function Cells(rows: seq<Row>, headers: seq<Header>, showNum: real -> string): (t: seq<seq<string>>)
    ensures |t| == |rows|
    ensures forall i :: 0 <= i < |rows| ==> t[i] == CellsOf(rows[i], headers, showNum)
  {
    if rows == [] then [] else [CellsOf(rows[0], headers, showNum)] + Cells(rows[1..], headers, showNum)
  }

  function Lines(table: seq<seq<string>>): (r: seq<string>)
    ensures |r| == |table|
    ensures forall i :: 0 <= i < |table| ==> r[i] == Line(table[i])
  {
    if table == [] then [] else [Line(table[0])] + Lines(table[1..])
  }

  /** `toCSV(rows, headers)`: the header line, a newline, then the row lines joined by newlines. */
  function ToCsv(rows: seq<Row>, headers: seq<Header>, showNum: real -> string): (r: string)
    ensures var head := Line(Labels(headers)); |r| > |head| && r[..|head| + 1] == head + "\n"
  {
    Line(Labels(headers)) + "\n" + Join(Lines(Cells(rows, headers, showNum)), '\n')
  }

  // ---------------------------------------------------------------------
  // Reading the format back.

  /** The rest of a quoted field after its opening quote: its text and what follows the closing quote. */
  function ParseQuotedBody(s: string): (r: Option<(string, string)>)
    ensures r.Some? ==> |r.value.1| < |s|
  {
    if s == [] then None
    else if s[0] == '"' then
      if |s| >= 2 && s[1] == '"' then
        match ParseQuotedBody(s[2..])
        case None => None
        case Some((v, rest)) => Some((['"'] + v, rest))
      else Some(([], s[1..]))
    else
      match ParseQuotedBody(s[1..])
      case None => None
      case Some((v, rest)) => Some(([s[0]] + v, rest))
  }

  function ParseField(s: string): (r: Option<(string, string)>)
    ensures r.Some? ==> |r.value.1| < |s|
  {
    if s != [] && s[0] == '"' then ParseQuotedBody(s[1..]) else None
  }

  /** Comma-separated quoted fields, up to the end of the line. */
  function ParseFields(s: string): (r: Option<(seq<string>, string)>)
    ensures r.Some? ==> |r.value.1| < |s|
    decreases |s|
  {
    match ParseField(s)
    case None => None
    case Some((v, rest)) =>
      if rest != [] && rest[0] == ',' then
        match ParseFields(rest[1..])
        case None => None
        case Some((vs, rest2)) => Some(([v] + vs, rest2))
      else Some(([v], rest))
  }

  /** Newline-separated lines; a single newline at the very end closes the last line. */
  function ParseLines(s: string): Option<seq<seq<string>>>
    decreases |s|
  {
    match ParseFields(s)
    case None => None
    case Some((fs, rest)) =>
      if rest == [] then Some([fs])
      else if rest[0] != '\n' then None
      else if rest[1..] == [] then Some([fs])
      else
        match ParseLines(rest[1..])
        case None => None
        case Some(ls) => Some([fs] + ls)
  }

  lemma {:induction false} QuotedBodyRoundTrip(v: string, rest: string)
    requires rest == [] || rest[0] != '"'
    ensures ParseQuotedBody(Escape(v) + "\"" + rest) == Some((v, rest))
  {
    if v == [] {
      var s := Escape(v) + "\"" + rest;
      assert s == "\"" + rest;
      assert s[1..] == rest;
    } else {
      var c, w := v[0], v[1..];
      assert v == [c] + w;
      QuotedBodyRoundTrip(w, rest);
      if c == '"' {
        QuoteCharStep(w, rest);
      } else {
        PlainCharStep(c, w, rest);
      }
    }
  }

  /** A doubled quote in front of a body that is read back is read as one quote. */
  lemma QuoteCharStep(w: string, rest: string)
    requires ParseQuotedBody(Escape(w) + "\"" + rest) == Some((w, rest))
    ensures ParseQuotedBody(Escape(['"'] + w) + "\"" + rest) == Some((['"'] + w, rest))
  {
    var s, t := Escape(['"'] + w) + "\"" + rest, Escape(w) + "\"" + rest;
    assert (['"'] + w)[1..] == w;
    assert s == "\"\"" + t;
    assert s[2..] == t;
  }

  /** Any other character in front of a body that is read back is read as itself. */
  lemma PlainCharStep(c: char, w: string, rest: string)
    requires c != '"'
    requires ParseQuotedBody(Escape(w) + "\"" + rest) == Some((w, rest))
    ensures ParseQuotedBody(Escape([c] + w) + "\"" + rest) == Some(([c] + w, rest))
  {
    var s, t := Escape([c] + w) + "\"" + rest, Escape(w) + "\"" + rest;
    assert ([c] + w)[1..] == w;
    assert s == [c] + t;
    assert s[1..] == t;
  }

  /** A quoted field is read back, whatever follows it, as long as that does not start with a quote. */
  lemma FieldRoundTrip(f: string, after: string)
    requires after == [] || after[0] != '"'
    ensures ParseField(Quote(f) + after) == Some((f, after))
  {
    var s := Quote(f) + after;
    assert s[1..] == Escape(f) + "\"" + after;
    QuotedBodyRoundTrip(f, after);
  }

  lemma {:induction false} FieldsRoundTrip(fields: seq<string>, rest: string)
    requires |fields| >= 1
    requires rest == [] || rest[0] == '\n'
    ensures ParseFields(Line(fields) + rest) == Some((fields, rest))
  {
    if |fields| == 1 {
      FieldsOne(fields, rest);
    } else {
      FieldsRoundTrip(fields[1..], rest);
      FieldsCons(fields, rest);
    }
  }

  lemma FieldsOne(fields: seq<string>, rest: string)
    requires |fields| == 1
    requires rest == [] || rest[0] == '\n'
    ensures ParseFields(Line(fields) + rest) == Some((fields, rest))
  {
    assert Line(fields) == Quote(fields[0]);
    FieldRoundTrip(fields[0], rest);
    assert [fields[0]] == fields;
  }

  lemma FieldsCons(fields: seq<string>, rest: string)
    requires |fields| >= 2
    requires ParseFields(Line(fields[1..]) + rest) == Some((fields[1..], rest))
    ensures ParseFields(Line(fields) + rest) == Some((fields, rest))
  {
    LineCons(fields);
    FieldsStep(fields[0], fields[1..], Line(fields[1..]), rest);
    assert [fields[0]] + fields[1..] == fields;
  }

  /** A line of several fields is the first quoted field, a comma and the line of the others. */
  lemma LineCons(fields: seq<string>)
    requires |fields| >= 2
    ensures Line(fields) == Quote(fields[0]) + [','] + Line(fields[1..])
  {
    var q := QuoteAll(fields);
    assert q[1..] == QuoteAll(fields[1..]);
  }

  /** The step of `FieldsRoundTrip`: a quoted field and a comma in front of fields that are read back. */
  lemma FieldsStep(f: string, fs: seq<string>, tail: string, rest: string)
    requires ParseFields(tail + rest) == Some((fs, rest))
    ensures ParseFields(Quote(f) + [','] + tail + rest) == Some(([f] + fs, rest))
  {
    var after := [','] + tail + rest;
    assert Quote(f) + [','] + tail + rest == Quote(f) + after;
    FieldRoundTrip(f, after);
    assert after[1..] == tail + rest;
  }

  /** Every line starts with the opening quote of its first field. */
  lemma LineStartsWithQuote(fields: seq<string>)
    requires |fields| >= 1
    ensures Line(fields) != [] && Line(fields)[0] == '"'
  {
    var q := QuoteAll(fields);
    assert q[0] == Quote(fields[0]);
    assert Quote(fields[0])[0] == '"';
  }

  lemma {:induction false} LinesRoundTrip(table: seq<seq<string>>)
    requires |table| >= 1
    requires forall i :: 0 <= i < |table| ==> |table[i]| >= 1
    ensures ParseLines(Join(Lines(table), '\n')) == Some(table)
  {
    if |table| == 1 {
      LinesOne(table);
    } else {
      assert forall i :: 0 <= i < |table| - 1 ==> table[1..][i] == table[i + 1];
      LinesRoundTrip(table[1..]);
      LinesCons(table);
    }
  }

  lemma LinesOne(table: seq<seq<string>>)
    requires |table| == 1 && |table[0]| >= 1
    ensures ParseLines(Join(Lines(table), '\n')) == Some(table)
  {
    FieldsRoundTrip(table[0], []);
    assert Line(table[0]) + [] == Line(table[0]);
    assert [table[0]] == table;
  }

  lemma LinesCons(table: seq<seq<string>>)
    requires |table| >= 2 && |table[0]| >= 1 && |table[1]| >= 1
    requires ParseLines(Join(Lines(table[1..]), '\n')) == Some(table[1..])
    ensures ParseLines(Join(Lines(table), '\n')) == Some(table)
  {
    var ls := Lines(table);
    var tail := Join(ls[1..], '\n');
    LinesTail(table);
    LineStartsWithQuote(table[1]);
    JoinStartsWith(ls[1..], '\n');
    JoinCons(ls, '\n');
    LinesStep(table, tail);
  }

  lemma LinesTail(table: seq<seq<string>>)
    requires table != []
    ensures Lines(table)[1..] == Lines(table[1..]) && Lines(table)[0] == Line(table[0])
  {
  }

  lemma JoinCons(parts: seq<string>, sep: char)
    requires |parts| >= 2
    ensures Join(parts, sep) == parts[0] + ([sep] + Join(parts[1..], sep))
  {
  }

  /** A join of several parts starts with its first part, which is not empty here. */
  lemma JoinStartsWith(parts: seq<string>, sep: char)
    requires |parts| >= 1 && parts[0] != []
    ensures Join(parts, sep) != [] && Join(parts, sep)[0] == parts[0][0]
  {
  }

  /** The step of `LinesRoundTrip`: a line and a newline in front of lines that are read back. */
  lemma LinesStep(table: seq<seq<string>>, tail: string)
    requires |table| >= 1 && |table[0]| >= 1
    requires tail != [] && ParseLines(tail) == Some(table[1..])
    ensures ParseLines(Line(table[0]) + (['\n'] + tail)) == Some(table)
  {
    FieldsRoundTrip(table[0], "\n" + tail);
    assert ("\n" + tail)[1..] == tail;
    assert [table[0]] + table[1..] == table;
  }

  /**
   * Reading an export back gives the header labels followed by one line per
   * row holding that row's texts in header order: escaping loses nothing,
   * and commas, quotes and newlines inside values do not break the layout.
   */
  lemma ToCsvRoundTrip(rows: seq<Row>, headers: seq<Header>, showNum: real -> string)
    requires |headers| >= 1
    ensures ParseLines(ToCsv(rows, headers, showNum)) == Some([Labels(headers)] + Cells(rows, headers, showNum))
  {
    var labels := Labels(headers);
    var cells := Cells(rows, headers, showNum);
    if rows == [] {
      FieldsRoundTrip(labels, "\n");
      assert ToCsv(rows, headers, showNum) == Line(labels) + "\n";
      assert [labels] + cells == [labels];
    } else {
      var table := [labels] + cells;
      assert table[1..] == cells;
      assert Lines(table)[1..] == Lines(cells);
      assert ToCsv(rows, headers, showNum) == Join(Lines(table), '\n');
      LinesRoundTrip(table);
    }
  }

  /** With no rows the export is the header line followed by a newline. */
  lemma {:induction false} NoRowsIsHeaderLine(headers: seq<Header>, showNum: real -> string)
    ensures ToCsv([], headers, showNum) == Line(Labels(headers)) + "\n"
    ensures |headers| >= 1 ==> ParseLines(ToCsv([], headers, showNum)) == Some([Labels(headers)])
  {
    if |headers| >= 1 {
      ToCsvRoundTrip([], headers, showNum);
      assert [Labels(headers)] + Cells([], headers, showNum) == [Labels(headers)];
    }
  }
}
