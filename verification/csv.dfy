/**
 * The CSV text `downloadCSV` of components/LeadsViewer.tsx builds from the
 * lead log: a header line, then one record per lead, joined by a line feed.
 * Name, email and phone are quoted with every inner quote doubled, which is
 * rule 7 of section 2 of RFC 4180; records end in a bare line feed rather than
 * the CRLF of rule 1, and there is no line break after the last record.
 */
module Csv {
  import opened Wrappers
  import opened Strings
  import opened Types
  import Seqs

  const Headers: seq<string> := ["ID", "Name", "Email", "Phone", "Captured At"]

  /** The first line: the column names joined by commas. */
  const Header: string := Join(Headers, ",")

  /** The header is one line whose comma-separated cells are the five column names. */
  lemma HeaderCells()
    ensures '\n' !in Header
    ensures Split(Header, ',') == Headers
  {
    JoinAbsent(Headers, ",", '\n');
    SplitJoin(Headers, ',');
  }

  /** A field between quotes, with each quote inside it doubled. */
  function Quote(field: string): (q: string)
    ensures |q| >= 2 && q[0] == '"' && q[|q| - 1] == '"'
  {
    "\"" + ReplaceAll(field, "\"", "\"\"") + "\""
  }

  /** The reading side of `Quote`: drop the outer quotes and collapse each doubled quote. */
  function Unquote(q: string): (r: Option<string>)
    ensures r.Some? <==> |q| >= 2 && q[0] == '"' && q[|q| - 1] == '"'
  {
    if |q| >= 2 && q[0] == '"' && q[|q| - 1] == '"' then Some(ReplaceAll(q[1..|q| - 1], "\"\"", "\"")) else None
  }

  /** Quoting loses nothing: reading the quoted field back gives the field. */
  lemma UnquoteQuote(field: string)
    ensures Unquote(Quote(field)) == Some(field)
  {
    var inner := ReplaceAll(field, "\"", "\"\"");
    assert Quote(field)[1..|Quote(field)| - 1] == inner;
    DoubleThenCollapse(field, '"');
  }

  /** Inside the quotes a quote only ever appears doubled, so no field can end early. */
  lemma QuotedInnerPaired(field: string)
    ensures PairedOnly(Quote(field)[1..|Quote(field)| - 1], '"')
  {
    assert Quote(field)[1..|Quote(field)| - 1] == ReplaceAll(field, "\"", "\"\"");
    DoubledOnlyInPairs(field, '"');
  }

  /** Quoting adds no character other than the quote. */
  lemma QuoteAbsent(field: string, c: char)
    requires c != '"' && c !in field
    ensures c !in Quote(field)
  {
    ReplaceAllAbsent(field, "\"", "\"\"", c);
  }

  /** The five cells of a lead's record: id and capture time verbatim, the typed fields quoted. */
  function Cells(l: Lead): seq<string>
  {
    [l.id, Quote(l.name), Quote(l.email), Quote(l.phone), l.capturedAt]
  }

  /** One record: the cells joined by commas. */
  function Row(l: Lead): string
  {
    Join(Cells(l), ",")
  }

  /** The whole file: the header, then one record per lead in the order of the log. */
  function Export(leads: seq<Lead>): string
  {
    Join([Header] + Seqs.Map(Row, leads), "\n")
  }

  /** The download button is enabled only when there is at least one lead. */
  predicate DownloadEnabled(leads: seq<Lead>)
  {
    |leads| > 0
  }

  /** No lead: the file is the header line alone (and the button is disabled). */
  lemma ExportEmpty()
    ensures Export([]) == Header
    ensures !DownloadEnabled([])
  {
    assert [Header] + Seqs.Map(Row, []) == [Header];
  }

  /** A field holding neither a comma nor a line break. */
  predicate PlainField(s: string)
  {
    ',' !in s && '\n' !in s
  }

  /** A lead none of whose fields holds a comma or a line break. */
  predicate Plain(l: Lead)
  {
    PlainField(l.id) && PlainField(l.name) && PlainField(l.email) && PlainField(l.phone) && PlainField(l.capturedAt)
  }

  /** A record read back: five comma-separated cells, the middle three quoted. */
  function DecodeRow(line: string): (r: Option<Lead>)
  {
    var cells := Split(line, ',');
    if |cells| != 5 then None
    else match (Unquote(cells[1]), Unquote(cells[2]), Unquote(cells[3]))
      case (Some(name), Some(email), Some(phone)) => Some(Lead(cells[0], name, email, phone, cells[4]))
      case _ => None
  }

  /** The records read back, or `None` if any is malformed. */
  function DecodeRows(lines: seq<string>): (r: Option<seq<Lead>>)
    ensures r.Some? ==> |r.value| == |lines|
    decreases |lines|
  {
    if |lines| == 0 then Some([])
    else match (DecodeRow(lines[0]), DecodeRows(lines[1..]))
      case (Some(l), Some(rest)) => Some([l] + rest)
      case _ => None
  }

  /** A file read back: the header line, then the records. */
  function Decode(csv: string): (r: Option<seq<Lead>>)
  {
    var lines := Split(csv, '\n');
    if lines[0] != Header then None else DecodeRows(lines[1..])
  }

  /** A cell of a plain lead holds neither separator. */
  lemma CellsPlain(l: Lead, c: char)
    requires Plain(l) && (c == ',' || c == '\n')
    ensures forall i :: 0 <= i < 5 ==> c !in Cells(l)[i]
  {
    QuoteAbsent(l.name, c);
    QuoteAbsent(l.email, c);
    QuoteAbsent(l.phone, c);
  }

  /** A plain lead's record fits on one line. */
  lemma RowOnOneLine(l: Lead)
    requires Plain(l)
    ensures '\n' !in Row(l)
  {
    CellsPlain(l, '\n');
    JoinAbsent(Cells(l), ",", '\n');
  }

  /** A plain lead's record reads back as the lead. */
  lemma DecodeRowOf(l: Lead)
    requires Plain(l)
    ensures DecodeRow(Row(l)) == Some(l)
  {
    CellsPlain(l, ',');
    SplitJoin(Cells(l), ',');
    UnquoteQuote(l.name);
    UnquoteQuote(l.email);
    UnquoteQuote(l.phone);
  }

  lemma {:induction false} DecodeRowsOf(leads: seq<Lead>)
    requires forall i :: 0 <= i < |leads| ==> Plain(leads[i])
    ensures DecodeRows(Seqs.Map(Row, leads)) == Some(leads)
    decreases |leads|
  {
    if |leads| > 0 {
      var rest := Seqs.Map(Row, leads[1..]);
      var m := [Row(leads[0])] + rest;
      assert Seqs.Map(Row, leads) == m;
      assert m[0] == Row(leads[0]) && m[1..] == rest;
      DecodeRowOf(leads[0]);
      DecodeRowsOf(leads[1..]);
      assert DecodeRows(m) == Some([leads[0]] + leads[1..]);
      assert [leads[0]] + leads[1..] == leads;
    }
  }

  /**
   * The export round-trips: as long as no field holds a comma or a line
   * break, the file splits into the header and one record per lead, and
   * reading it back gives the log in its order.
   */
  lemma DecodeExport(leads: seq<Lead>)
    requires forall i :: 0 <= i < |leads| ==> Plain(leads[i])
    ensures Split(Export(leads), '\n') == [Header] + Seqs.Map(Row, leads)
    ensures |Split(Export(leads), '\n')| == |leads| + 1
    ensures Decode(Export(leads)) == Some(leads)
  {
    var lines := [Header] + Seqs.Map(Row, leads);
    forall i | 0 <= i < |lines|
      ensures '\n' !in lines[i]
    {
      if i == 0 {
        HeaderCells();
      } else {
        assert lines[i] == Row(leads[i - 1]);
        RowOnOneLine(leads[i - 1]);
      }
    }
    SplitJoin(lines, '\n');
    assert lines[1..] == Seqs.Map(Row, leads);
    DecodeRowsOf(leads);
  }
}
