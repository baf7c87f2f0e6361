/**
 * Comma-separated text as the sales exports write it: every data cell is put in
 * double quotes with each inner quote doubled (RFC 4180, section 2, rule 7),
 * cells are joined by commas and records by a line feed (not the CRLF of rule 1),
 * and the header line is written bare. A reader for that text is given so that
 * the encoding can be proved to lose nothing.
 */
module Csv {
  import opened Wrappers
  import opened Text

  /** `String(c).replace(/"/g, '""')`. */
  function Escape(c: string): (r: string)
    ensures |r| >= |c|
  {
    if c == [] then [] else (if c[0] == '"' then "\"\"" else [c[0]]) + Escape(c[1..])
  }

  /** `"${...}"` around the escaped cell. */
  function QuoteCell(c: string): string {
    "\"" + Escape(c) + "\""
  }

  function QuoteAll(cells: seq<string>): (r: seq<string>)
    ensures |r| == |cells|
    ensures forall k :: 0 <= k < |cells| ==> r[k] == QuoteCell(cells[k])
  {
    seq(|cells|, k requires 0 <= k < |cells| => QuoteCell(cells[k]))
  }

  /** One data record: the quoted cells joined by commas. */
  function Record(cells: seq<string>): string {
    Join(QuoteAll(cells), ",")
  }

  function Records(rows: seq<seq<string>>): (r: seq<string>)
    ensures |r| == |rows|
    ensures forall k :: 0 <= k < |rows| ==> r[k] == Record(rows[k])
  {
    seq(|rows|, k requires 0 <= k < |rows| => Record(rows[k]))
  }

  /** The bare header line, a line feed, then the records joined by line feeds. */
  function Document(header: seq<string>, rows: seq<seq<string>>): string {
    Join(header, ",") + "\n" + Join(Records(rows), "\n")
  }

  // ---------------------------------------------------------------- reading it back

  /**
   * The content of a quoted cell, read after its opening quote up to the lone
   * closing quote, where `""` stands for one quote; and what follows the cell.
   */
  function ReadQuoted(s: string): (r: Option<(string, string)>)
    ensures r.Some? ==> |r.value.1| < |s|
    decreases |s|
  {
    if s == [] then None
    else if s[0] == '"' then
      if |s| >= 2 && s[1] == '"' then
        match ReadQuoted(s[2..])
        case None => None
        case Some((c, rest)) => Some(("\"" + c, rest))
      else Some(([], s[1..]))
    else
      match ReadQuoted(s[1..])
      case None => None
      case Some((c, rest)) => Some(([s[0]] + c, rest))
  }

  /** One quoted cell at the start of `s`. */
  function ParseCell(s: string): (r: Option<(string, string)>)
    ensures r.Some? ==> |r.value.1| < |s|
  {
    if s != [] && s[0] == '"' then ReadQuoted(s[1..]) else None
  }

  /** Quoted cells separated by commas, up to the end of the record. */
  function ParseCells(s: string): (r: Option<(seq<string>, string)>)
    ensures r.Some? ==> |r.value.1| < |s| && r.value.0 != []
    decreases |s|
  {
    match ParseCell(s)
    case None => None
    case Some((c, rest)) =>
      if rest != [] && rest[0] == ',' then
        match ParseCells(rest[1..])
        case None => None
        case Some((cs, rest')) => Some(([c] + cs, rest'))
      else Some(([c], rest))
  }

  /** Records of quoted cells separated by line feeds, up to the end of the text. */
  function ParseRecords(s: string): Option<seq<seq<string>>>
    decreases |s|
  {
    if s == [] then Some([])
    else match ParseCells(s)
      case None => None
      case Some((cells, rest)) =>
        if rest == [] then Some([cells])
        else if rest[0] == '\n' then
          match ParseRecords(rest[1..])
          case None => None
          case Some(rs) => Some([cells] + rs)
        else None
  }

  /** The text before the first `c`, and what follows it when there is one. */
  function BreakAt(s: string, c: char): (string, Option<string>) {
    if s == [] then ([], None)
    else if s[0] == c then ([], Some(s[1..]))
    else
      var (a, b) := BreakAt(s[1..], c);
      ([s[0]] + a, b)
  }

  /** A whole export: the header line split at commas, then the records; a text without a line feed is a header alone. */
  function ParseDocument(s: string): Option<(seq<string>, seq<seq<string>>)> {
    var (line, rest) := BreakAt(s, '\n');
    if rest.None? then Some((SplitOn(line, ','), []))
    else match ParseRecords(rest.value)
      case None => None
      case Some(rows) => Some((SplitOn(line, ','), rows))
  }

  // ---------------------------------------------------------------- round trips

  /** A doubled quote inside a quoted cell reads as one quote. */
  lemma ReadDoubledQuote(s: string, c: string, t: string, r: string)
    requires c != [] && c[0] == '"'
    requires s == "\"\"" + t && ReadQuoted(t) == Some((c[1..], r))
    ensures ReadQuoted(s) == Some((c, r))
  {
    assert s[2..] == t;
    assert "\"" + c[1..] == c;
  }

  /** Any other character inside a quoted cell reads as itself. */
  lemma ReadPlainChar(s: string, c: string, t: string, r: string)
    requires c != [] && c[0] != '"'
    requires s == [c[0]] + t && ReadQuoted(t) == Some((c[1..], r))
    ensures ReadQuoted(s) == Some((c, r))
  {
    assert s[1..] == t;
    assert [c[0]] + c[1..] == c;
  }

  /** Escaping a cell that starts with a quote doubles it, whatever follows. */
  lemma EscapeQuoteHead(c: string, after: string)
    requires c != [] && c[0] == '"'
    ensures Escape(c) + after == "\"\"" + (Escape(c[1..]) + after)
  {
    var e := Escape(c[1..]);
    assert Escape(c) == "\"\"" + e;
    assert ("\"\"" + e) + after == "\"\"" + (e + after);
  }

  /** Escaping a cell that starts with any other character keeps it, whatever follows. */
  lemma EscapePlainHead(c: string, after: string)
    requires c != [] && c[0] != '"'
    ensures Escape(c) + after == [c[0]] + (Escape(c[1..]) + after)
  {
    var e := Escape(c[1..]);
    assert Escape(c) == [c[0]] + e;
    assert ([c[0]] + e) + after == [c[0]] + (e + after);
  }

  /** `closing` is the closing quote and what follows the cell, which does not start with another quote. */
  lemma {:induction false} ReadQuotedEscape(c: string, closing: string)
    requires closing != [] && closing[0] == '"'
    requires |closing| == 1 || closing[1] != '"'
    ensures ReadQuoted(Escape(c) + closing) == Some((c, closing[1..]))
  {
    if c == [] {
      assert Escape(c) + closing == closing;
    } else {
      ReadQuotedEscape(c[1..], closing);
      if c[0] == '"' {
        EscapeQuoteHead(c, closing);
        ReadDoubledQuote(Escape(c) + closing, c, Escape(c[1..]) + closing, closing[1..]);
      } else {
        EscapePlainHead(c, closing);
        ReadPlainChar(Escape(c) + closing, c, Escape(c[1..]) + closing, closing[1..]);
      }
    }
  }

  /** Stripping the outer quotes and halving the doubled ones gives the cell back, whatever it holds. */
  lemma CellRoundTrip(c: string, rest: string)
    requires rest == [] || rest[0] != '"'
    ensures ParseCell(QuoteCell(c) + rest) == Some((c, rest))
  {
    var closing := "\"" + rest;
    ReadQuotedEscape(c, closing);
    assert closing[1..] == rest;
    assert (QuoteCell(c) + rest)[1..] == Escape(c) + closing;
  }

  /** A record of two or more cells is its first quoted cell, a comma, and the record of the rest. */
  lemma RecordCons(cells: seq<string>)
    requires |cells| >= 2
    ensures Record(cells) == QuoteCell(cells[0]) + "," + Record(cells[1..])
  {
    assert QuoteAll(cells) == [QuoteCell(cells[0])] + QuoteAll(cells[1..]);
    JoinCons(QuoteCell(cells[0]), QuoteAll(cells[1..]), ",");
  }

  lemma {:induction false} RecordRoundTrip(cells: seq<string>, rest: string)
    requires cells != []
    requires rest == [] || rest[0] == '\n'
    ensures ParseCells(Record(cells) + rest) == Some((cells, rest))
    decreases |cells|
  {
    var head := QuoteCell(cells[0]);
    if |cells| == 1 {
      assert Record(cells) == head;
      CellRoundTrip(cells[0], rest);
      assert [cells[0]] == cells;
    } else {
      var tail := cells[1..];
      RecordCons(cells);
      var after := "," + (Record(tail) + rest);
      assert Record(cells) + rest == head + after;
      CellRoundTrip(cells[0], after);
      assert after[1..] == Record(tail) + rest;
      RecordRoundTrip(tail, rest);
      assert [cells[0]] + tail == cells;
    }
  }

  /** Every non-empty record comes back, in order, with its cells. */
  lemma {:induction false} RecordsRoundTrip(rows: seq<seq<string>>)
    requires forall k :: 0 <= k < |rows| ==> rows[k] != []
    ensures ParseRecords(Join(Records(rows), "\n")) == Some(rows)
    decreases |rows|
  {
    if |rows| == 1 {
      assert Join(Records(rows), "\n") == Record(rows[0]);
      RecordRoundTrip(rows[0], []);
      assert Record(rows[0]) + [] == Record(rows[0]);
      assert Record(rows[0]) != [] by {
        assert |ParseCells(Record(rows[0]) + []).value.1| < |Record(rows[0]) + []|;
      }
      assert ParseCells(Record(rows[0])) == Some((rows[0], []));
      assert rows == [rows[0]];
    } else if |rows| > 1 {
      var tail := rows[1..];
      assert Records(rows)[1..] == Records(tail);
      var after := "\n" + Join(Records(tail), "\n");
      assert Join(Records(rows), "\n") == Record(rows[0]) + after;
      RecordRoundTrip(rows[0], after);
      assert after[1..] == Join(Records(tail), "\n");
      RecordsRoundTrip(tail);
      assert [rows[0]] + tail == rows;
      assert Record(rows[0]) + after != [] by {
        assert |ParseCells(Record(rows[0]) + after).value.1| < |Record(rows[0]) + after|;
      }
    }
  }

  lemma {:induction false} BreakAtFirst(a: string, c: char, b: string)
    requires c !in a
    ensures BreakAt(a + [c] + b, c) == (a, Some(b))
  {
    if a == [] {
      assert a + [c] + b == [c] + b;
      assert ([c] + b)[1..] == b;
    } else {
      BreakAtFirst(a[1..], c, b);
      assert (a + [c] + b)[1..] == a[1..] + [c] + b;
      assert [a[0]] + a[1..] == a;
    }
  }

  lemma {:induction false} BreakAtNone(a: string, c: char)
    requires c !in a
    ensures BreakAt(a, c) == (a, None)
  {
    if a != [] {
      BreakAtNone(a[1..], c);
      assert [a[0]] + a[1..] == a;
    }
  }

  /** Joining cells without the separator and splitting again gives the cells. */
  lemma {:induction false} SplitOnJoin(parts: seq<string>, c: char)
    requires parts != []
    requires forall k :: 0 <= k < |parts| ==> c !in parts[k]
    ensures SplitOn(Join(parts, [c]), c) == parts
    decreases |parts|
  {
    if |parts| == 1 {
      SplitOnNone(parts[0], c);
    } else {
      var tail := parts[1..];
      SplitOnJoin(tail, c);
      assert Join(parts, [c]) == parts[0] + [c] + Join(tail, [c]);
      SplitOnFirst(parts[0], c, Join(tail, [c]));
      assert [parts[0]] + tail == parts;
    }
  }

  lemma {:induction false} JoinWithout(parts: seq<string>, sep: string, c: char)
    requires c !in sep
    requires forall k :: 0 <= k < |parts| ==> c !in parts[k]
    ensures c !in Join(parts, sep)
    decreases |parts|
  {
    if |parts| > 1 {
      JoinWithout(parts[1..], sep, c);
    }
  }

  /**
   * An export reads back as its header and its rows, as long as no header name
   * holds a comma or a line feed and no row is empty; data cells may hold
   * anything, quotes, commas and line feeds included.
   */
  lemma DocumentRoundTrip(header: seq<string>, rows: seq<seq<string>>)
    requires header != []
    requires forall k :: 0 <= k < |header| ==> ',' !in header[k] && '\n' !in header[k]
    requires forall k :: 0 <= k < |rows| ==> rows[k] != []
    ensures ParseDocument(Document(header, rows)) == Some((header, rows))
  {
    var line := Join(header, ",");
    JoinWithout(header, ",", '\n');
    BreakAtFirst(line, '\n', Join(Records(rows), "\n"));
    RecordsRoundTrip(rows);
    SplitOnJoin(header, ',');
  }
}
