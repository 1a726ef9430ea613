/** The text encoding both CSV exporters share: every cell enclosed in double
    quotes with inner quotes doubled (rules 5 to 7 of section 2 of RFC 4180),
    cells joined by `,` and rows by a bare LF, with no trailing newline.
    `ParseTable` reads such text back; `ParseRender` proves the round trip. */
module Csv {
  import opened Records

  /** `String(c).replace(/"/g, '""')`. */
  function Escape(c: string): (r: string)
    ensures |r| >= |c|
  {
    if c == [] then []
    else (if c[0] == '"' then "\"\"" else [c[0]]) + Escape(c[1..])
  }

  /** `"${...}"`: the escaped cell between two double quotes. */
  function QuoteCell(c: string): (r: string)
    ensures |r| >= 2 && r[0] == '"' && r[|r| - 1] == '"'
  {
    "\"" + Escape(c) + "\""
  }

  /** `r.map(quote).join(',')`. */
  function RenderRow(cells: seq<string>): (r: string)
    ensures r == "" <==> |cells| == 0
    ensures |cells| > 0 ==> r[0] == '"' && r[|r| - 1] == '"'
  {
    if |cells| == 0 then ""
    else if |cells| == 1 then QuoteCell(cells[0])
    else QuoteCell(cells[0]) + "," + RenderRow(cells[1..])
  }

  /** `rows.map(renderRow).join('\n')`. */
  function RenderTable(rows: seq<seq<string>>): (r: string)
    ensures rows == [] ==> r == ""
  {
    if |rows| == 0 then ""
    else if |rows| == 1 then RenderRow(rows[0])
    else RenderRow(rows[0]) + "\n" + RenderTable(rows[1..])
  }

  /** The text starts with the first row, and with that row and a newline
      when more rows follow. */
  lemma RenderTableFirstLine(rows: seq<seq<string>>)
    ensures |rows| > 0 ==> RenderRow(rows[0]) <= RenderTable(rows)
    ensures |rows| > 1 ==> RenderRow(rows[0]) + "\n" <= RenderTable(rows)
  {
    if |rows| > 1 {
      assert RenderTable(rows) == (RenderRow(rows[0]) + "\n") + RenderTable(rows[1..]);
    }
  }

  // ---------------------------------------------------------------------------
  // Reading the text back

  /** Reads the escaped content of a cell whose opening quote is already
      consumed: `""` stands for one quote and a lone `"` closes the cell.
      Returns the cell and the text after the closing quote. */
  function ReadQuoted(s: string): (r: Option<(string, string)>)
    ensures r.Some? ==> |r.value.1| < |s|
  {
    if s == [] then None
    else if s[0] == '"' then
      if |s| > 1 && s[1] == '"' then
        match ReadQuoted(s[2..])
        case None => None
        case Some((c, rest)) => Some(("\"" + c, rest))
      else Some(("", s[1..]))
    else
      match ReadQuoted(s[1..])
      case None => None
      case Some((c, rest)) => Some(([s[0]] + c, rest))
  }

  function ParseCell(s: string): (r: Option<(string, string)>)
    ensures r.Some? ==> |r.value.1| < |s|
  {
    if s != [] && s[0] == '"' then ReadQuoted(s[1..]) else None
  }

  /** Reads quoted cells separated by `,` within a row and by LF between
      rows. Every row read has at least one cell. */
  function ParseTable(s: string): (r: Option<seq<seq<string>>>)
    ensures r.Some? ==> |r.value| > 0 && forall k :: 0 <= k < |r.value| ==> |r.value[k]| > 0
    decreases |s|
  {
    match ParseCell(s)
    case None => None
    case Some((c, rest)) =>
      if rest == [] then Some([[c]])
      else if rest[0] == ',' then
        match ParseTable(rest[1..])
        case None => None
        case Some(rows) => Some([[c] + rows[0]] + rows[1..])
      else if rest[0] == '\n' then
        match ParseTable(rest[1..])
        case None => None
        case Some(rows) => Some([[c]] + rows)
      else None
  }

  /** A cell without double quotes is written unchanged. */
  lemma {:induction false} EscapeQuoteFree(c: string)
    requires forall k :: 0 <= k < |c| ==> c[k] != '"'
    ensures Escape(c) == c
  {
    if c != [] {
      EscapeQuoteFree(c[1..]);
      assert [c[0]] + c[1..] == c;
    }
  }

  /** The escaped cell is read back up to its closing quote, whatever follows
      as long as it is not another quote. */
  lemma {:induction false} ReadEscaped(c: string, rest: string)
    requires rest == [] || rest[0] != '"'
    ensures ReadQuoted(Escape(c) + "\"" + rest) == Some((c, rest))
  {
    var s := Escape(c) + "\"" + rest;
    if c == [] {
      assert s == "\"" + rest;
      assert s[1..] == rest;
    } else {
      ReadEscaped(c[1..], rest);
      var tail := Escape(c[1..]) + "\"" + rest;
      if c[0] == '"' {
        assert s == "\"\"" + tail;
        assert s[2..] == tail;
        assert "\"" + c[1..] == c;
      } else {
        assert s == [c[0]] + tail;
        assert s[1..] == tail;
        assert [c[0]] + c[1..] == c;
      }
    }
  }

  lemma QuoteCellRead(c: string, rest: string)
    requires rest == [] || rest[0] != '"'
    ensures ParseCell(QuoteCell(c) + rest) == Some((c, rest))
  {
    var s := QuoteCell(c) + rest;
    assert s[1..] == Escape(c) + "\"" + rest;
    ReadEscaped(c, rest);
  }

  /** Stripping the outer quotes and undoubling the inner ones gives back the
      cell. */
  lemma QuoteCellRoundTrip(c: string)
    ensures ParseCell(QuoteCell(c)) == Some((c, ""))
  {
    assert QuoteCell(c) + "" == QuoteCell(c);
    QuoteCellRead(c, "");
  }

  /** A last cell, followed by either nothing or a newline and more rows,
      ends its row. */
  lemma ParseLastCell(c: string, tail: string, after: seq<seq<string>>)
    requires (tail == [] && after == [])
          || (|tail| > 0 && tail[0] == '\n' && ParseTable(tail[1..]) == Some(after))
    ensures ParseTable(QuoteCell(c) + tail) == Some([[c]] + after)
  {
    QuoteCellRead(c, tail);
    if tail == [] {
      assert [[c]] + after == [[c]];
    }
  }

  /** A cell followed by a comma joins the row read after it. */
  lemma ParseCellThenComma(c: string, more: string, cells: seq<string>, after: seq<seq<string>>)
    requires ParseTable(more) == Some([cells] + after)
    ensures ParseTable(QuoteCell(c) + ("," + more)) == Some([[c] + cells] + after)
  {
    QuoteCellRead(c, "," + more);
    assert ("," + more)[1..] == more;
    assert ([cells] + after)[0] == cells && ([cells] + after)[1..] == after;
  }

  lemma RenderRowCons(cells: seq<string>, tail: string)
    requires |cells| > 1
    ensures RenderRow(cells) + tail == QuoteCell(cells[0]) + ("," + (RenderRow(cells[1..]) + tail))
  {
    var q, rest := QuoteCell(cells[0]), RenderRow(cells[1..]);
    assert RenderRow(cells) == q + "," + rest;
    Regroup(q, ",", rest, tail);
  }

  lemma Regroup(a: string, b: string, c: string, d: string)
    ensures (a + b + c) + d == a + (b + (c + d))
  {
  }

  /** A rendered row followed by either nothing or a newline and more rows
      parses as that row followed by the rows after it. */
  lemma {:induction false} ParseRenderRow(cells: seq<string>, tail: string, after: seq<seq<string>>)
    requires |cells| > 0
    requires (tail == [] && after == [])
          || (|tail| > 0 && tail[0] == '\n' && ParseTable(tail[1..]) == Some(after))
    ensures ParseTable(RenderRow(cells) + tail) == Some([cells] + after)
  {
    if |cells| == 1 {
      ParseLastCell(cells[0], tail, after);
      assert [cells[0]] == cells;
      assert RenderRow(cells) + tail == QuoteCell(cells[0]) + tail;
    } else {
      var more := RenderRow(cells[1..]) + tail;
      ParseRenderRow(cells[1..], tail, after);
      RenderRowCons(cells, tail);
      ParseCellThenComma(cells[0], more, cells[1..], after);
      assert [cells[0]] + cells[1..] == cells;
    }
  }

  /** A row, a newline, then text that reads as some rows: the row comes
      first. */
  lemma ParseRowThenTable(cells: seq<string>, more: string, after: seq<seq<string>>)
    requires |cells| > 0 && ParseTable(more) == Some(after)
    ensures ParseTable(RenderRow(cells) + ("\n" + more)) == Some([cells] + after)
  {
    var tail := "\n" + more;
    assert tail[1..] == more;
    ParseRenderRow(cells, tail, after);
  }

  /** The CSV text loses nothing: parsing what `RenderTable` wrote gives back
      the rows, with their number and every cell intact. */
  lemma {:induction false} ParseRender(rows: seq<seq<string>>)
    requires |rows| > 0 && forall k :: 0 <= k < |rows| ==> |rows[k]| > 0
    ensures ParseTable(RenderTable(rows)) == Some(rows)
  {
    if |rows| == 1 {
      assert RenderTable(rows) == RenderRow(rows[0]) + "";
      ParseRenderRow(rows[0], "", []);
      assert [rows[0]] + [] == rows;
    } else {
      var rest := rows[1..];
      assert forall k :: 0 <= k < |rest| ==> |rest[k]| > 0 by {
        forall k | 0 <= k < |rest| ensures |rest[k]| > 0 {
          assert rest[k] == rows[k + 1];
        }
      }
      ParseRender(rest);
      ParseRowThenTable(rows[0], RenderTable(rest), rest);
      assert RenderTable(rows) == RenderRow(rows[0]) + ("\n" + RenderTable(rest));
      assert [rows[0]] + rest == rows;
    }
  }
}
