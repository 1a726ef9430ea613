/** The report exporters of src/utils/exports.ts: `generateCSV` (the table of
    strings and the CSV text built from it) and `generatePDF` (the title, the
    table head and body and where the table starts). Producing the Blob, the
    download link and the jsPDF drawing are not part of this model. */
module Exports {
  import opened Records
  import opened Text
  import opened Csv

  datatype ExportType = Volunteers | Areas | Donations

  function TypeName(t: ExportType): (r: string)
    ensures r != ""
  {
    match t
    case Volunteers => "volunteers"
    case Areas => "areas"
    case Donations => "donations"
  }

  /** Number of records the export of kind `t` lists. */
  function RecordCount(t: ExportType, vs: seq<Volunteer>, areas: seq<Area>, ds: seq<Donation>): nat {
    match t
    case Volunteers => |vs|
    case Areas => |areas|
    case Donations => |ds|
  }

  // ---------------------------------------------------------------------------
  // CSV

  /** Column names: `id` first, then no name twice. */
  function CsvHeader(t: ExportType): (r: seq<string>)
    ensures |r| >= 4 && r[0] == "id"
    ensures forall i, j :: 0 <= i < j < |r| ==> r[i] != r[j]
  {
    match t
    case Volunteers => ["id", "name", "phone", "email", "skills", "area"]
    case Areas => ["id", "name", "cep", "city", "state"]
    case Donations => ["id", "description", "quantity", "area"]
  }

  /** Cells of record `i`: missing optional fields as '', and for volunteers
      and donations the name of the linked area, or '' when it is unlinked or
      not found. */
  function CsvRecord(t: ExportType, vs: seq<Volunteer>, areas: seq<Area>, ds: seq<Donation>, i: nat): (r: seq<string>)
    requires i < RecordCount(t, vs, areas, ds)
    ensures |r| == |CsvHeader(t)|
  {
    match t
    case Volunteers =>
      var v := vs[i];
      [v.id, v.name, OrEmpty(v.phone), OrEmpty(v.email), OrEmpty(v.skills), AreaNameOr(areas, v.areaId, "")]
    case Areas =>
      var a := areas[i];
      [a.id, a.name, a.cep, OrEmpty(a.city), OrEmpty(a.state)]
    case Donations =>
      var d := ds[i];
      [d.id, d.description, IntToString(d.quantity), AreaNameOr(areas, d.areaId, "")]
  }

  /** `rows`: the header row first, then one row per record in list order,
      every row as wide as the header. */
  function CsvRows(t: ExportType, vs: seq<Volunteer>, areas: seq<Area>, ds: seq<Donation>): (r: seq<seq<string>>)
    ensures |r| == RecordCount(t, vs, areas, ds) + 1
    ensures r[0] == CsvHeader(t)
    ensures forall i :: 0 <= i < RecordCount(t, vs, areas, ds) ==> r[i + 1] == CsvRecord(t, vs, areas, ds, i)
    ensures forall k :: 0 <= k < |r| ==> |r[k]| == |CsvHeader(t)|
  {
    var n := RecordCount(t, vs, areas, ds);
    [CsvHeader(t)] + seq(n, i requires 0 <= i < n => CsvRecord(t, vs, areas, ds, i))
  }

  /** The CSV text of `generateCSV`. */
  function GenerateCsv(t: ExportType, vs: seq<Volunteer>, areas: seq<Area>, ds: seq<Donation>): (r: string)
    ensures RenderRow(CsvHeader(t)) <= r
    ensures RecordCount(t, vs, areas, ds) > 0 ==> RenderRow(CsvHeader(t)) + "\n" <= r
  {
    RenderTableFirstLine(CsvRows(t, vs, areas, ds));
    RenderTable(CsvRows(t, vs, areas, ds))
  }

  /** Reading the exported text back gives the header and then exactly one
      row per record, in order, every cell as it was before quoting. */
  lemma GenerateCsvRoundTrip(t: ExportType, vs: seq<Volunteer>, areas: seq<Area>, ds: seq<Donation>)
    ensures var rows := ParseTable(GenerateCsv(t, vs, areas, ds));
            && rows.Some?
            && |rows.value| == RecordCount(t, vs, areas, ds) + 1
            && rows.value[0] == CsvHeader(t)
            && forall i :: 0 <= i < RecordCount(t, vs, areas, ds) ==> rows.value[i + 1] == CsvRecord(t, vs, areas, ds, i)
  {
    var rows := CsvRows(t, vs, areas, ds);
    assert forall k :: 0 <= k < |rows| ==> |rows[k]| > 0 by {
      assert |CsvHeader(t)| > 0;
    }
    ParseRender(rows);
  }

  /** An empty collection exports the header line alone. */
  lemma EmptyExportIsHeaderOnly(t: ExportType, vs: seq<Volunteer>, areas: seq<Area>, ds: seq<Donation>)
    requires RecordCount(t, vs, areas, ds) == 0
    ensures GenerateCsv(t, vs, areas, ds) == RenderRow(CsvHeader(t))
  {
    assert CsvRows(t, vs, areas, ds) == [CsvHeader(t)];
  }

  /** The volunteer export of the repository's own test: two linked
      volunteers and one unlinked. */
  lemma VolunteerCsvExample()
    ensures var areas := [Area("a_1", "Area X", "12345-000", Some("CityX"), Some("CX")),
                          Area("a_2", "Area Y", "54321-000", Some("CityY"), Some("CY"))];
            var vs := [Volunteer("v_1", "Alice", None, None, None, Some("a_1")),
                       Volunteer("v_2", "Bob", None, None, None, Some("a_2")),
                       Volunteer("v_3", "Charlie", None, None, None, None)];
            CsvRows(Volunteers, vs, areas, []) ==
              [["id", "name", "phone", "email", "skills", "area"],
               ["v_1", "Alice", "", "", "", "Area X"],
               ["v_2", "Bob", "", "", "", "Area Y"],
               ["v_3", "Charlie", "", "", "", ""]]
  {
    var areas := [Area("a_1", "Area X", "12345-000", Some("CityX"), Some("CX")),
                  Area("a_2", "Area Y", "54321-000", Some("CityY"), Some("CY"))];
    var vs := [Volunteer("v_1", "Alice", None, None, None, Some("a_1")),
               Volunteer("v_2", "Bob", None, None, None, Some("a_2")),
               Volunteer("v_3", "Charlie", None, None, None, None)];
    assert RefersTo(Some("a_1"), areas[0]);
    assert !RefersTo(Some("a_2"), areas[0]) && RefersTo(Some("a_2"), areas[1]);
    assert CsvRecord(Volunteers, vs, areas, [], 0) == ["v_1", "Alice", "", "", "", "Area X"];
    assert CsvRecord(Volunteers, vs, areas, [], 1) == ["v_2", "Bob", "", "", "", "Area Y"];
    assert CsvRecord(Volunteers, vs, areas, [], 2) == ["v_3", "Charlie", "", "", "", ""];
  }

  // ---------------------------------------------------------------------------
  // PDF

  /** A body cell: jsPDF-autotable receives strings, and the quantity of a
      donation as a number. */
  datatype PdfCell = TextCell(text: string) | NumberCell(number: int)

  /** What `generatePDF` draws: the title in font size 14 at (14, 16), then a
      table with `head` and `body` starting at `startY`. */
  datatype PdfReport = PdfReport(
    fontSize: int,
    titleX: int,
    titleY: int,
    title: string,
    head: seq<seq<string>>,
    body: seq<seq<PdfCell>>,
    startY: int)

  /** "Relatório de " and the kind's name in Portuguese. */
  function PdfTitle(t: ExportType): (r: string)
    ensures "Relatório de " <= r && |r| > |"Relatório de "|
  {
    match t
    case Volunteers => "Relatório de Voluntários"
    case Areas => "Relatório de Áreas"
    case Donations => "Relatório de Doações"
  }

  /** Column captions: as many as the CSV columns, `ID` first, then no
      caption twice. */
  function PdfHeader(t: ExportType): (r: seq<string>)
    ensures |r| == |CsvHeader(t)| && r[0] == "ID"
    ensures forall i, j :: 0 <= i < j < |r| ==> r[i] != r[j]
  {
    match t
    case Volunteers => ["ID", "Nome", "Telefone", "Email", "Skills", "Área"]
    case Areas => ["ID", "Nome", "CEP", "Cidade", "Estado"]
    case Donations => ["ID", "Descrição", "Quantidade", "Área"]
  }

  /** Body row of record `i`: as the CSV row, except that the area column shows
      the placeholder '—' when the area is unlinked or not found and the
      donation quantity stays a number. */
  function PdfRecord(t: ExportType, vs: seq<Volunteer>, areas: seq<Area>, ds: seq<Donation>, i: nat): (r: seq<PdfCell>)
    requires i < RecordCount(t, vs, areas, ds)
    ensures |r| == |PdfHeader(t)|
  {
    match t
    case Volunteers =>
      var v := vs[i];
      [TextCell(v.id), TextCell(v.name), TextCell(OrEmpty(v.phone)), TextCell(OrEmpty(v.email)),
       TextCell(OrEmpty(v.skills)), TextCell(AreaNameOr(areas, v.areaId, Placeholder))]
    case Areas =>
      var a := areas[i];
      [TextCell(a.id), TextCell(a.name), TextCell(a.cep), TextCell(OrEmpty(a.city)), TextCell(OrEmpty(a.state))]
    case Donations =>
      var d := ds[i];
      [TextCell(d.id), TextCell(d.description), NumberCell(d.quantity), TextCell(AreaNameOr(areas, d.areaId, Placeholder))]
  }

  /** `generatePDF`: the title and single head row of the kind, one body row
      per record in list order, each as wide as the head, and the table at
      `startY` 20. */
  function GeneratePdf(t: ExportType, vs: seq<Volunteer>, areas: seq<Area>, ds: seq<Donation>): (r: PdfReport)
    ensures r.title == PdfTitle(t) && r.head == [PdfHeader(t)] && r.startY == 20
    ensures |r.body| == RecordCount(t, vs, areas, ds)
    ensures forall i :: 0 <= i < |r.body| ==> r.body[i] == PdfRecord(t, vs, areas, ds, i)
    ensures forall i :: 0 <= i < |r.body| ==> |r.body[i]| == |r.head[0]|
  {
    var n := RecordCount(t, vs, areas, ds);
    PdfReport(14, 14, 16, PdfTitle(t), [PdfHeader(t)],
              seq(n, i requires 0 <= i < n => PdfRecord(t, vs, areas, ds, i)), 20)
  }

  /** The PDF's area cell is the CSV's with '' replaced by '—': the two
      exporters look the area up the same way and differ only in the
      placeholder. */
  lemma PlaceholderForEmpty(areas: seq<Area>, ref: Option<string>)
    ensures var csv := AreaNameOr(areas, ref, "");
            AreaNameOr(areas, ref, Placeholder) == if csv == "" then Placeholder else csv
  {
  }

  /** Cell by cell, a PDF record says what the CSV record of the same entry
      says: the same text, except '—' where the CSV area cell is empty and the
      number itself where the CSV writes the donation quantity as a numeral. */
  lemma PdfRecordAgreesWithCsv(t: ExportType, vs: seq<Volunteer>, areas: seq<Area>, ds: seq<Donation>, i: nat, j: nat)
    requires i < RecordCount(t, vs, areas, ds) && j < |PdfHeader(t)|
    ensures |CsvHeader(t)| == |PdfHeader(t)|
    ensures var pdf := PdfRecord(t, vs, areas, ds, i)[j];
            var csv := CsvRecord(t, vs, areas, ds, i)[j];
            var areaColumn := t != Areas && j == |PdfHeader(t)| - 1;
            var quantityColumn := t == Donations && j == 2;
            && (areaColumn ==> pdf == TextCell(if csv == "" then Placeholder else csv))
            && (quantityColumn ==> pdf.NumberCell? && csv == IntToString(pdf.number))
            && (!areaColumn && !quantityColumn ==> pdf == TextCell(csv))
  {
    var pdf := PdfRecord(t, vs, areas, ds, i);
    var csv := CsvRecord(t, vs, areas, ds, i);
    match t
    case Volunteers =>
      PlaceholderForEmpty(areas, vs[i].areaId);
      assert j < 5 ==> pdf[j] == TextCell(csv[j]);
    case Areas =>
      assert pdf[j] == TextCell(csv[j]);
    case Donations =>
      PlaceholderForEmpty(areas, ds[i].areaId);
      assert j < 2 ==> pdf[j] == TextCell(csv[j]);
  }

  /** The same agreement stated on the two generated documents: row `i` of
      the PDF body against row `i + 1` of the CSV, below the header. */
  lemma PdfAgreesWithCsv(t: ExportType, vs: seq<Volunteer>, areas: seq<Area>, ds: seq<Donation>, i: nat, j: nat)
    requires i < RecordCount(t, vs, areas, ds) && j < |PdfHeader(t)|
    ensures |CsvHeader(t)| == |PdfHeader(t)|
    ensures var pdf := GeneratePdf(t, vs, areas, ds).body[i][j];
            var csv := CsvRows(t, vs, areas, ds)[i + 1][j];
            var areaColumn := t != Areas && j == |PdfHeader(t)| - 1;
            var quantityColumn := t == Donations && j == 2;
            && (areaColumn ==> pdf == TextCell(if csv == "" then Placeholder else csv))
            && (quantityColumn ==> pdf.NumberCell? && csv == IntToString(pdf.number))
            && (!areaColumn && !quantityColumn ==> pdf == TextCell(csv))
  {
    assert GeneratePdf(t, vs, areas, ds).body[i] == PdfRecord(t, vs, areas, ds, i);
    assert CsvRows(t, vs, areas, ds)[i + 1] == CsvRecord(t, vs, areas, ds, i);
    PdfRecordAgreesWithCsv(t, vs, areas, ds, i, j);
  }

  /** The areas report of the repository's own test: head
      `ID, Nome, CEP, Cidade, Estado`, the rows `[id, name, cep, city, state]`
      in list order, and the table at 20. */
  lemma AreasPdfExample()
    ensures var areas := [Area("a_1", "Area X", "12345-000", Some("CityX"), Some("CX")),
                          Area("a_2", "Area Y", "54321-000", Some("CityY"), Some("CY"))];
            var r := GeneratePdf(Areas, [], areas, []);
            && r.head == [["ID", "Nome", "CEP", "Cidade", "Estado"]]
            && r.body == [[TextCell("a_1"), TextCell("Area X"), TextCell("12345-000"), TextCell("CityX"), TextCell("CX")],
                          [TextCell("a_2"), TextCell("Area Y"), TextCell("54321-000"), TextCell("CityY"), TextCell("CY")]]
            && r.startY == 20
  {
  }

  // ---------------------------------------------------------------------------
  // File names

  /** `new Date().toISOString().slice(0, 10)`: the first ten characters (the
      date) of the timestamp, which the model takes as a parameter. */
  function DatePart(isoTimestamp: string): (r: string)
    ensures |r| <= 10 && r <= isoTimestamp
    ensures |isoTimestamp| >= 10 ==> |r| == 10
  {
    if |isoTimestamp| <= 10 then isoTimestamp else isoTimestamp[..10]
  }

  /** `${type}_${date}.csv` and `${type}_${date}.pdf`. */
  function ExportFileName(t: ExportType, isoTimestamp: string, extension: string): (r: string)
    ensures TypeName(t) + "_" <= r
    ensures |r| == |TypeName(t)| + 1 + |DatePart(isoTimestamp)| + 1 + |extension|
    ensures r[|r| - |extension| - 1..] == "." + extension
    ensures r[|TypeName(t)| + 1..|r| - |extension| - 1] == DatePart(isoTimestamp)
  {
    TypeName(t) + "_" + DatePart(isoTimestamp) + "." + extension
  }
}
