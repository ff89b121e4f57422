/** frontend/src/components/CSVExportHelper.js: the `exportToCSV` dispatch
    on the export name and the three text generators it calls. Array
    elements are joined as `join(',')` writes them, with no quoting. */
module ExportGenerators {
  import opened Results
  import opened Strings
  import opened Seqs
  import opened JsValues
  import ExportHelper

  /** An element of the exported list: its own properties, read by the
      unmatched-items generator, and its `source` and `matched` objects,
      read by the other two. */
  datatype Element = Element(props: Object, source: Object, matched: Object)

  /** `[..].join(',')` of values. */
  function JoinValues(values: seq<Value>): string {
    Join(Map(values, JoinText), ",")
  }

  /** `x || ''` */
  function OrEmpty(v: Value): Value {
    Or(v, Str(""))
  }

  const PerfectColumns: seq<string> :=
    ["Transaction Number", "Type", "Amount", "Date", "Due Date", "Status", "Reference"]

  const MismatchColumns: seq<string> :=
    ["Transaction Number", "AR Type", "AP Type", "AR Amount", "AP Amount", "AR Date", "AP Date",
     "AR Due Date", "AP Due Date", "AR Status", "AP Status", "AR Reference", "AP Reference"]

  const UnmatchedColumns: seq<string> :=
    ["Ledger Type", "Transaction Number", "Type", "Amount", "Date", "Due Date", "Status", "Reference"]

  /** The row of a perfect match, from its `source`. */
  function PerfectFields(source: Object): (r: seq<Value>)
    ensures |r| == |PerfectColumns|
  {
    [Property(source, "transactionNumber"), Property(source, "type"), Property(source, "amount"),
     Property(source, "date"), Property(source, "dueDate"), Property(source, "status"),
     OrEmpty(Property(source, "reference"))]
  }

  /** The row of a mismatch: the number, then each field of the receivable
      (`source`) next to the same field of the payable (`matched`). */
  function MismatchFields(source: Object, matched: Object): (r: seq<Value>)
    ensures |r| == |MismatchColumns|
  {
    [Property(source, "transactionNumber"),
     Property(source, "type"), Property(matched, "type"),
     Property(source, "amount"), Property(matched, "amount"),
     Property(source, "date"), Property(matched, "date"),
     Property(source, "dueDate"), Property(matched, "dueDate"),
     Property(source, "status"), Property(matched, "status"),
     OrEmpty(Property(source, "reference")), OrEmpty(Property(matched, "reference"))]
  }

  /** The ledger a listed unmatched item belongs to. */
  function LedgerType(item: Object): string {
    if Truthy(Property(item, "isAR")) then "Accounts Receivable" else "Accounts Payable"
  }

  /** The row of an unmatched item. */
  function UnmatchedFields(item: Object): (r: seq<Value>)
    ensures |r| == |UnmatchedColumns|
  {
    [Str(LedgerType(item)), Property(item, "transactionNumber"), Property(item, "type"),
     Property(item, "amount"), Property(item, "date"), Property(item, "dueDate"),
     Property(item, "status"), OrEmpty(Property(item, "reference"))]
  }

  /** The header line, its line break, and the rows joined by '\n'. */
  function Document(columns: seq<string>, rows: seq<string>): string {
    Join(columns, ",") + "\n" + Join(rows, "\n")
  }

  function PerfectRow(e: Element): string { JoinValues(PerfectFields(e.source)) }
  function MismatchRow(e: Element): string { JoinValues(MismatchFields(e.source, e.matched)) }
  function UnmatchedRow(e: Element): string { JoinValues(UnmatchedFields(e.props)) }

  /** `generatePerfectMatchesCSV(matches)` */
  function GeneratePerfectMatchesCsv(matches: seq<Element>): string {
    Document(PerfectColumns, Map(matches, PerfectRow))
  }

  /** `generateMismatchesCSV(mismatches)` */
  function GenerateMismatchesCsv(mismatches: seq<Element>): string {
    Document(MismatchColumns, Map(mismatches, MismatchRow))
  }

  /** `generateUnmatchedItemsCSV(items)` */
  function GenerateUnmatchedItemsCsv(items: seq<Element>): string {
    Document(UnmatchedColumns, Map(items, UnmatchedRow))
  }

  /** The file `exportToCSV` hands to the download: its name and text. */
  datatype Export = Export(filename: string, content: string)

  /** The export names `exportToCSV` knows. */
  predicate KnownName(filename: string) {
    filename == "perfect-matches" || filename == "mismatches" || filename == "unmatched-items"
  }

  /** `exportToCSV(data, filename)` up to the download; None for an unknown
      name, which returns early. */
  function ExportToCsv(data: seq<Element>, filename: string): (r: Option<Export>)
    ensures r.Some? <==> KnownName(filename)
  {
    if filename == "perfect-matches" then Some(Export("perfect-matches.csv", GeneratePerfectMatchesCsv(data)))
    else if filename == "mismatches" then Some(Export("mismatches.csv", GenerateMismatchesCsv(data)))
    else if filename == "unmatched-items" then Some(Export("unmatched-items.csv", GenerateUnmatchedItemsCsv(data)))
    else None
  }

  /** Each known name is sent to its own generator, and the file is named
      after it with ".csv". */
  lemma ExportToCsvDispatch(data: seq<Element>)
    ensures ExportToCsv(data, "perfect-matches") == Some(Export("perfect-matches.csv", GeneratePerfectMatchesCsv(data)))
    ensures ExportToCsv(data, "mismatches") == Some(Export("mismatches.csv", GenerateMismatchesCsv(data)))
    ensures ExportToCsv(data, "unmatched-items") == Some(Export("unmatched-items.csv", GenerateUnmatchedItemsCsv(data)))
  {
  }

  /** An empty list gives exactly the header line and its line break;
      otherwise, with no line break inside a row, the text splits into the
      header line and then one line per element, in order, with no line
      break after the last. */
  lemma DocumentLines(columns: seq<string>, rows: seq<string>)
    requires forall j :: 0 <= j < |columns| ==> '\n' !in columns[j]
    requires forall i :: 0 <= i < |rows| ==> '\n' !in rows[i]
    ensures rows == [] ==> Document(columns, rows) == Join(columns, ",") + "\n"
    ensures rows != [] ==> Split(Document(columns, rows), {'\n'}) == [Join(columns, ",")] + rows
  {
    var h := Join(columns, ",");
    ExportHelper.JoinKeeps(columns, ',', '\n');
    if rows != [] {
      assert Document(columns, rows) == h + ['\n'] + Join(rows, "\n");
      SplitCons(h, '\n', Join(rows, "\n"), {'\n'});
      SplitJoin(rows, '\n');
    }
  }

  /** A line whose values hold no comma splits back into their texts, one
      per column. */
  lemma RowFields(values: seq<Value>)
    requires |values| >= 1
    requires forall j :: 0 <= j < |values| ==> ',' !in JoinText(values[j])
    ensures Split(JoinValues(values), {','}) == Map(values, JoinText)
  {
    SplitJoin(Map(values, JoinText), ',');
  }

  /** The perfect-matches header splits into its 7 columns. */
  lemma PerfectColumnCount()
    ensures Split(Join(PerfectColumns, ","), {','}) == PerfectColumns && |PerfectColumns| == 7
  {
    SplitJoin(PerfectColumns, ',');
  }

  /** The mismatches header splits into its 13 columns. */
  lemma MismatchColumnCount()
    ensures Split(Join(MismatchColumns, ","), {','}) == MismatchColumns && |MismatchColumns| == 13
  {
    SplitJoin(MismatchColumns, ',');
  }

  /** The unmatched-items header splits into its 8 columns. */
  lemma UnmatchedColumnCount()
    ensures Split(Join(UnmatchedColumns, ","), {','}) == UnmatchedColumns && |UnmatchedColumns| == 8
  {
    SplitJoin(UnmatchedColumns, ',');
  }

  /** A mismatch row interleaves the two sides: after the number, field k
      of the receivable is column 2k+1 and the same field of the payable
      column 2k+2; a missing reference on either side is ''. */
  lemma MismatchInterleaves(source: Object, matched: Object, k: nat)
    requires k < 6
    ensures var f := ["type", "amount", "date", "dueDate", "status", "reference"][k];
      var r := MismatchFields(source, matched);
      (k < 5 ==> r[2 * k + 1] == Property(source, f) && r[2 * k + 2] == Property(matched, f)) &&
      (k == 5 ==> r[11] == OrEmpty(Property(source, f)) && r[12] == OrEmpty(Property(matched, f)))
  {
  }

  /** The first field of an unmatched row is the ledger type, receivable
      exactly when the item is flagged `isAR`, whatever its other values
      hold. */
  lemma UnmatchedLedgerField(item: Object)
    ensures Split(UnmatchedRow(Element(item, map[], map[])), {','})[0] ==
      if Truthy(Property(item, "isAR")) then "Accounts Receivable" else "Accounts Payable"
  {
    var texts := Map(UnmatchedFields(item), JoinText);
    var rest := Join(texts[1..], ",");
    assert texts[0] == LedgerType(item);
    assert UnmatchedRow(Element(item, map[], map[])) == texts[0] + [','] + rest;
    SplitCons(texts[0], ',', rest, {','});
  }

  /** A missing reference is written as the empty field. */
  lemma MissingReferenceEmpty(source: Object)
    requires "reference" !in source
    ensures Map(PerfectFields(source), JoinText)[6] == ""
  {
  }
}
