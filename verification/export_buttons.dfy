/** The row builders of frontend/src/components/CSVExportButtons.jsx: the
    closures each Export*Button runs on click, up to the `generateCSV` call
    (the buttons themselves are not modelled). A row is the list of its
    values in header order, as `Object.values` gives them back. `?.` on a
    missing object reads undefined, which an empty object models. */
module ExportButtons {
  import opened Results
  import opened JsNumbers
  import opened JsValues
  import CsvExport
  import ExportGenerators

  /** A match or mismatch: the company1 and company2 records. */
  datatype Pair = Pair(company1: Object, company2: Object)

  /** `a || b || ''` */
  function Fallback(a: Value, b: Value): (r: Value)
    ensures Truthy(a) ==> r == a
    ensures !Truthy(a) && Truthy(b) ==> r == b
    ensures !Truthy(a) && !Truthy(b) ==> r == Str("")
  {
    Or(Or(a, b), Str(""))
  }

  /** `x || 0` */
  function OrZero(v: Value): Value {
    Or(v, Number(Fin(0.0)))
  }

  /** `a || b ? 'Yes' : 'No'` (the `||` binds first). */
  function YesNo(a: Value, b: Value): (r: Value)
    ensures r == Str("Yes") <==> Truthy(a) || Truthy(b)
    ensures r == Str("Yes") || r == Str("No")
  {
    if Truthy(Or(a, b)) then Str("Yes") else Str("No")
  }

  function Money(v: Value): Value {
    Str(CsvExport.FormatCurrencyForCsv(v))
  }

  function Day(v: Value, viaDate: Value -> string): Value {
    Str(CsvExport.FormatDateForCsv(v, viaDate))
  }

  const PerfectHeaders: seq<Value> :=
    [Str("Transaction_Number"), Str("Type"), Str("Amount"), Str("Date"), Str("Due_Date"), Str("Status"),
     Str("Is_Partially_Paid"), Str("Original_Amount"), Str("Amount_Paid")]

  /** The row of a perfect match: each field from company1, else from
      company2. */
  function PerfectRow(m: Pair, viaDate: Value -> string): (r: seq<Value>)
    ensures |r| == |PerfectHeaders|
  {
    var a, b := m.company1, m.company2;
    [Fallback(Property(a, "transactionNumber"), Property(b, "transactionNumber")),
     Fallback(Property(a, "type"), Property(b, "type")),
     Money(OrZero(Property(a, "amount"))),
     Day(Or(Property(a, "date"), Property(b, "date")), viaDate),
     Day(Or(Property(a, "dueDate"), Property(b, "dueDate")), viaDate),
     Fallback(Property(a, "status"), Property(b, "status")),
     YesNo(Property(a, "is_partially_paid"), Property(b, "is_partially_paid")),
     Money(OrZero(Or(Property(a, "original_amount"), Property(b, "original_amount")))),
     Money(OrZero(Or(Property(a, "amount_paid"), Property(b, "amount_paid"))))]
  }

  const MismatchHeaders: seq<Value> :=
    [Str("Transaction_Number"), Str("Type"), Str("Receivable_Amount"), Str("Payable_Amount"), Str("Difference"),
     Str("Date"), Str("Status"), Str("Is_Partially_Paid"), Str("Payment_Date")]

  /** `Math.abs(parseFloat(a || 0) - parseFloat(b || 0))` */
  function Difference(a: Value, b: Value): Num {
    Abs(Sub(ParseFloatValue(OrZero(a)), ParseFloatValue(OrZero(b))))
  }

  /** The row of a mismatch. */
  function MismatchRow(m: Pair, viaDate: Value -> string): (r: seq<Value>)
    ensures |r| == |MismatchHeaders|
  {
    var a, b := m.company1, m.company2;
    [Fallback(Property(a, "transactionNumber"), Property(b, "transactionNumber")),
     Fallback(Property(a, "type"), Property(b, "type")),
     Money(OrZero(Property(a, "amount"))),
     Money(OrZero(Property(b, "amount"))),
     Money(Number(Difference(Property(a, "amount"), Property(b, "amount")))),
     Day(Or(Property(a, "date"), Property(b, "date")), viaDate),
     Fallback(Property(a, "status"), Property(b, "status")),
     YesNo(Property(a, "is_partially_paid"), Property(b, "is_partially_paid")),
     Day(Or(Property(a, "payment_date"), Property(b, "payment_date")), viaDate)]
  }

  /** A non-negative amount is written without a sign, and reads back as
      itself to the cent; NaN is written as the empty text. */
  lemma UnsignedMoney(n: Num)
    requires n.Fin? ==> n.val >= 0.0
    ensures var d := CsvExport.FormatCurrencyForCsv(Number(n));
      (d == "" <==> n.NaN?) && (n.Fin? ==> d[0] != '-' && ParseFloat(d) == Fin(Round2(n.val)))
  {
    CsvExport.FormatCurrencySpec(Number(n));
    if n.Fin? {
      ToFixed2Shape(n.val);
    }
  }

  /** The Difference column is never negative: it is empty when an amount
      does not parse, and otherwise the distance between the two parsed
      amounts, to the cent. */
  lemma DifferenceNotNegative(a: Value, b: Value)
    ensures var d := CsvExport.FormatCurrencyForCsv(Number(Difference(a, b)));
      var x, y := ParseFloatValue(OrZero(a)), ParseFloatValue(OrZero(b));
      (d == "" <==> x.NaN? || y.NaN?) &&
      (x.Fin? && y.Fin? ==> d[0] != '-' && ParseFloat(d) == Fin(Round2(AbsReal(x.val - y.val))))
  {
    var x, y := ParseFloatValue(OrZero(a)), ParseFloatValue(OrZero(b));
    var n := Difference(a, b);
    assert n == Abs(Sub(x, y));
    assert x.Fin? && y.Fin? ==> n == Fin(AbsReal(x.val - y.val));
    UnsignedMoney(n);
  }

  const UnmatchedHeaders: seq<Value> :=
    [Str("Type"), Str("Transaction_Number"), Str("Amount"), Str("Date"), Str("Due_Date"), Str("Status"),
     Str("Is_Partially_Paid"), Str("Original_Amount"), Str("Amount_Paid")]

  /** The row of an unmatched item, under its side's label. */
  function UnmatchedRow(side: string, item: Object, viaDate: Value -> string): (r: seq<Value>)
    ensures |r| == |UnmatchedHeaders| && r[0] == Str(side)
  {
    [Str(side),
     Or(Property(item, "transactionNumber"), Str("")),
     Money(OrZero(Property(item, "amount"))),
     Day(Property(item, "date"), viaDate),
     Day(Property(item, "dueDate"), viaDate),
     Or(Property(item, "status"), Str("")),
     YesNo(Property(item, "is_partially_paid"), Bool(false)),
     Money(OrZero(Property(item, "original_amount"))),
     Money(OrZero(Property(item, "amount_paid")))]
  }

  /** `(list || [])`: a missing side is empty. */
  function OrNone(list: Option<seq<Object>>): seq<Object> {
    if list.Some? then list.value else []
  }

  function SideRows(side: string, items: seq<Object>, viaDate: Value -> string): (r: seq<seq<Value>>)
    ensures |r| == |items|
    ensures forall i :: 0 <= i < |items| ==> r[i] == UnmatchedRow(side, items[i], viaDate)
  {
    seq(|items|, i requires 0 <= i < |items| => UnmatchedRow(side, items[i], viaDate))
  }

  /** The unmatched lists: `data.company1` and `data.company2`, None when
      missing. */
  datatype Unmatched = Unmatched(company1: Option<seq<Object>>, company2: Option<seq<Object>>)

  /** `combinedData`: the receivables, then the payables. */
  function UnmatchedRows(u: Unmatched, viaDate: Value -> string): seq<seq<Value>> {
    SideRows("Receivable", OrNone(u.company1), viaDate) + SideRows("Payable", OrNone(u.company2), viaDate)
  }

  /** Every company1 item comes first, labelled Receivable, and then every
      company2 item, labelled Payable, each in its list's order. */
  lemma UnmatchedRowsSpec(u: Unmatched, viaDate: Value -> string)
    ensures var r := UnmatchedRows(u, viaDate);
      var p, q := OrNone(u.company1), OrNone(u.company2);
      |r| == |p| + |q| &&
      (forall i :: 0 <= i < |p| ==> r[i] == UnmatchedRow("Receivable", p[i], viaDate)) &&
      (forall i :: 0 <= i < |q| ==> r[|p| + i] == UnmatchedRow("Payable", q[i], viaDate))
  {
    var p, q := OrNone(u.company1), OrNone(u.company2);
    var a, b := SideRows("Receivable", p, viaDate), SideRows("Payable", q, viaDate);
    var r := a + b;
    assert r == UnmatchedRows(u, viaDate);
    assert forall i :: 0 <= i < |p| ==> r[i] == a[i];
    assert forall i :: 0 <= i < |q| ==> r[|p| + i] == b[i];
  }

  /** The label of every row names its side: Receivable exactly for the
      first |company1| rows. */
  lemma UnmatchedLabels(u: Unmatched, viaDate: Value -> string, i: nat)
    requires i < |UnmatchedRows(u, viaDate)|
    ensures UnmatchedRows(u, viaDate)[i][0] == Str(if i < |OrNone(u.company1)| then "Receivable" else "Payable")
  {
    UnmatchedRowsSpec(u, viaDate);
    var p := |OrNone(u.company1)|;
    if i >= p {
      assert UnmatchedRows(u, viaDate)[p + (i - p)] == UnmatchedRows(u, viaDate)[i];
    }
  }

  /** A historical insight: the payable item, its historical match and
      the insight object. */
  datatype Insight = Insight(apItem: Object, historicalMatch: Object, insight: Object)

  const InsightHeaders: seq<Value> :=
    [Str("AP_Transaction_Number"), Str("AP_Amount"), Str("AP_Date"), Str("AP_Status"),
     Str("AR_Transaction_Number"), Str("AR_Original_Amount"), Str("AR_Paid_Amount"), Str("AR_Current_Amount"),
     Str("AR_Date"), Str("AR_Status"), Str("AR_Payment_Date"), Str("Insight_Severity"), Str("Insight_Message")]

  function InsightRow(x: Insight, viaDate: Value -> string): (r: seq<Value>)
    ensures |r| == |InsightHeaders|
  {
    var ap, ar, ins := x.apItem, x.historicalMatch, x.insight;
    [Or(Property(ap, "transactionNumber"), Str("")),
     Money(OrZero(Property(ap, "amount"))),
     Day(Property(ap, "date"), viaDate),
     Or(Property(ap, "status"), Str("")),
     Or(Property(ar, "transactionNumber"), Str("")),
     Money(OrZero(Property(ar, "original_amount"))),
     Money(OrZero(Property(ar, "amount_paid"))),
     Money(OrZero(Property(ar, "amount"))),
     Day(Property(ar, "date"), viaDate),
     Or(Property(ar, "status"), Str("")),
     Day(Property(ar, "payment_date"), viaDate),
     Or(Property(ins, "severity"), Str("")),
     Or(Property(ins, "message"), Str(""))]
  }

  type Export = ExportGenerators.Export

  function PerfectMatchesExport(data: seq<Pair>, viaDate: Value -> string): (r: Export)
    ensures r.filename == "perfect_matches.csv"
  {
    ExportGenerators.Export("perfect_matches.csv",
      CsvExport.CsvText(PerfectHeaders, seq(|data|, i requires 0 <= i < |data| => PerfectRow(data[i], viaDate))))
  }

  function MismatchesExport(data: seq<Pair>, viaDate: Value -> string): (r: Export)
    ensures r.filename == "mismatches.csv"
  {
    ExportGenerators.Export("mismatches.csv",
      CsvExport.CsvText(MismatchHeaders, seq(|data|, i requires 0 <= i < |data| => MismatchRow(data[i], viaDate))))
  }

  function UnmatchedItemsExport(u: Unmatched, viaDate: Value -> string): (r: Export)
    ensures r.filename == "unmatched_items.csv"
  {
    ExportGenerators.Export("unmatched_items.csv", CsvExport.CsvText(UnmatchedHeaders, UnmatchedRows(u, viaDate)))
  }

  /** `exportHistoricalInsightsCSV`: nothing for an empty list. */
  function HistoricalInsightsExport(data: seq<Insight>, viaDate: Value -> string): (r: Option<Export>)
    ensures r.None? <==> data == []
    ensures r.Some? ==> r.value.filename == "historical_insights.csv"
  {
    if |data| == 0 then None
    else Some(ExportGenerators.Export("historical_insights.csv",
      CsvExport.CsvText(InsightHeaders, seq(|data|, i requires 0 <= i < |data| => InsightRow(data[i], viaDate)))))
  }

  /** What `ExportAllDataButton` reads. */
  datatype AllData = AllData(company1Total: Value, company2Total: Value, variance: Value,
                             perfectMatches: seq<Pair>, mismatches: seq<Pair>, unmatchedItems: Unmatched,
                             historicalInsights: seq<Insight>,
                             perfectMatchAmount: Value, mismatchAmount: Value, unmatchedAmount: Value)

  function Count(n: nat): Value {
    Number(Fin(n as real))
  }

  /** `(unmatchedItems.company1?.length || 0) + (unmatchedItems.company2?.length || 0)` */
  function UnmatchedCount(u: Unmatched): (r: nat)
    ensures r == |OrNone(u.company1)| + |OrNone(u.company2)|
  {
    (if u.company1.Some? then |u.company1.value| else 0) + (if u.company2.Some? then |u.company2.value| else 0)
  }

  /** The rows of the summary file, as category and value. */
  function SummaryRows(d: AllData): (r: seq<seq<Value>>)
    ensures |r| == 10
  {
    [[Str("Accounts Receivable Total"), Money(d.company1Total)],
     [Str("Accounts Payable Total"), Money(d.company2Total)],
     [Str("Variance"), Money(d.variance)],
     [Str("Perfect Matches Count"), Count(|d.perfectMatches|)],
     [Str("Perfect Matches Amount"), Money(d.perfectMatchAmount)],
     [Str("Mismatches Count"), Count(|d.mismatches|)],
     [Str("Mismatches Amount"), Money(d.mismatchAmount)],
     [Str("Unmatched Items Count"), Count(UnmatchedCount(d.unmatchedItems))],
     [Str("Unmatched Items Amount"), Money(d.unmatchedAmount)],
     [Str("Historical Insights Count"), Count(|d.historicalInsights|)]]
  }

  /** The `generateCSV(summaryData, 'reconciliation_summary.csv', ...)`
      file. */
  function SummaryExport(d: AllData): (r: Export)
    ensures r.filename == "reconciliation_summary.csv"
  {
    ExportGenerators.Export("reconciliation_summary.csv",
      CsvExport.CsvText([Str("Category"), Str("Value")], SummaryRows(d)))
  }

  /** `exportAllDataCSV` as it is meant to run: the summary, the three
      sections, and the insights file when there are insights, in that
      order. */
  function AllDataExports(d: AllData, viaDate: Value -> string): (r: seq<Export>)
    ensures |r| == if d.historicalInsights == [] then 4 else 5
  {
    Bundle(SummaryExport(d), PerfectMatchesExport(d.perfectMatches, viaDate),
           MismatchesExport(d.mismatches, viaDate), UnmatchedItemsExport(d.unmatchedItems, viaDate),
           HistoricalInsightsExport(d.historicalInsights, viaDate))
  }

  /** The four files in order, then the optional one. */
  function Bundle(summary: Export, perfect: Export, mismatches: Export, unmatched: Export,
                  insights: Option<Export>): (r: seq<Export>)
    ensures |r| == if insights.None? then 4 else 5
    ensures r[0] == summary && r[1] == perfect && r[2] == mismatches && r[3] == unmatched
    ensures insights.Some? ==> r[4] == insights.value
  {
    var sections := [summary, perfect, mismatches, unmatched];
    match insights
    case None => sections
    case Some(x) => sections + [x]
  }

  /** The summary comes first, then the three sections in a fixed order. */
  lemma AllDataExportsOrder(d: AllData, viaDate: Value -> string)
    ensures var r := AllDataExports(d, viaDate);
      r[0].filename == "reconciliation_summary.csv" && r[1].filename == "perfect_matches.csv" &&
      r[2].filename == "mismatches.csv" && r[3].filename == "unmatched_items.csv"
  {
  }

  /** The last file is the insights file exactly when there are
      insights. */
  lemma AllDataInsightsFile(d: AllData, viaDate: Value -> string)
    ensures var r := AllDataExports(d, viaDate);
      r[|r| - 1].filename == "historical_insights.csv" <==> d.historicalInsights != []
  {
    AllDataExportsOrder(d, viaDate);
    if d.historicalInsights == [] {
      assert |"unmatched_items.csv"| != |"historical_insights.csv"|;
    }
  }

  /** What a run of `exportAllDataCSV` leaves behind: the files written, in
      order, and the exception it ends with, if any. */
  datatype AllDataRun = AllDataRun(written: seq<Export>, thrown: Option<string>)

  /** `exportAllDataCSV` as written, run natively: the button components
      are arrow functions, which have no [[Construct]], so after the summary
      file the first `new ExportPerfectMatchesButton(...)` throws a
      TypeError and no section file is written. */
  function AllDataRunAsWritten(d: AllData): (r: AllDataRun)
    ensures |r.written| == 1 && r.written[0].filename == "reconciliation_summary.csv"
    ensures r.thrown.Some?
  {
    AllDataRun([SummaryExport(d)], Some("TypeError: ExportPerfectMatchesButton is not a constructor"))
  }

  /** The run as written stops after the first of the files the handler
      means to write: it throws, and no section file is written. */
  lemma AllDataRunMissesSections(d: AllData, viaDate: Value -> string)
    ensures var run := AllDataRunAsWritten(d); var intended := AllDataExports(d, viaDate);
      run.thrown.Some? && run.written == intended[..1] && |run.written| < |intended| &&
      forall i :: 1 <= i < |intended| ==> intended[i].filename != run.written[0].filename
  {
    SectionNamesDiffer();
    BundleAfterFirst(SummaryExport(d), PerfectMatchesExport(d.perfectMatches, viaDate),
      MismatchesExport(d.mismatches, viaDate), UnmatchedItemsExport(d.unmatchedItems, viaDate),
      HistoricalInsightsExport(d.historicalInsights, viaDate));
  }

  /** Of a bundle whose later files are named apart from the first, the
      first file alone is a strict prefix sharing no later file's name. */
  lemma BundleAfterFirst(summary: Export, perfect: Export, mismatches: Export, unmatched: Export,
                         insights: Option<Export>)
    requires perfect.filename != summary.filename && mismatches.filename != summary.filename
    requires unmatched.filename != summary.filename
    requires insights.Some? ==> insights.value.filename != summary.filename
    ensures var b := Bundle(summary, perfect, mismatches, unmatched, insights);
      [summary] == b[..1] && 1 < |b| && forall i :: 1 <= i < |b| ==> b[i].filename != summary.filename
  {
    var b := Bundle(summary, perfect, mismatches, unmatched, insights);
    assert b[..1] == [b[0]];
  }

  /** The file names of the sections are not the summary's. */
  lemma SectionNamesDiffer()
    ensures var s := "reconciliation_summary.csv";
      "perfect_matches.csv" != s && "mismatches.csv" != s && "unmatched_items.csv" != s &&
      "historical_insights.csv" != s
  {
    assert "perfect_matches.csv"[0] != 'r' && "mismatches.csv"[0] != 'r';
    assert |"unmatched_items.csv"| != 26 && |"historical_insights.csv"| != 26;
  }

  /** The summary's unmatched count is |company1| + |company2|, a missing
      side counting 0. */
  lemma SummaryUnmatchedCount(d: AllData)
    ensures SummaryRows(d)[7] ==
      [Str("Unmatched Items Count"), Count(|OrNone(d.unmatchedItems.company1)| + |OrNone(d.unmatchedItems.company2)|)]
  {
  }
}
