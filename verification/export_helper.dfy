/** frontend/src/utils/CSVExportHelper.js: `convertToCSV`, which builds CSV
    text from objects and column descriptions, and `prepareExportData`,
    which labels and concatenates the groups of a match result. */
module ExportHelper {
  import opened Results
  import opened Strings
  import opened Seqs
  import opened JsNumbers
  import opened JsValues
  import CsvExport

  /** A column: the property its values are read from. */
  datatype Header = Header(key: string)

  /** `String(header)` of a plain object. */
  const ObjectText: string := "[object Object]"

  /** `headers.join(',')` as written: every header is an object, and an
      object prints as "[object Object]". */
  function HeaderLineAsWritten(headers: seq<Header>): (r: string)
    ensures headers != [] ==> StartsWith(r, ObjectText)
  {
    if |headers| == 0 then ""
    else if |headers| == 1 then ObjectText
    else ObjectText + "," + HeaderLineAsWritten(headers[1..])
  }

  /** The header line as written names no column: for a header keyed
      "amount" it is "[object Object]". */
  lemma HeaderLineNamesNoColumn()
    ensures HeaderLineAsWritten([Header("amount")]) == ObjectText
    ensures HeaderLineAsWritten([Header("amount")]) != HeaderLine([Header("amount")])
  {
    assert HeaderLine([Header("amount")]) == "amount";
  }

  function Keys(headers: seq<Header>): (r: seq<string>)
    ensures |r| == |headers|
    ensures forall j :: 0 <= j < |headers| ==> r[j] == headers[j].key
  {
    if headers == [] then [] else [headers[0].key] + Keys(headers[1..])
  }

  /** The header line the values are laid out under: the column keys. */
  function HeaderLine(headers: seq<Header>): string {
    Join(Keys(headers), ",")
  }

  /** `typeof value === 'number' ? value.toString() : value` on
      `item[header.key] || ''`: falsy values, 0 among them, give ''. None
      for `true`, the one value left whose `includes` is not a function,
      which throws a TypeError. */
  function CellText(v: Value): (r: Option<string>)
    ensures !Truthy(v) ==> r == Some("")
    ensures v.Str? ==> r == Some(v.s)
    ensures r.None? <==> v == Bool(true)
  {
    match Or(v, Str(""))
    case Number(n) => Some(NumToString(n))
    case Str(s) => Some(s)
    case _ => None
  }

  /** The quoting of `convertToCSV`: a value holding a comma is wrapped in
      quotes; quotes inside it are left as they are. */
  function Quote(s: string): (r: string)
    ensures ',' in s ==> r == "\"" + s + "\""
    ensures ',' !in s ==> r == s
  {
    if ',' in s then "\"" + s + "\"" else s
  }

  /** The value texts of one item under the headers, in header order,
      before quoting; None when one of them throws. */
  function Texts(item: Object, headers: seq<Header>): (r: Option<seq<string>>)
    ensures r.Some? ==> |r.value| == |headers|
  {
    if headers == [] then Some([])
    else
      match CellText(Property(item, headers[0].key))
      case None => None
      case Some(c) =>
        match Texts(item, headers[1..])
        case None => None
        case Some(cs) => Some([c] + cs)
  }

  /** The j-th text is the one of the j-th header's property; the item
      throws exactly when one of its values is `true`. */
  lemma {:induction false} TextsSpec(item: Object, headers: seq<Header>, j: nat)
    requires j < |headers|
    ensures Texts(item, headers).Some? ==> CellText(Property(item, headers[j].key)) == Some(Texts(item, headers).value[j])
    ensures CellText(Property(item, headers[j].key)).None? ==> Texts(item, headers).None?
  {
    if j > 0 {
      TextsSpec(item, headers[1..], j - 1);
    }
  }

  /** `values.join(',')` of one item's quoted values. */
  function Line(texts: seq<string>): string {
    Join(Map(texts, Quote), ",")
  }

  /** The value texts of every item, in order; None when an item throws. */
  function AllTexts(data: seq<Object>, headers: seq<Header>): (r: Option<seq<seq<string>>>)
    ensures r.Some? ==> |r.value| == |data|
  {
    if data == [] then Some([])
    else
      var n := |data| - 1;
      match AllTexts(data[..n], headers)
      case None => None
      case Some(recs) =>
        match Texts(data[n], headers)
        case None => None
        case Some(ts) => Some(recs + [ts])
  }

  /** The i-th record is the i-th item's texts. */
  lemma {:induction false} AllTextsAt(data: seq<Object>, headers: seq<Header>, i: nat)
    requires i < |data|
    ensures AllTexts(data, headers).Some? ==> Texts(data[i], headers) == Some(AllTexts(data, headers).value[i])
    ensures Texts(data[i], headers).None? ==> AllTexts(data, headers).None?
  {
    var n := |data| - 1;
    var pre, last := AllTexts(data[..n], headers), Texts(data[n], headers);
    AllTextsSnoc(data, headers);
    if i < n {
      AllTextsAt(data[..n], headers, i);
      assert data[..n][i] == data[i];
      if pre.Some? && last.Some? {
        assert (pre.value + [last.value])[i] == pre.value[i];
      }
    } else if pre.Some? && last.Some? {
      assert (pre.value + [last.value])[i] == last.value;
    }
  }

  lemma AllTextsSnoc(data: seq<Object>, headers: seq<Header>)
    requires data != []
    ensures var n := |data| - 1;
      var pre, last := AllTexts(data[..n], headers), Texts(data[n], headers);
      AllTexts(data, headers) == if pre.Some? && last.Some? then Some(pre.value + [last.value]) else None
  {
  }

  /** The CSV text; None when a value throws. */
  function Converted(data: seq<Object>, headers: seq<Header>): (r: Option<string>)
    ensures r.Some? <==> AllTexts(data, headers).Some?
  {
    match AllTexts(data, headers)
    case None => None
    case Some(recs) => Some(Join([HeaderLine(headers)] + Map(recs, Line), "\n"))
  }

  /** `convertToCSV(data, headers)`, with the header line naming the keys. */
  method ConvertToCsv(data: seq<Object>, headers: seq<Header>) returns (r: Option<string>)
    ensures r == Converted(data, headers)
  {
    var csvRows := [HeaderLine(headers)];
    ghost var recs: seq<seq<string>> := [];
    assert data[..0] == [];
    for i := 0 to |data|
      invariant AllTexts(data[..i], headers) == Some(recs)
      invariant csvRows == [HeaderLine(headers)] + Map(recs, Line)
    {
      var values := Texts(data[i], headers);
      assert data[..i + 1][..i] == data[..i];
      if values.None? {
        AllTextsAt(data, headers, i);
        return None;
      }
      csvRows := csvRows + [Line(values.value)];
      recs := recs + [values.value];
    }
    assert data[..|data|] == data;
    return Some(Join(csvRows, "\n"));
  }

  /** With no line break in any key or value, the text splits into exactly
      1 + |data| lines: the header line, then each item's line in order;
      no line break follows the last. */
  lemma ConvertedLines(data: seq<Object>, headers: seq<Header>, recs: seq<seq<string>>)
    requires AllTexts(data, headers) == Some(recs)
    requires forall j :: 0 <= j < |headers| ==> '\n' !in headers[j].key
    requires forall i, j :: 0 <= i < |recs| && 0 <= j < |recs[i]| ==> '\n' !in recs[i][j]
    ensures Split(Converted(data, headers).value, {'\n'}) == [HeaderLine(headers)] + Map(recs, Line)
    ensures |[HeaderLine(headers)] + Map(recs, Line)| == 1 + |data|
  {
    var rows := [HeaderLine(headers)] + Map(recs, Line);
    JoinKeeps(Keys(headers), ',', '\n');
    forall k | 0 <= k < |rows| ensures '\n' !in rows[k] {
      if k > 0 {
        LineKeeps(recs[k - 1]);
      }
    }
    SplitJoin(rows, '\n');
  }

  lemma LineKeeps(texts: seq<string>)
    requires forall j :: 0 <= j < |texts| ==> '\n' !in texts[j]
    ensures '\n' !in Line(texts)
  {
    JoinKeeps(Map(texts, Quote), ',', '\n');
  }

  /** Joining parts that lack a character with a different separator
      gives a text that lacks it too. */
  lemma {:induction false} JoinKeeps(parts: seq<string>, sep: char, c: char)
    requires sep != c
    requires forall j :: 0 <= j < |parts| ==> c !in parts[j]
    ensures c !in Join(parts, [sep])
  {
    if |parts| > 1 {
      JoinKeeps(parts[1..], sep, c);
    }
  }

  /** A value with no quote and no line break is quoted exactly as
      `escapeCSV` would quote it. */
  lemma QuoteIsEscape(s: string)
    requires '"' !in s && '\n' !in s
    ensures Quote(s) == CsvExport.EscapeText(s)
  {
    NoQuotesKept(s);
  }

  lemma {:induction false} NoQuotesKept(s: string)
    requires '"' !in s
    ensures CsvExport.DoubleQuotes(s) == s
  {
    if s != [] {
      assert s[0] != '"';
      NoQuotesKept(s[1..]);
      assert s == [s[0]] + s[1..];
    }
  }

  /** A value holding a quote and a comma is not read back: `a",b` is
      written `"a",b"`, which a CSV reader takes for the field `a`
      followed by more text. */
  lemma QuoteNotEscaped()
    ensures Quote("a\",b") == "\"a\",b\""
    ensures CsvExport.ReadField(Quote("a\",b")) == Some(CsvExport.Read("a", ",b\""))
  {
    var s := "\"a\",b\"";
    assert ',' in "a\",b";
    var t := "\",b\"";
    assert t[1] == ',' && t[1..] == ",b\"";
    assert CsvExport.ReadQuoted(t) == Some(CsvExport.Read("", ",b\""));
    var u := s[1..];
    assert u[0] == 'a' && u[0] != '"' && u[1..] == t && u != [];
    assert [u[0]] + "" == "a";
    assert CsvExport.ReadQuoted(u) == Some(CsvExport.Read("a", ",b\""));
  }

  /** A line of values free of quotes and line breaks is the line
      `escapeCSV` would write for them. */
  lemma LineIsRecordLine(texts: seq<string>)
    requires forall j :: 0 <= j < |texts| ==> '"' !in texts[j] && '\n' !in texts[j]
    ensures Line(texts) == CsvExport.RecordLine(texts)
  {
    forall j | 0 <= j < |texts| ensures Quote(texts[j]) == CsvExport.EscapeText(texts[j]) {
      QuoteIsEscape(texts[j]);
    }
    assert Map(texts, Quote) == Map(texts, CsvExport.EscapeText);
  }

  /** With keys free of commas, quotes and line breaks and values free of
      quotes and line breaks, a CSV reader gets back from the text (with a
      line break added at its end) the keys and then each item's values,
      in order: quoting a comma-holding value keeps it one field. */
  lemma ConvertedReadsBack(data: seq<Object>, headers: seq<Header>, recs: seq<seq<string>>)
    requires |headers| >= 1
    requires AllTexts(data, headers) == Some(recs)
    requires forall j :: 0 <= j < |headers| ==> !CsvExport.NeedsQuotes(headers[j].key)
    requires forall i, j :: 0 <= i < |recs| && 0 <= j < |recs[i]| ==> '"' !in recs[i][j] && '\n' !in recs[i][j]
    ensures CsvExport.ParseCsv(Converted(data, headers).value + "\n") == Some([Keys(headers)] + recs)
  {
    var records := [Keys(headers)] + recs;
    var rows := [HeaderLine(headers)] + Map(recs, Line);
    assert Map(Keys(headers), CsvExport.EscapeText) == Keys(headers);
    forall k | 0 <= k < |rows| ensures rows[k] == CsvExport.RecordLine(records[k]) && |records[k]| >= 1 {
      if k > 0 {
        LineIsRecordLine(recs[k - 1]);
        AllTextsAt(data, headers, k - 1);
      }
    }
    assert rows == Map(records, CsvExport.RecordLine);
    JoinTerminated(rows, "\n");
    CsvExport.ParseOfRecords(records);
  }

  // prepareExportData

  /** A matched pair: `source` and `matched` of a match result. */
  datatype Pair = Pair(source: Object, matched: Object)

  /** The match result `prepareExportData` reads. */
  datatype MatchResults = MatchResults(perfectMatches: seq<Pair>, mismatches: seq<Pair>,
                                       company1: seq<Object>, company2: seq<Object>)

  /** What `prepareExportData` returns. */
  datatype ExportData = ExportData(perfectMatchesData: seq<Object>, mismatchesData: seq<Object>,
                                   unmatchedReceivables: seq<Object>, unmatchedPayables: seq<Object>,
                                   allData: seq<Object>)

  /** `{ ...o, matchType: label }` */
  function Labelled(o: Object, kind: string): (r: Object)
    ensures Property(r, "matchType") == Str(kind)
    ensures forall k :: k != "matchType" ==> Property(r, k) == Property(o, k)
  {
    o["matchType" := Str(kind)]
  }

  /** A mismatch's row: the source's properties, the matched amount and
      the difference `source.amount - matched.amount` (both operands
      converted with `Number`). */
  function MismatchRow(m: Pair): (r: Object)
    ensures Property(r, "matchType") == Str("Mismatch")
    ensures Property(r, "matchedAmount") == Property(m.matched, "amount")
    ensures Property(r, "difference") ==
      Number(Sub(ToNumber(Property(m.source, "amount")), ToNumber(Property(m.matched, "amount"))))
    ensures forall k :: k !in {"matchType", "matchedAmount", "difference"} ==> Property(r, k) == Property(m.source, k)
  {
    var amount := Property(m.matched, "amount");
    var difference := Sub(ToNumber(Property(m.source, "amount")), ToNumber(amount));
    m.source["matchedAmount" := amount]["difference" := Number(difference)]["matchType" := Str("Mismatch")]
  }

  function LabelAll(items: seq<Object>, kind: string): (r: seq<Object>)
    ensures |r| == |items|
    ensures forall i :: 0 <= i < |items| ==> r[i] == Labelled(items[i], kind)
  {
    seq(|items|, i requires 0 <= i < |items| => Labelled(items[i], kind))
  }

  function Sources(pairs: seq<Pair>): (r: seq<Object>)
    ensures |r| == |pairs|
    ensures forall i :: 0 <= i < |pairs| ==> r[i] == pairs[i].source
  {
    seq(|pairs|, i requires 0 <= i < |pairs| => pairs[i].source)
  }

  /** `prepareExportData(matchResults)` */
  function PrepareExportData(m: MatchResults): ExportData {
    var perfect := LabelAll(Sources(m.perfectMatches), "Perfect Match");
    var mismatched := seq(|m.mismatches|, i requires 0 <= i < |m.mismatches| => MismatchRow(m.mismatches[i]));
    var receivables := LabelAll(m.company1, "Unmatched Receivable");
    var payables := LabelAll(m.company2, "Unmatched Payable");
    ExportData(perfect, mismatched, receivables, payables, perfect + mismatched + receivables + payables)
  }

  /** Every group keeps its length and its order, each row carries its
      group's label over its source's properties, and allData is the four
      groups one after the other. */
  lemma PrepareExportDataSpec(m: MatchResults)
    ensures var d := PrepareExportData(m);
      var p, q, u := |m.perfectMatches|, |m.mismatches|, |m.company1|;
      |d.perfectMatchesData| == p && |d.mismatchesData| == q &&
      |d.unmatchedReceivables| == u && |d.unmatchedPayables| == |m.company2| &&
      d.allData == d.perfectMatchesData + d.mismatchesData + d.unmatchedReceivables + d.unmatchedPayables &&
      |d.allData| == p + q + u + |m.company2| &&
      (forall i :: 0 <= i < p ==> d.allData[i] == Labelled(m.perfectMatches[i].source, "Perfect Match")) &&
      (forall i :: 0 <= i < q ==> d.allData[p + i] == MismatchRow(m.mismatches[i])) &&
      (forall i :: 0 <= i < u ==> d.allData[p + q + i] == Labelled(m.company1[i], "Unmatched Receivable")) &&
      (forall i :: 0 <= i < |m.company2| ==> d.allData[p + q + u + i] == Labelled(m.company2[i], "Unmatched Payable"))
  {
  }

  /** The label of every row of allData names its group. */
  lemma AllDataLabels(m: MatchResults, i: nat)
    requires i < |PrepareExportData(m).allData|
    ensures var p, q, u := |m.perfectMatches|, |m.mismatches|, |m.company1|;
      Property(PrepareExportData(m).allData[i], "matchType") ==
        Str(if i < p then "Perfect Match" else if i < p + q then "Mismatch"
            else if i < p + q + u then "Unmatched Receivable" else "Unmatched Payable")
  {
    PrepareExportDataSpec(m);
    var p, q, u := |m.perfectMatches|, |m.mismatches|, |m.company1|;
    if i >= p + q + u {
      assert PrepareExportData(m).allData[p + q + u + (i - p - q - u)] == PrepareExportData(m).allData[i];
    } else if i >= p + q {
      assert PrepareExportData(m).allData[p + q + (i - p - q)] == PrepareExportData(m).allData[i];
    } else if i >= p {
      assert PrepareExportData(m).allData[p + (i - p)] == PrepareExportData(m).allData[i];
    }
  }
}
