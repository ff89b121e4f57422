/** The CSV serialiser shared by frontend/src/utils/csvExport.js and
    frontend/src/components/MatchingResultsCSVExport.js (the two files hold
    the same `escapeCSV`, `formatCurrencyForCSV` and `generateCSV`), and
    the ISO branch of `formatDateForCSV` in csvExport.js. Quoting follows
    section 2, rules 6 and 7, of RFC 4180; records end in LF. A reader for
    that format is defined here as well, so that writing and reading back
    can be related. */
module CsvExport {
  import opened Results
  import opened Strings
  import opened Seqs
  import opened JsNumbers
  import opened JsValues

  /** The test of `escapeCSV`: a comma, a double quote or a line break. */
  predicate NeedsQuotes(s: string) {
    ',' in s || '"' in s || '\n' in s
  }

  /** `s.replace(/"/g, '""')` */
  function DoubleQuotes(s: string): (r: string)
    ensures ',' in r <==> ',' in s
  {
    if s == [] then []
    else (if s[0] == '"' then "\"\"" else [s[0]]) + DoubleQuotes(s[1..])
  }

  /** `escapeCSV` on the text of a value. */
  function EscapeText(s: string): (r: string)
    ensures StartsWith(r, "\"") <==> NeedsQuotes(s)
    ensures !NeedsQuotes(s) ==> r == s
  {
    if NeedsQuotes(s) then "\"" + DoubleQuotes(s) + "\""
    else
      assert s != [] ==> s[0] in s;
      s
  }

  /** `escapeCSV(text)`: null and undefined give the empty field, any other
      value is escaped as `String(text)`. */
  function EscapeCsv(v: Value): (r: string)
    ensures v.Null? || v.Undefined? ==> r == ""
  {
    EscapeText(JoinText(v))
  }

  /** `formatCurrencyForCSV(amount)` */
  function FormatCurrencyForCsv(amount: Value): (r: string)
    ensures amount.Null? || amount.Undefined? ==> r == ""
  {
    if amount.Null? || amount.Undefined? then ""
    else
      var n := ParseFloatValue(amount);
      if n.NaN? then "" else ToFixed2(n)
  }

  /** The amount text is empty exactly for null, undefined and what does
      not parse; otherwise it has two decimals and reads back as the parsed
      amount to the cent. */
  lemma FormatCurrencySpec(amount: Value)
    ensures var r := FormatCurrencyForCsv(amount);
      (r == "" <==> amount.Null? || amount.Undefined? || ParseFloatValue(amount).NaN?) &&
      (r != "" ==> r[|r| - 3] == '.' && ParseFloat(r) == Fin(Round2(ParseFloatValue(amount).val)))
  {
    var n := ParseFloatValue(amount);
    if !(amount.Null? || amount.Undefined?) && n.Fin? {
      ToFixed2Shape(n.val);
      ParseFloatOfToFixed2(n.val);
    }
  }

  /** `date.match(/^\d{4}-\d{2}-\d{2}/)`: the text starts with YYYY-MM-DD. */
  predicate IsoPrefix(s: string) {
    |s| >= 10 && IsoDateText(s[..10])
  }

  /** An element of a destructured array; a missing one is `undefined`,
      which a template literal prints as such. */
  function Element(parts: seq<string>, i: nat): string {
    if i < |parts| then parts[i] else "undefined"
  }

  /** `formatDateForCSV(date)` of csvExport.js. The `new Date(date)` branch
      is the parameter `viaDate`. */
  function FormatDateForCsv(date: Value, viaDate: Value -> string): (r: string)
    ensures !Truthy(date) ==> r == ""
    ensures Truthy(date) && !(date.Str? && IsoPrefix(date.s)) ==> r == viaDate(date)
  {
    if !Truthy(date) then ""
    else if date.Str? && IsoPrefix(date.s) then
      var parts := Split(Split(date.s, {'T'})[0], {'-'});
      Element(parts, 2) + "/" + Element(parts, 1) + "/" + Element(parts, 0)
    else viaDate(date)
  }

  /** An ISO date has no 'T', so the piece before the first 'T' is the
      date itself. */
  lemma IsoBeforeTime(iso: string, time: string)
    requires IsoDateText(iso)
    requires time == [] || time[0] == 'T'
    ensures Split(iso + time, {'T'})[0] == iso
  {
    forall i | 0 <= i < |iso| ensures iso[i] != 'T' {
      if i != 4 && i != 7 {
        assert IsDigit(iso[i]);
      }
    }
    if time == [] {
      SplitNone(iso, {'T'});
    } else {
      assert iso + time == iso + ['T'] + time[1..];
      SplitCons(iso, 'T', time[1..], {'T'});
    }
  }

  /** An ISO date splits on '-' into year, month and day. */
  lemma IsoPieces(iso: string)
    requires IsoDateText(iso)
    ensures Split(iso, {'-'}) == [iso[..4], iso[5..7], iso[8..]]
  {
    var y, m, d := iso[..4], iso[5..7], iso[8..];
    var md := m + ['-'] + d;
    assert iso == y + ['-'] + md;
    assert forall i :: 0 <= i < |y| ==> y[i] !in {'-'} by {
      assert forall i :: 0 <= i < |y| ==> y[i] == iso[i];
    }
    assert forall i :: 0 <= i < |m| ==> m[i] !in {'-'} by {
      assert forall i :: 0 <= i < |m| ==> m[i] == iso[5 + i];
    }
    assert forall i :: 0 <= i < |d| ==> d[i] !in {'-'} by {
      assert forall i :: 0 <= i < |d| ==> d[i] == iso[8 + i];
    }
    SplitCons(y, '-', md, {'-'});
    SplitCons(m, '-', d, {'-'});
    SplitNone(d, {'-'});
  }

  /** An ISO date, alone or followed by a time after 'T', is written
      DD/MM/YYYY from its own digits. */
  lemma FormatDateOfIso(iso: string, time: string, viaDate: Value -> string)
    requires IsoDateText(iso)
    requires time == [] || time[0] == 'T'
    ensures FormatDateForCsv(Str(iso + time), viaDate) == iso[8..] + "/" + iso[5..7] + "/" + iso[..4]
  {
    assert (iso + time)[..10] == iso;
    IsoBeforeTime(iso, time);
    IsoPieces(iso);
  }

  /** A CSV line: the escaped values joined by commas. */
  function Line(values: seq<Value>): string {
    Join(Map(values, EscapeCsv), ",")
  }

  /** The text `generateCSV(data, filename, headers)` builds: the header
      line, then one line per row, each ending in '\n'. */
  function CsvText(headers: seq<Value>, data: seq<seq<Value>>): string {
    Terminated([Line(headers)] + Map(data, Line), "\n")
  }

  /** The `csvContent` loop of `generateCSV`; the download itself is not
      modelled. */
  method GenerateCsv(data: seq<seq<Value>>, headers: seq<Value>) returns (csv: string)
    ensures csv == CsvText(headers, data)
  {
    csv := Line(headers) + "\n";
    assert [Line(headers)][1..] == [];
    assert data[..0] == [];
    for i := 0 to |data|
      invariant csv == Terminated([Line(headers)] + Map(data[..i], Line), "\n")
    {
      var rowValues := Line(data[i]);
      TerminatedSnoc([Line(headers)] + Map(data[..i], Line), rowValues, "\n");
      assert [Line(headers)] + Map(data[..i + 1], Line) == [Line(headers)] + Map(data[..i], Line) + [rowValues];
      csv := csv + rowValues + "\n";
    }
    assert data[..|data|] == data;
  }

  // Reading CSV back.

  /** A field read from the front of a text, and the text after it. */
  datatype Read = Read(field: string, rest: string)

  /** A record read from the front of a text, and the text after it. */
  datatype Parsed = Parsed(fields: seq<string>, rest: string)

  /** The inside of a quoted field, after its opening quote: two quotes
      stand for one, a single quote closes the field. None when the text
      ends first. */
  function ReadQuoted(s: string): (r: Option<Read>)
    ensures r.Some? ==> |r.value.rest| < |s|
    decreases |s|
  {
    if s == [] then None
    else if s[0] == '"' then
      if |s| >= 2 && s[1] == '"' then
        match ReadQuoted(s[2..])
        case None => None
        case Some(rd) => Some(Read("\"" + rd.field, rd.rest))
      else Some(Read("", s[1..]))
    else
      match ReadQuoted(s[1..])
      case None => None
      case Some(rd) => Some(Read([s[0]] + rd.field, rd.rest))
  }

  /** An unquoted field: everything up to the first comma or line break. */
  function ReadPlain(s: string): (r: Read)
    ensures r.field + r.rest == s
    ensures ',' !in r.field && '\n' !in r.field
    ensures r.rest == [] || r.rest[0] == ',' || r.rest[0] == '\n'
  {
    if exists i :: 0 <= i < |s| && s[i] in {',', '\n'} then
      var i := FirstIn(s, {',', '\n'});
      assert s[..i] + s[i..] == s;
      Read(s[..i], s[i..])
    else
      Read(s, [])
  }

  function ReadField(s: string): (r: Option<Read>)
    ensures r.Some? ==> |r.value.rest| <= |s|
  {
    if s != [] && s[0] == '"' then ReadQuoted(s[1..]) else Some(ReadPlain(s))
  }

  /** One record: fields separated by commas, up to a line break or the end
      of the text. None when a closing quote is followed by anything
      else. */
  function ReadRecord(s: string): (r: Option<Parsed>)
    ensures r.Some? ==> |r.value.fields| >= 1 && |r.value.rest| <= |s| && (s != [] ==> |r.value.rest| < |s|)
    decreases |s|
  {
    match ReadField(s)
    case None => None
    case Some(rd) =>
      if rd.rest == [] then Some(Parsed([rd.field], []))
      else if rd.rest[0] == '\n' then Some(Parsed([rd.field], rd.rest[1..]))
      else if rd.rest[0] == ',' then
        match ReadRecord(rd.rest[1..])
        case None => None
        case Some(p) => Some(Parsed([rd.field] + p.fields, p.rest))
      else None
  }

  /** A whole CSV text: records until the text is used up. */
  function ParseCsv(s: string): (r: Option<seq<seq<string>>>)
    ensures r.Some? ==> forall i :: 0 <= i < |r.value| ==> |r.value[i]| >= 1
    decreases |s|
  {
    if s == [] then Some([])
    else
      match ReadRecord(s)
      case None => None
      case Some(p) =>
        match ParseCsv(p.rest)
        case None => None
        case Some(rs) => Some([p.fields] + rs)
  }

  /** A quoted field's content is read back up to its closing quote. */
  lemma {:induction false} ReadQuotedOfDoubled(f: string, rest: string)
    requires rest == [] || rest[0] != '"'
    ensures ReadQuoted(DoubleQuotes(f) + "\"" + rest) == Some(Read(f, rest))
  {
    if f == [] {
      assert DoubleQuotes(f) + "\"" + rest == "\"" + rest;
      ReadQuotedClose(rest);
    } else {
      var h := if f[0] == '"' then "\"\"" else [f[0]];
      var d := DoubleQuotes(f[1..]);
      var t := d + "\"" + rest;
      assert DoubleQuotes(f) == h + d;
      ConcatAssoc(h, d, "\"");
      ConcatAssoc(h, d + "\"", rest);
      ReadQuotedOfDoubled(f[1..], rest);
      if f[0] == '"' {
        ReadQuotedPair(t);
      } else {
        ReadQuotedOther(f[0], t);
      }
      ConsTail(f);
    }
  }

  /** A closing quote ends the field when no second quote follows it. */
  lemma ReadQuotedClose(rest: string)
    requires rest == [] || rest[0] != '"'
    ensures ReadQuoted("\"" + rest) == Some(Read("", rest))
  {
    assert ("\"" + rest)[1..] == rest;
  }

  /** A doubled quote reads as one quote of the field. */
  lemma ReadQuotedPair(t: string)
    ensures ReadQuoted("\"\"" + t) ==
      match ReadQuoted(t)
      case None => None
      case Some(rd) => Some(Read("\"" + rd.field, rd.rest))
  {
    assert ("\"\"" + t)[2..] == t;
  }

  /** Any other character is taken into the field. */
  lemma ReadQuotedOther(c: char, t: string)
    requires c != '"'
    ensures ReadQuoted([c] + t) ==
      match ReadQuoted(t)
      case None => None
      case Some(rd) => Some(Read([c] + rd.field, rd.rest))
  {
    assert ([c] + t)[1..] == t;
  }

  /** An unquoted field is read up to the comma or line break after it. */
  lemma ReadPlainOf(f: string, rest: string)
    requires ',' !in f && '\n' !in f
    requires rest == [] || rest[0] == ',' || rest[0] == '\n'
    ensures ReadPlain(f + rest) == Read(f, rest)
  {
    var s := f + rest;
    assert forall j :: 0 <= j < |f| ==> s[j] == f[j];
    if rest != [] {
      assert s[|f|] == rest[0];
      assert s[..|f|] == f && s[|f|..] == rest;
    }
  }

  /** An escaped field is read back as its text, whatever follows it on
      the line. */
  lemma ReadFieldOfEscape(f: string, rest: string)
    requires rest == [] || rest[0] == ',' || rest[0] == '\n'
    ensures ReadField(EscapeText(f) + rest) == Some(Read(f, rest))
  {
    var s := EscapeText(f) + rest;
    if NeedsQuotes(f) {
      assert s[1..] == DoubleQuotes(f) + "\"" + rest;
      ReadQuotedOfDoubled(f, rest);
    } else {
      ReadPlainOf(f, rest);
      if f != [] {
        assert s[0] == f[0];
      }
    }
  }

  /** The line of a record of texts. */
  function RecordLine(fields: seq<string>): string {
    Join(Map(fields, EscapeText), ",")
  }

  /** A field followed by a line break ends the record. */
  lemma ReadRecordEnd(s: string, f: string, rest: string)
    requires ReadField(s) == Some(Read(f, "\n" + rest))
    ensures ReadRecord(s) == Some(Parsed([f], rest))
  {
    assert ("\n" + rest)[1..] == rest;
  }

  /** A field followed by a comma is the first of a record whose other
      fields are read from after the comma. */
  lemma ReadRecordComma(s: string, f: string, more: string)
    requires ReadField(s) == Some(Read(f, "," + more))
    ensures ReadRecord(more).Some? ==>
      ReadRecord(s) == Some(Parsed([f] + ReadRecord(more).value.fields, ReadRecord(more).value.rest))
  {
    assert ("," + more)[1..] == more;
  }

  /** A record's line, ended by a line break, is read back as the record. */
  lemma {:induction false} ReadRecordOfLine(fields: seq<string>, rest: string)
    requires |fields| >= 1
    ensures ReadRecord(RecordLine(fields) + "\n" + rest) == Some(Parsed(fields, rest))
    decreases |fields|
  {
    var es := Map(fields, EscapeText);
    var s := RecordLine(fields) + "\n" + rest;
    if |fields| == 1 {
      assert RecordLine(fields) == es[0] == EscapeText(fields[0]);
      assert s == EscapeText(fields[0]) + ("\n" + rest);
      assert fields == [fields[0]];
      ReadFieldOfEscape(fields[0], "\n" + rest);
      ReadRecordEnd(s, fields[0], rest);
    } else {
      var tail := RecordLine(fields[1..]);
      var more := tail + "\n" + rest;
      assert es[1..] == Map(fields[1..], EscapeText);
      assert RecordLine(fields) == es[0] + "," + tail;
      assert s == EscapeText(fields[0]) + ("," + more);
      ReadFieldOfEscape(fields[0], "," + more);
      ReadRecordOfLine(fields[1..], rest);
      ReadRecordComma(s, fields[0], more);
      assert [fields[0]] + fields[1..] == fields;
    }
  }

  /** Records written one per line are read back as the same records. */
  lemma {:induction false} ParseOfRecords(records: seq<seq<string>>)
    requires forall i :: 0 <= i < |records| ==> |records[i]| >= 1
    ensures ParseCsv(Terminated(Map(records, RecordLine), "\n")) == Some(records)
  {
    if records != [] {
      var lines := Map(records, RecordLine);
      var after := Terminated(lines[1..], "\n");
      assert lines[1..] == Map(records[1..], RecordLine);
      ReadRecordOfLine(records[0], after);
      ParseOfRecords(records[1..]);
      assert [records[0]] + records[1..] == records;
    }
  }

  /** The texts of a row's values, as the reader gives them back. */
  function Texts(values: seq<Value>): seq<string> {
    Map(values, JoinText)
  }

  lemma LineOfTexts(values: seq<Value>)
    ensures Line(values) == RecordLine(Texts(values))
  {
    assert Map(values, EscapeCsv) == Map(Texts(values), EscapeText);
  }

  /** Reading the generated text back gives the header texts and then each
      row's value texts, in order: one record per row after the header.
      A row needs a value, since an empty line reads as one empty field. */
  lemma CsvTextRoundTrip(headers: seq<Value>, data: seq<seq<Value>>)
    requires |headers| >= 1
    requires forall i :: 0 <= i < |data| ==> |data[i]| >= 1
    ensures ParseCsv(CsvText(headers, data)) == Some([Texts(headers)] + Map(data, Texts))
    ensures |ParseCsv(CsvText(headers, data)).value| == 1 + |data|
  {
    var records := [Texts(headers)] + Map(data, Texts);
    LineOfTexts(headers);
    forall i | 0 <= i < |data| ensures Line(data[i]) == RecordLine(Texts(data[i])) {
      LineOfTexts(data[i]);
    }
    assert [Line(headers)] + Map(data, Line) == Map(records, RecordLine);
    ParseOfRecords(records);
  }
}
