/** The upload route of backend/src/routes/processRoutes.js: the file text
    is cut into trimmed lines, the first line names the columns, and every
    other line becomes one record through the throwing `cleanAmount` and
    `parseDateString` helpers. The first row that throws ends the upload
    with a 400 reply naming that row. */
module CsvIngest {
  import opened Results
  import opened Strings
  import opened Seqs
  import opened JsNumbers
  import opened JsValues
  import LedgerAnalysis

  /** Why an upload was refused; the route answers either with status 400. */
  datatype Failure = NoDataRow | RowFailed(index: nat, fault: Fault)

  const FailureStatus := 400
  const DefaultFormat := "YYYY-MM-DD"
  
  predicate Unpadded(s: string) {
    s == [] || (!IsSpace(s[0]) && !IsSpace(s[|s| - 1]))
  }

  /** `map(x => x.trim())` */
  function TrimAll(s: seq<string>): (r: seq<string>)
    ensures |r| == |s|
    ensures forall i :: 0 <= i < |s| ==> r[i] == Trim(s[i]) && Unpadded(r[i])
  {
    if s == [] then [] else [Trim(s[0])] + TrimAll(s[1..])
  }

  lemma {:induction false} TrimAllKeeps(s: seq<string>, c: char)
    requires forall i :: 0 <= i < |s| ==> c !in s[i]
    ensures forall i :: 0 <= i < |s| ==> c !in TrimAll(s)[i]
  {
    forall i | 0 <= i < |s| {
      TrimKeeps(s[i], c);
    }
  }

  lemma {:induction false} TrimAllOfUnpadded(s: seq<string>)
    requires forall i :: 0 <= i < |s| ==> Unpadded(s[i])
    ensures TrimAll(s) == s
  {
    forall i | 0 <= i < |s| {
      TrimOfUnpadded(s[i]);
    }
  }

  /** `s.split(c).map(x => x.trim())`: at least one piece, each trimmed and
      free of the separator. */
  function Pieces(s: string, c: char): (r: seq<string>)
    ensures |r| >= 1
    ensures forall i :: 0 <= i < |r| ==> Unpadded(r[i]) && c !in r[i]
  {
    var parts := Split(s, {c});
    TrimAllKeeps(parts, c);
    TrimAll(parts)
  }

  /** Trimmed pieces without the separator, joined with it, split back into
      themselves. */
  lemma PiecesOfJoin(ps: seq<string>, c: char)
    requires |ps| >= 1
    requires forall i :: 0 <= i < |ps| ==> Unpadded(ps[i]) && c !in ps[i]
    ensures Pieces(Join(ps, [c]), c) == ps
  {
    SplitJoin(ps, c);
    TrimAllOfUnpadded(ps);
  }

  /** `fileContent.trim().split('\n').map(line => line.trim())` */
  function Lines(content: string): (r: seq<string>)
    ensures |r| >= 1
    ensures forall i :: 0 <= i < |r| ==> Unpadded(r[i]) && '\n' !in r[i]
  {
    Pieces(Trim(content), '\n')
  }

  lemma {:induction false} JoinEnds(ps: seq<string>, sep: string)
    requires |ps| >= 1
    ensures |Join(ps, sep)| >= |ps[0]| && Join(ps, sep)[..|ps[0]|] == ps[0]
    ensures |Join(ps, sep)| >= |ps[|ps| - 1]| && Join(ps, sep)[|Join(ps, sep)| - |ps[|ps| - 1]|..] == ps[|ps| - 1]
  {
    if |ps| > 1 {
      JoinEnds(ps[1..], sep);
      var t := Join(ps[1..], sep);
      assert Join(ps, sep) == ps[0] + sep + t;
      assert ps[1..][|ps[1..]| - 1] == ps[|ps| - 1];
    }
  }

  /** Trimmed lines, the first and last not blank, joined with newlines, are
      read back as those lines. */
  lemma LinesOfJoin(ls: seq<string>)
    requires |ls| >= 1 && ls[0] != "" && ls[|ls| - 1] != ""
    requires forall i :: 0 <= i < |ls| ==> Unpadded(ls[i]) && '\n' !in ls[i]
    ensures Lines(Join(ls, "\n")) == ls
  {
    JoinUnpadded(ls, "\n");
    TrimOfUnpadded(Join(ls, "\n"));
    PiecesOfJoin(ls, '\n');
  }

  lemma JoinUnpadded(ls: seq<string>, sep: string)
    requires |ls| >= 1 && ls[0] != "" && ls[|ls| - 1] != ""
    requires Unpadded(ls[0]) && Unpadded(ls[|ls| - 1])
    ensures Unpadded(Join(ls, sep))
  {
    var s := Join(ls, sep);
    JoinEnds(ls, sep);
    var first, last := ls[0], ls[|ls| - 1];
    assert s[0] == s[..|first|][0] == first[0];
    assert s[|s| - 1] == s[|s| - |last|..][|last| - 1] == last[|last| - 1];
  }

  /** Text with no line break after trimming is a single line. */
  lemma OneLine(content: string)
    requires '\n' !in Trim(content)
    ensures Lines(content) == [Trim(content)]
  {
    var t := Trim(content);
    TrimOfUnpadded(t);
    assert forall i :: 0 <= i < |t| ==> t[i] !in {'\n'};
    SplitNone(t, {'\n'});
    assert TrimAll([t]) == [t];
  }

  /** `values[index] || ''` */
  function CellAt(values: seq<string>, i: nat): string {
    if i < |values| then values[i] else ""
  }

  /** `headers.forEach((header, index) => rowData[header] = values[index] || '')`:
      a later column of the same name overwrites an earlier one. */
  function RowData(headers: seq<string>, values: seq<string>): map<string, string> {
    if headers == [] then map[]
    else
      var n := |headers| - 1;
      RowData(headers[..n], values)[headers[n] := CellAt(values, n)]
  }

  /** The row has exactly the header names as keys. */
  lemma {:induction false} RowDataKeys(headers: seq<string>, values: seq<string>)
    ensures RowData(headers, values).Keys == set h | h in headers
  {
    if headers != [] {
      var n := |headers| - 1;
      RowDataKeys(headers[..n], values);
      assert headers == headers[..n] + [headers[n]];
    }
  }

  /** A column whose name no later column repeats holds the value in the
      same position of the line, or '' when the line is shorter. */
  lemma {:induction false} RowDataAt(headers: seq<string>, values: seq<string>, i: nat)
    requires i < |headers|
    requires forall j :: i < j < |headers| ==> headers[j] != headers[i]
    ensures headers[i] in RowData(headers, values)
    ensures RowData(headers, values)[headers[i]] == CellAt(values, i)
  {
    var n := |headers| - 1;
    if i < n {
      assert headers[..n][i] == headers[i];
      RowDataAt(headers[..n], values, i);
    }
  }

  /** `rowData[name]`, None when no column has that name. */
  function Field(row: map<string, string>, name: string): Option<string> {
    if name in row then Some(row[name]) else None
  }

  /** The value a field is in JavaScript. */
  function AsValue(f: Option<string>): Value {
    match f
    case None => Undefined
    case Some(s) => Str(s)
  }

  /** `String(field || '').trim()` */
  function TextOf(f: Option<string>): (r: string)
    ensures Unpadded(r)
    ensures f.None? ==> r == ""
  {
    Trim(ToStr(Or(AsValue(f), Str(""))))
  }

  /** `field ? String(field).trim() : ''` */
  function ReferenceOf(f: Option<string>): (r: string)
    ensures Unpadded(r)
    ensures f.None? ==> r == ""
  {
    if Truthy(AsValue(f)) then Trim(f.value) else ""
  }

  /** Both ways of writing a text field agree on text from a row. */
  lemma ReferenceIsText(f: Option<string>)
    ensures ReferenceOf(f) == TextOf(f)
  {
  }

  /** Why a row was refused: the error each throwing helper raises. */
  datatype Fault =
    | AmountInvalid(text: string)
    | DateMissing
    | ComponentsInvalid(text: string)
    | DateInvalid(text: string)

  /** The message of each error: `cleanAmount`'s catch, and
      `parseDateString`'s own error and its catch around the other two. */
  function FaultMessage(f: Fault): string {
    match f
    case AmountInvalid(t) => "Error processing amount value: " + t
    case DateMissing => "Date value is required"
    case ComponentsInvalid(t) => "Error parsing date " + t + ": Invalid date components: " + t
    case DateInvalid(t) => "Error parsing date " + t + ": Invalid date: " + t
  }

  /** This route's `cleanAmount`: 0 for a missing or empty amount, otherwise
      the amount text read as `cleanAmount` in backend/index.js reads it,
      except that text which does not parse throws. */
  function CleanAmountStrict(f: Option<string>): (r: Result<real, Fault>)
    ensures (f.None? || f == Some("")) ==> r == Ok(0.0)
    ensures r.Err? <==> f.Some? && f.value != "" && AmountNumber(f.value).NaN?
    ensures r.Err? ==> r.error == AmountInvalid(f.value)
    ensures r.Ok? && f.Some? && f.value != "" ==> r.value == AmountNumber(f.value).val
  {
    match f
    case None => Ok(0.0)
    case Some(s) => AmountOfText(s)
  }

  function AmountOfText(s: string): Result<real, Fault> {
    if s == "" then Ok(0.0)
    else if AmountNumber(s).NaN? then Err(AmountInvalid(s))
    else Ok(AmountNumber(s).val)
  }

  /** `parseFloat` of the amount text without its decoration. */
  function AmountNumber(s: string): Num {
    ParseFloat(LedgerAnalysis.CleanedText(s))
  }

  /** Where this route's `cleanAmount` returns a number it is the one
      backend/index.js computes; where it throws, that one returns 0. */
  lemma CleanAmountAgrees(f: Option<string>)
    ensures CleanAmountStrict(f).Ok? ==> CleanAmountStrict(f).value == LedgerAnalysis.CleanAmount(AsValue(f))
    ensures CleanAmountStrict(f).Err? ==> LedgerAnalysis.CleanAmount(AsValue(f)) == 0.0
  {
    if f.Some? {
      TextAmountAgrees(f.value);
    }
  }

  lemma TextAmountAgrees(s: string)
    ensures AmountOfText(s).Ok? ==> AmountOfText(s).value == LedgerAnalysis.CleanAmount(Str(s))
    ensures AmountOfText(s).Err? ==> LedgerAnalysis.CleanAmount(Str(s)) == 0.0
  {
    if s != "" {
      LedgerAnalysis.CleanAmountOfString(s);
    }
  }

  /** Text without currency signs, commas or whitespace that parses is
      read as that number. */
  lemma CleanAmountOfClean(s: string, n: real)
    requires s != "" && forall i :: 0 <= i < |s| ==> !LedgerAnalysis.Decoration(s[i])
    requires ParseFloat(s) == Fin(n)
    ensures CleanAmountStrict(Some(s)) == Ok(n)
  {
    CleanedOfClean(s);
    assert AmountNumber(s) == Fin(n);
    assert AmountOfText(s) == Ok(n);
  }

  lemma CleanedOfClean(s: string)
    requires s != "" && forall i :: 0 <= i < |s| ==> !LedgerAnalysis.Decoration(s[i])
    ensures LedgerAnalysis.CleanedText(s) == s
  {
    TrimOfUnpadded(s);
  }

  /** `parseInt(parts[i], 10)`; a missing part is NaN (None). */
  function Component(parts: seq<string>, i: nat): Option<real> {
    if i < |parts| then AsNumber(ParseInt10(parts[i])) else None
  }

  /** An integer `parseInt` read, as the JavaScript number it is. */
  function AsNumber(n: Option<int>): Option<real> {
    match n
    case None => None
    case Some(k) => Some(k as real)
  }

  /** The outcome of `new Date(..)` and `toISOString` for the trimmed text
      `t`: the ISO day, or the invalid-date error. */
  function Dated(iso: Option<string>, t: string): Result<string, Fault> {
    match iso
    case Some(d) => Ok(d)
    case None => Err(DateInvalid(t))
  }

  /** Whether the format is the one with the day first. */
  predicate DayFirst(format: Value) {
    StrictEquals(format, Str("DD/MM/YYYY"))
  }

  /** This route's `parseDateString`: a missing or empty value throws; the
      trimmed text is split at every '/' and '-', the parts are read day,
      month, year for 'DD/MM/YYYY' and year, month, day for any other
      format, each with `parseInt`; a part that is not a number, or a date
      `new Date` rejects, throws. */
  function ParseDateStrict(f: Option<string>, format: Value, makeDate: (real, real, real) -> Option<string>):
    (r: Result<string, Fault>)
    ensures (f.None? || f == Some("")) ==> r == Err(DateMissing)
  {
    match f
    case None => Err(DateMissing)
    case Some(s) =>
      if s == "" then Err(DateMissing)
      else ReadDate(DatePieces(Trim(s)), format, Trim(s), makeDate)
  }

  /** Every outcome of this route's `parseDateString` for a non-empty value:
      with t the trimmed text, 'Invalid date components' exactly when a
      part at the format's positions is missing or not a number, 'Invalid
      date' exactly when the parts are numbers and `new Date` rejects them,
      and otherwise the ISO day of that date. */
  lemma ParseDateStrictCases(s: string, format: Value, makeDate: (real, real, real) -> Option<string>)
    requires s != ""
    ensures var t := Trim(s); var parts := DatePieces(t);
      var day := Component(parts, if DayFirst(format) then 0 else 2);
      var month := Component(parts, 1);
      var year := Component(parts, if DayFirst(format) then 2 else 0);
      var r := ParseDateStrict(Some(s), format, makeDate);
      (r == Err(ComponentsInvalid(t)) <==> day.None? || month.None? || year.None?) &&
      (r == Err(DateInvalid(t)) <==>
        (day.Some? && month.Some? && year.Some? &&
         makeDate(year.value, LedgerAnalysis.MonthIndex(month.value), day.value).None?)) &&
      (r.Ok? <==>
        (day.Some? && month.Some? && year.Some? &&
         makeDate(year.value, LedgerAnalysis.MonthIndex(month.value), day.value).Some?)) &&
      (r.Ok? ==> r.value == makeDate(year.value, LedgerAnalysis.MonthIndex(month.value), day.value).value) &&
      r != Err(DateMissing)
  {
  }

  /** `dateStr.split(/[\/\-]/).map(part => part.trim())` */
  function DatePieces(t: string): seq<string> {
    TrimAll(Split(t, {'/', '-'}))
  }

  /** The components of the trimmed text `t` taken from its parts in the
      format's order, and the date they name. */
  function ReadDate(parts: seq<string>, format: Value, t: string, makeDate: (real, real, real) -> Option<string>):
    (r: Result<string, Fault>)
  {
    var dayFirst := DayFirst(format);
    var day := Component(parts, if dayFirst then 0 else 2);
    var month := Component(parts, 1);
    var year := Component(parts, if dayFirst then 2 else 0);
    if day.None? || month.None? || year.None? then Err(ComponentsInvalid(t))
    else Dated(makeDate(year.value, LedgerAnalysis.MonthIndex(month.value), day.value), t)
  }

  lemma {:induction false} ParseIntOfDigits(s: string)
    requires s != "" && AllDigits(s)
    ensures ParseInt10(s) == Some(DigitsValue(s) as int)
  {
    assert IsDigit(s[0]) && !IsSpace(s[0]);
    assert TrimStart(s) == s;
    DigitRunAll(s);
    assert s[0..] == s && s[0..][..|s|] == s;
  }

  lemma DigitsUnpadded(ps: seq<string>)
    requires forall i :: 0 <= i < |ps| ==> AllDigits(ps[i])
    ensures forall i :: 0 <= i < |ps| ==> Unpadded(ps[i])
  {
    forall i | 0 <= i < |ps| ensures Unpadded(ps[i]) {
      var p := ps[i];
      assert p != [] ==> IsDigit(p[0]) && IsDigit(p[|p| - 1]);
    }
  }

  /** Three digit runs joined by '/' or '-', in any mix, split into those
      runs. */
  lemma DateParts(x: string, y: string, z: string, s1: char, s2: char)
    requires AllDigits(x) && AllDigits(y) && AllDigits(z)
    requires s1 in {'/', '-'} && s2 in {'/', '-'}
    ensures DatePieces(x + [s1] + y + [s2] + z) == [x, y, z]
  {
    var seps := {'/', '-'};
    assert forall i :: 0 <= i < |z| ==> z[i] !in seps;
    SplitNone(z, seps);
    assert forall i :: 0 <= i < |y| ==> y[i] !in seps;
    SplitCons(y, s2, z, seps);
    assert forall i :: 0 <= i < |x| ==> x[i] !in seps;
    assert x + [s1] + y + [s2] + z == x + [s1] + (y + [s2] + z);
    SplitCons(x, s1, y + [s2] + z, seps);
    DigitsUnpadded([x, y, z]);
    TrimAllOfUnpadded([x, y, z]);
  }

  /** A date written as three digit runs is read year, month, day (or day,
      month, year for 'DD/MM/YYYY') with the month passed on zero-based;
      '/' and '-' may be mixed. */
  lemma ParseDatePositions(x: string, y: string, z: string, s1: char, s2: char, format: Value,
    makeDate: (real, real, real) -> Option<string>)
    requires x != "" && y != "" && z != "" && AllDigits(x) && AllDigits(y) && AllDigits(z)
    requires s1 in {'/', '-'} && s2 in {'/', '-'}
    ensures var t := x + [s1] + y + [s2] + z;
      var v := LedgerAnalysis.RunValues(x, y, z);
      ParseDateStrict(Some(t), format, makeDate) ==
        Dated(if DayFirst(format) then makeDate(v[2], LedgerAnalysis.MonthIndex(v[1]), v[0])
              else makeDate(v[0], LedgerAnalysis.MonthIndex(v[1]), v[2]), t)
  {
    var t := x + [s1] + y + [s2] + z;
    assert t[0] == x[0] && t[|t| - 1] == z[|z| - 1];
    ParseDateOfUnpadded(t, format, makeDate);
    DateParts(x, y, z, s1, s2);
    ReadDateOfDigits(x, y, z, format, t, makeDate);
  }

  lemma ParseDateOfUnpadded(t: string, format: Value, makeDate: (real, real, real) -> Option<string>)
    requires t != "" && Unpadded(t)
    ensures ParseDateStrict(Some(t), format, makeDate) == ReadDate(DatePieces(t), format, t, makeDate)
  {
    TrimOfUnpadded(t);
  }

  lemma ReadDateOfDigits(x: string, y: string, z: string, format: Value, t: string,
    makeDate: (real, real, real) -> Option<string>)
    requires x != "" && y != "" && z != "" && AllDigits(x) && AllDigits(y) && AllDigits(z)
    ensures var v := LedgerAnalysis.RunValues(x, y, z);
      ReadDate([x, y, z], format, t, makeDate) ==
        Dated(if DayFirst(format) then makeDate(v[2], LedgerAnalysis.MonthIndex(v[1]), v[0])
              else makeDate(v[0], LedgerAnalysis.MonthIndex(v[1]), v[2]), t)
  {
    var parts := [x, y, z];
    var v := LedgerAnalysis.RunValues(x, y, z);
    ComponentOfDigits(parts, 0);
    ComponentOfDigits(parts, 1);
    ComponentOfDigits(parts, 2);
    assert Component(parts, 0) == Some(v[0]);
    assert Component(parts, 1) == Some(v[1]);
    assert Component(parts, 2) == Some(v[2]);
  }

  lemma ComponentOfDigits(parts: seq<string>, i: nat)
    requires i < |parts| && parts[i] != "" && AllDigits(parts[i])
    ensures Component(parts, i) == Some(DigitsValue(parts[i]) as real)
  {
    ParseIntOfDigits(parts[i]);
  }

  /** Text with fewer than three parts is rejected before any date is
      built. */
  lemma ParseDateTwoParts(x: string, y: string, format: Value, makeDate: (real, real, real) -> Option<string>)
    requires x != "" && AllDigits(x) && AllDigits(y)
    ensures var t := x + "/" + y;
      ParseDateStrict(Some(t), format, makeDate) == Err(ComponentsInvalid(t))
  {
    var t := x + "/" + y;
    assert t[0] == x[0];
    assert t[|t| - 1] == if y == [] then '/' else y[|y| - 1];
    ParseDateOfUnpadded(t, format, makeDate);
    TwoPieces(x, y);
  }

  lemma TwoPieces(x: string, y: string)
    requires AllDigits(x) && AllDigits(y)
    ensures |DatePieces(x + "/" + y)| == 2
  {
    var seps := {'/', '-'};
    assert forall i :: 0 <= i < |y| ==> y[i] !in seps;
    SplitNone(y, seps);
    assert forall i :: 0 <= i < |x| ==> x[i] !in seps;
    SplitCons(x, '/', y, seps);
  }

  /** One uploaded transaction. */
  datatype Record = Record(transactionNumber: string, kind: string, amount: real, date: string,
                           dueDate: string, status: string, reference: string)

  /** The object pushed for one row, or the message of the first helper
      that throws: amount, then issue date, then due date. */
  function RecordOf(row: map<string, string>, format: Value, makeDate: (real, real, real) -> Option<string>):
    (r: Result<Record, Fault>)
  {
    var amount :- CleanAmountStrict(Field(row, "amount"));
    var date :- ParseDateStrict(Field(row, "issue_date"), format, makeDate);
    var dueDate :- ParseDateStrict(Field(row, "due_date"), format, makeDate);
    Ok(Record(TextOf(Field(row, "transaction_number")), TextOf(Field(row, "transaction_type")), amount,
              date, dueDate, TextOf(Field(row, "status")), ReferenceOf(Field(row, "reference"))))
  }

  /** A row is accepted exactly when its amount and both dates are; its
      text fields are trimmed, and its amount is the one backend/index.js
      reads from the same text. The amount is checked first. */
  lemma RecordOfSpec(row: map<string, string>, format: Value, makeDate: (real, real, real) -> Option<string>)
    ensures var r := RecordOf(row, format, makeDate);
      r.Ok? <==> (CleanAmountStrict(Field(row, "amount")).Ok? &&
                  ParseDateStrict(Field(row, "issue_date"), format, makeDate).Ok? &&
                  ParseDateStrict(Field(row, "due_date"), format, makeDate).Ok?)
    ensures var r := RecordOf(row, format, makeDate);
      r.Ok? ==> (Unpadded(r.value.transactionNumber) && Unpadded(r.value.kind) &&
                 Unpadded(r.value.status) && Unpadded(r.value.reference))
    ensures var r := RecordOf(row, format, makeDate);
      r.Ok? ==> r.value.amount == LedgerAnalysis.CleanAmount(AsValue(Field(row, "amount")))
    ensures var r := RecordOf(row, format, makeDate);
      CleanAmountStrict(Field(row, "amount")).Err? ==> r == Err(CleanAmountStrict(Field(row, "amount")).error)
  {
    CleanAmountAgrees(Field(row, "amount"));
  }

  /** A row without an issue date column, or with an empty one, is rejected
      whatever its amount. */
  lemma MissingIssueDate(row: map<string, string>, format: Value, makeDate: (real, real, real) -> Option<string>)
    requires Field(row, "issue_date").None? || Field(row, "issue_date") == Some("")
    ensures RecordOf(row, format, makeDate).Err?
    ensures CleanAmountStrict(Field(row, "amount")).Ok? ==> RecordOf(row, format, makeDate) == Err(DateMissing)
  {
  }

  /** The record one data line gives under the headers. */
  function LineRecord(headers: seq<string>, format: Value, makeDate: (real, real, real) -> Option<string>):
    string -> Result<Record, Fault>
  {
    (line: string) => RecordOf(RowData(headers, Pieces(line, ',')), format, makeDate)
  }

  /** The `error` text of the reply. Rows are counted from 1 with the header
      line as row 1, so data line `j` (from 0) is row j + 2. */
  function Message(e: Failure): string {
    match e
    case NoDataRow => "CSV must contain headers and at least one data row"
    case RowFailed(j, f) => "Error in row " + NatToString(j + 2) + ": " + FaultMessage(f)
  }

  /** The records of the data lines whose outcomes are given, or the reply
      for the first of them that throws. */
  function Collect(outs: seq<Result<Record, Fault>>): (r: Result<seq<Record>, Failure>)
    ensures r.Ok? ==> |r.value| == |outs|
    ensures r.Err? ==> r.error.RowFailed? && r.error.index < |outs|
  {
    if outs == [] then Ok([])
    else
      var n := |outs| - 1;
      match Collect(outs[..n])
      case Err(e) => Err(e)
      case Ok(rs) =>
        match outs[n]
        case Err(msg) => Err(RowFailed(n, msg))
        case Ok(rec) => Ok(rs + [rec])
  }

  /** The rows succeed together exactly when each line's record does, and
      then the j-th record is the one of the j-th data line, in order. */
  lemma {:induction false} CollectOk(outs: seq<Result<Record, Fault>>)
    ensures Collect(outs).Ok? <==> forall j :: 0 <= j < |outs| ==> outs[j].Ok?
    ensures Collect(outs).Ok? ==> forall j :: 0 <= j < |outs| ==> Collect(outs).value[j] == outs[j].value
  {
    if outs != [] {
      var n := |outs| - 1;
      CollectOk(outs[..n]);
      assert forall j :: 0 <= j < n ==> outs[..n][j] == outs[j];
    }
  }

  /** A failed upload names the first data line whose record throws, with
      that record's message. */
  lemma {:induction false} CollectErr(outs: seq<Result<Record, Fault>>) returns (j: nat)
    requires Collect(outs).Err?
    ensures j < |outs| && outs[j].Err?
    ensures forall i :: 0 <= i < j ==> outs[i].Ok?
    ensures Collect(outs).error == RowFailed(j, outs[j].error)
  {
    var n := |outs| - 1;
    CollectOk(outs[..n]);
    assert forall i :: 0 <= i < n ==> outs[..n][i] == outs[i];
    if Collect(outs[..n]).Err? {
      j := CollectErr(outs[..n]);
      assert outs[..n][j] == outs[j];
    } else {
      j := n;
    }
  }

  /** Once a row has thrown, later rows change nothing. */
  lemma {:induction false} CollectStays(outs: seq<Result<Record, Fault>>, k: nat)
    requires k <= |outs|
    requires Collect(outs[..k]).Err?
    ensures Collect(outs) == Collect(outs[..k])
    decreases |outs| - k
  {
    if k < |outs| {
      assert outs[..k + 1][..k] == outs[..k];
      CollectStays(outs, k + 1);
    } else {
      assert outs[..k] == outs;
    }
  }

  /** One turn of the route's loop over `lines`: the next line's outcome
      either ends the upload with its fault or adds its record. */
  lemma CollectStep(lines: seq<string>, lineRecord: string -> Result<Record, Fault>, i: nat,
    results: seq<Record>, rec: Result<Record, Fault>)
    requires 1 <= i < |lines| && lineRecord(lines[i]) == rec
    requires Collect(Map(lines[1..], lineRecord)[..i - 1]) == Ok(results)
    ensures rec.Err? ==> Collect(Map(lines[1..], lineRecord)) == Err(RowFailed(i - 1, rec.error))
    ensures rec.Ok? ==> Collect(Map(lines[1..], lineRecord)[..i]) == Ok(results + [rec.value])
  {
    var outs := Map(lines[1..], lineRecord);
    assert lines[1..][i - 1] == lines[i];
    assert outs[i - 1] == rec;
    assert outs[..i][..i - 1] == outs[..i - 1];
    if rec.Err? {
      CollectStays(outs, i);
    }
  }

  lemma CollectAll(outs: seq<Result<Record, Fault>>)
    ensures Collect(outs[..|outs|]) == Collect(outs)
  {
    assert outs[..|outs|] == outs;
  }

  /** The whole upload: fewer than two lines is the 400 "headers and data"
      reply, otherwise the rows under the first line's headers, with the
      date format defaulting to 'YYYY-MM-DD'. */
  function Upload(content: string, dateFormat: Value, makeDate: (real, real, real) -> Option<string>):
    (r: Result<seq<Record>, Failure>)
    ensures r.Ok? ==> |r.value| == |Lines(content)| - 1
    ensures (r.Err? && r.error.NoDataRow?) <==> |Lines(content)| < 2
    ensures r.Err? && r.error.RowFailed? ==> r.error.index < |Lines(content)| - 1
  {
    var lines := Lines(content);
    if |lines| < 2 then Err(NoDataRow)
    else ReadRows(lines[1..], Pieces(lines[0], ','), Or(dateFormat, Str(DefaultFormat)), makeDate)
  }

  /** The records of the data lines under the headers, or the reply for the
      first line that throws. */
  function ReadRows(rows: seq<string>, headers: seq<string>, format: Value,
    makeDate: (real, real, real) -> Option<string>): (r: Result<seq<Record>, Failure>)
    ensures r.Ok? ==> |r.value| == |rows|
    ensures r.Err? ==> r.error.RowFailed? && r.error.index < |rows|
  {
    if rows == [] then Ok([])
    else
      var n := |rows| - 1;
      match ReadRows(rows[..n], headers, format, makeDate)
      case Err(e) => Err(e)
      case Ok(rs) =>
        match RecordOf(RowData(headers, Pieces(rows[n], ',')), format, makeDate)
        case Err(f) => Err(RowFailed(n, f))
        case Ok(rec) => Ok(rs + [rec])
  }

  /** Reading the data lines is collecting the outcomes of a reader that
      gives each line's record, such as `LineRecord`. */
  lemma {:induction false} ReadRowsIsCollect(rows: seq<string>, headers: seq<string>, format: Value,
    makeDate: (real, real, real) -> Option<string>, lineRecord: string -> Result<Record, Fault>)
    requires forall line :: lineRecord(line) == RecordOf(RowData(headers, Pieces(line, ',')), format, makeDate)
    ensures ReadRows(rows, headers, format, makeDate) == Collect(Map(rows, lineRecord))
  {
    if rows != [] {
      var n := |rows| - 1;
      var outs := Map(rows, lineRecord);
      ReadRowsIsCollect(rows[..n], headers, format, makeDate, lineRecord);
      assert outs[..n] == Map(rows[..n], lineRecord);
      if Collect(outs[..n]).Err? {
        CollectStays(outs, n);
      }
    } else {
      assert Map(rows, lineRecord) == [];
    }
  }

  /** Text whose trimmed form has no line break, such as "h\n" or "\n\n",
      cannot hold a header and a data row. */
  lemma UploadOneLine(content: string, dateFormat: Value, makeDate: (real, real, real) -> Option<string>)
    requires '\n' !in Trim(content)
    ensures Lines(content) == [Trim(content)]
    ensures Upload(content, dateFormat, makeDate) == Err(NoDataRow)
  {
    OneLine(content);
  }

  /** The rows succeed together exactly when every data line gives a
      record, and then there is one record per data line, in the order of
      the lines. */
  lemma MapCollectOk(lines: seq<string>, lineRecord: string -> Result<Record, Fault>)
    requires |lines| >= 1
    ensures var r := Collect(Map(lines[1..], lineRecord));
      (r.Ok? <==> forall j :: 1 <= j < |lines| ==> lineRecord(lines[j]).Ok?) &&
      (r.Ok? ==> forall j :: 1 <= j < |lines| ==> r.value[j - 1] == lineRecord(lines[j]).value)
  {
    var outs := Map(lines[1..], lineRecord);
    CollectOk(outs);
    assert forall j :: 1 <= j < |lines| ==> outs[j - 1] == lineRecord(lines[j]) by {
      forall j | 1 <= j < |lines| ensures outs[j - 1] == lineRecord(lines[j]) {
        assert lines[1..][j - 1] == lines[j];
      }
    }
  }

  /** A refused upload names the first data line that gives no record:
      its index (the row number less one) and its fault; every line before
      it gave a record. */
  lemma MapCollectErr(lines: seq<string>, lineRecord: string -> Result<Record, Fault>) returns (i: nat)
    requires |lines| >= 1 && Collect(Map(lines[1..], lineRecord)).Err?
    ensures 1 <= i < |lines| && lineRecord(lines[i]).Err?
    ensures forall j :: 1 <= j < i ==> lineRecord(lines[j]).Ok?
    ensures Collect(Map(lines[1..], lineRecord)) == Err(RowFailed(i - 1, lineRecord(lines[i]).error))
  {
    var outs := Map(lines[1..], lineRecord);
    var k := CollectErr(outs);
    i := k + 1;
    assert lines[1..][k] == lines[i];
    forall j | 1 <= j < i ensures lineRecord(lines[j]).Ok? {
      assert lines[1..][j - 1] == lines[j];
      assert outs[j - 1].Ok?;
    }
  }

  /** The message of a row failure names the row by its number. */
  lemma RowFailedMessage(j: nat, f: Fault)
    ensures var m := Message(RowFailed(j, f)); var d := NatToString(j + 2);
      m == "Error in row " + d + ": " + FaultMessage(f) && DigitsValue(d) == j + 2
  {
    DigitsValueOfNatToString(j + 2);
  }

  /** The route body: the lines, the 400 reply when there is no data row,
      otherwise the headers and the date format, then the loop over the
      data lines. */
  method ProcessUpload(content: string, dateFormat: Value, makeDate: (real, real, real) -> Option<string>)
    returns (r: Result<seq<Record>, Failure>)
    ensures r == Upload(content, dateFormat, makeDate)
  {
    var lines := Lines(content);
    if |lines| < 2 {
      r := Err(NoDataRow);
    } else {
      var headers := Pieces(lines[0], ',');
      var format := Or(dateFormat, Str(DefaultFormat));
      r := ProcessRows(lines, headers, format, makeDate);
    }
  }

  /** The loop over the data lines, each read under the headers. */
  method ProcessRows(lines: seq<string>, headers: seq<string>, format: Value,
    makeDate: (real, real, real) -> Option<string>) returns (r: Result<seq<Record>, Failure>)
    requires |lines| >= 1
    ensures r == ReadRows(lines[1..], headers, format, makeDate)
  {
    r := CollectRows(lines, LineRecord(headers, format, makeDate));
    ReadRowsIsCollect(lines[1..], headers, format, makeDate, LineRecord(headers, format, makeDate));
  }

  /** The route's loop over the data lines: each line's record is pushed
      until one throws, which ends the upload with that row's fault. */
  method CollectRows(lines: seq<string>, lineRecord: string -> Result<Record, Fault>)
    returns (r: Result<seq<Record>, Failure>)
    requires |lines| >= 1
    ensures r == Collect(Map(lines[1..], lineRecord))
  {
    ghost var outs := Map(lines[1..], lineRecord);
    var results: seq<Record> := [];
    var i := 1;
    while i < |lines|
      invariant 1 <= i <= |lines|
      invariant Collect(outs[..i - 1]) == Ok(results)
    {
      var rec := lineRecord(lines[i]);
      CollectStep(lines, lineRecord, i, results, rec);
      if rec.Err? {
        return Err(RowFailed(i - 1, rec.error));
      }
      results := results + [rec.value];
      i := i + 1;
    }
    CollectAll(outs);
    return Ok(results);
  }
}
