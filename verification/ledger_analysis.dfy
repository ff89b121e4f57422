/** The CSV route of backend/index.js: `cleanAmount`, `parseDateString`, the
    row mapping of `parseCSV`, and `analyzeTransactions`, which pairs
    company1 items with company2 items through a `Map` keyed by transaction
    number. */
module LedgerAnalysis {
  import opened Results
  import opened Strings
  import opened Seqs
  import opened JsNumbers
  import opened JsValues

  /** The characters `cleanAmount` deletes: the currency signs, commas and
      whitespace. */
  predicate Decoration(c: char) {
    c == '$' || c == '£' || c == '€' || c == '¥' || c == ',' || IsSpace(c)
  }

  /** The text `cleanAmount` hands to `parseFloat`; once the whitespace is
      gone `trim` has nothing left to do. */
  function CleanedText(s: string): (r: string)
    ensures forall i :: 0 <= i < |r| ==> !Decoration(r[i])
  {
    var t := RemoveWhere(s, Decoration);
    TrimOfUnpadded(t);
    Trim(t)
  }

  /** `cleanAmount(amountStr)`: 0 for a falsy value, otherwise `parseFloat`
      of `String(v)` without its decoration, and 0 where that is NaN. */
  function CleanAmount(v: Value): (r: real)
    ensures !Truthy(v) ==> r == 0.0
  {
    if !Truthy(v) then 0.0 else NumberOrZero(ParseFloat(CleanedText(ToStr(v))))
  }

  /** `isNaN(amount) ? 0 : amount` */
  function NumberOrZero(n: Num): real {
    if n.NaN? then 0.0 else n.val
  }

  lemma CleanAmountOfString(s: string)
    requires s != ""
    ensures CleanAmount(Str(s)) == NumberOrZero(ParseFloat(CleanedText(s)))
  {
  }

  /** Currency signs, commas and whitespace anywhere in the text change
      nothing. */
  lemma CleanAmountIgnoresDecoration(a: string, c: char, b: string)
    requires Decoration(c) && a + b != ""
    ensures CleanAmount(Str(a + [c] + b)) == CleanAmount(Str(a + b))
  {
    RemoveWhereDropped(a, c, b, Decoration);
    CleanAmountOfString(a + [c] + b);
    CleanAmountOfString(a + b);
    assert CleanedText(a + [c] + b) == CleanedText(a + b);
  }

  lemma FixedHasNoDecoration(x: real)
    ensures var s := ToFixed2(Fin(x)); s != "" && forall i :: 0 <= i < |s| ==> !Decoration(s[i])
  {
    ToFixed2Chars(x);
    ToFixed2Shape(x);
  }

  /** A plain `toFixed(2)` text is read back as the value it shows. */
  lemma CleanAmountOfFixed(x: real)
    ensures CleanAmount(Str(ToFixed2(Fin(x)))) == Round2(x)
  {
    var s := ToFixed2(Fin(x));
    FixedHasNoDecoration(x);
    ParseFloatOfToFixed2(x);
    CleanAmountOfClean(s, Round2(x));
  }

  lemma CleanAmountOfClean(s: string, n: real)
    requires s != "" && forall i :: 0 <= i < |s| ==> !Decoration(s[i])
    requires ParseFloat(s) == Fin(n)
    ensures CleanAmount(Str(s)) == n
  {
    CleanAmountOfString(s);
    assert CleanedText(s) == s;
  }

  /** Text with no number in it counts as 0. */
  lemma CleanAmountOfText(s: string)
    requires s != "" && ParseFloat(CleanedText(s)).NaN?
    ensures CleanAmount(Str(s)) == 0.0
  {
    CleanAmountOfString(s);
  }

  /** The year, month and day `parseDateString` destructures from the
      split text; a missing component is undefined, which `Number` makes
      NaN. */
  datatype DateParts = DateParts(year: Num, month: Num, day: Num)

  /** Component `i` of `dateStr.split(sep).map(Number)`. */
  function Part(parts: seq<string>, i: nat): Num {
    if i < |parts| then StringToNumber(parts[i]) else NaN
  }

  /** How a supported format lays out a date: the separator, and the
      positions of year, month and day among the split parts. */
  datatype Layout = Layout(sep: char, yearAt: nat, monthAt: nat, dayAt: nat)

  /** The `switch (format)` of `parseDateString`; None for an unsupported
      format, which makes it throw. */
  function FormatLayout(format: string): (r: Option<Layout>)
    ensures r.Some? ==> r.value.yearAt < 3 && r.value.monthAt < 3 && r.value.dayAt < 3
    ensures r.Some? ==> r.value.sep in {'-', '/'}
  {
    if format == "YYYY-MM-DD" then Some(Layout('-', 0, 1, 2))
    else if format == "DD/MM/YYYY" then Some(Layout('/', 2, 1, 0))
    else if format == "MM/DD/YYYY" then Some(Layout('/', 2, 0, 1))
    else if format == "DD-MM-YYYY" then Some(Layout('-', 2, 1, 0))
    else if format == "MM-DD-YYYY" then Some(Layout('-', 2, 0, 1))
    else None
  }

  /** Exactly five formats are supported, each with its separator and
      the order of its fields; any other format string is not. */
  lemma SupportedFormats(format: string)
    ensures FormatLayout(format).Some? <==>
      format == "YYYY-MM-DD" || format == "DD/MM/YYYY" || format == "MM/DD/YYYY" ||
      format == "DD-MM-YYYY" || format == "MM-DD-YYYY"
    ensures FormatLayout("YYYY-MM-DD") == Some(Layout('-', 0, 1, 2))
    ensures FormatLayout("DD/MM/YYYY") == Some(Layout('/', 2, 1, 0))
    ensures FormatLayout("MM/DD/YYYY") == Some(Layout('/', 2, 0, 1))
    ensures FormatLayout("DD-MM-YYYY") == Some(Layout('-', 2, 1, 0))
    ensures FormatLayout("MM-DD-YYYY") == Some(Layout('-', 2, 0, 1))
  {
  }

  /** The destructuring `[year, month, day] = dateStr.split(sep).map(Number)`
      in the order the format dictates. */
  function Components(s: string, format: string): (r: Option<DateParts>)
    ensures r.Some? <==> FormatLayout(format).Some?
  {
    match FormatLayout(format)
    case None => None
    case Some(l) =>
      var p := Split(s, {l.sep});
      Some(DateParts(Part(p, l.yearAt), Part(p, l.monthAt), Part(p, l.dayAt)))
  }

  /** `parseDateString(dateStr, format)`. `makeDate(year, monthIndex, day)`
      stands for `new Date(year, monthIndex, day)` followed by the validity
      test and `toISOString().split('T')[0]`, None where the date is invalid;
      a NaN component always makes it invalid. Every thrown error is caught
      and gives null, here None: text that is not a string has no `trim`. */
  function ParseDateString(v: Value, format: string, makeDate: (real, real, real) -> Option<string>): (r: Option<string>)
    ensures !Truthy(v) ==> r == None
    ensures FormatLayout(format).None? ==> r == None
  {
    if !Truthy(v) || !v.Str? then None else DateOf(Components(Trim(v.s), format), makeDate)
  }

  /** `new Date(year, month - 1, day)` and its ISO text, for the components
      read. */
  function DateOf(d: Option<DateParts>, makeDate: (real, real, real) -> Option<string>): Option<string> {
    match d
    case None => None
    case Some(d) =>
      if d.year.NaN? || d.month.NaN? || d.day.NaN? then None
      else makeDate(d.year.val, MonthIndex(d.month.val), d.day.val)
  }

  /** The zero-based month index `new Date` takes. */
  function MonthIndex(month: real): real {
    month - 1.0
  }

  lemma ParseDateOfString(s: string, format: string, makeDate: (real, real, real) -> Option<string>)
    requires s != ""
    ensures ParseDateString(Str(s), format, makeDate) == DateOf(Components(Trim(s), format), makeDate)
  {
    assert Truthy(Str(s));
  }

  lemma DigitsUnpadded(s: string)
    requires s != "" && AllDigits(s)
    ensures Trim(s) == s
  {
    assert !IsSpace(s[0]) && !IsSpace(s[|s| - 1]);
    TrimOfUnpadded(s);
  }

  lemma ScanUnsignedDigits(s: string)
    requires s != "" && AllDigits(s)
    ensures ScanUnsigned(s) == Some(Scan(DigitsValue(s) as real, |s|))
  {
    DigitRunAll(s);
    assert s[..|s|] == s;
    assert Decimal(DigitsValue(s), 0, 0) == DigitsValue(s) as real;
  }

  lemma ScanDigits(s: string)
    requires s != "" && AllDigits(s)
    ensures ScanDecimal(s) == Some(Scan(DigitsValue(s) as real, |s|))
  {
    assert IsDigit(s[0]) && s[0..] == s;
    ScanUnsignedDigits(s);
  }

  /** `Number` reads a run of digits as its value. */
  lemma DigitsToNumber(s: string)
    requires s != "" && AllDigits(s)
    ensures StringToNumber(s) == Fin(DigitsValue(s) as real)
  {
    DigitsUnpadded(s);
    ScanDigits(s);
  }

  lemma JoinThree(a: string, b: string, c: string, sep: char)
    ensures Join([a, b, c], [sep]) == a + [sep] + b + [sep] + c
  {
    var parts := [a, b, c];
    assert parts[1..] == [b, c];
    assert parts[1..][1..] == [c];
    assert Join([c], [sep]) == c;
    assert Join([b, c], [sep]) == b + [sep] + c;
    assert Join(parts, [sep]) == a + [sep] + (b + [sep] + c);
  }

  /** Three runs of digits joined by one separator split back into those
      runs. */
  lemma SplitThree(a: string, b: string, c: string, sep: char)
    requires AllDigits(a) && AllDigits(b) && AllDigits(c)
    requires sep in {'-', '/'}
    ensures Split(a + [sep] + b + [sep] + c, {sep}) == [a, b, c]
  {
    JoinThree(a, b, c, sep);
    assert sep !in a && sep !in b && sep !in c;
    SplitJoin([a, b, c], sep);
  }

  lemma DateTextUnpadded(x: string, y: string, z: string, sep: char)
    requires x != "" && z != "" && AllDigits(x) && AllDigits(z)
    ensures var s := DateText(x, y, z, sep); s != "" && !IsSpace(s[0]) && !IsSpace(s[|s| - 1])
  {
    var s := DateText(x, y, z, sep);
    assert s[0] == x[0] && s[|s| - 1] == z[|z| - 1];
  }

  /** The text of a date written as three digit runs joined by `sep`. */
  function DateText(x: string, y: string, z: string, sep: char): string {
    x + [sep] + y + [sep] + z
  }

  /** The values of the three digit runs, in the order they are written. */
  function RunValues(x: string, y: string, z: string): seq<real>
    requires AllDigits(x) && AllDigits(y) && AllDigits(z)
  {
    [DigitsValue(x) as real, DigitsValue(y) as real, DigitsValue(z) as real]
  }

  /** Year, month and day are read from the positions the format names,
      each as the value of its digits, and the month is passed on
      zero-based. */
  lemma ParseDatePositions(x: string, y: string, z: string, format: string, l: Layout,
    makeDate: (real, real, real) -> Option<string>)
    requires x != "" && y != "" && z != "" && AllDigits(x) && AllDigits(y) && AllDigits(z)
    requires FormatLayout(format) == Some(l)
    ensures ParseDateString(Str(DateText(x, y, z, l.sep)), format, makeDate) ==
      makeDate(RunValues(x, y, z)[l.yearAt], MonthIndex(RunValues(x, y, z)[l.monthAt]), RunValues(x, y, z)[l.dayAt])
  {
    var v := RunValues(x, y, z);
    ComponentsOfDate(x, y, z, format, l);
    ParseDateOfNumbers(DateText(x, y, z, l.sep), format, makeDate, v[l.yearAt], v[l.monthAt], v[l.dayAt]);
  }

  lemma ComponentsOfDate(x: string, y: string, z: string, format: string, l: Layout)
    requires x != "" && y != "" && z != "" && AllDigits(x) && AllDigits(y) && AllDigits(z)
    requires FormatLayout(format) == Some(l)
    ensures var s := DateText(x, y, z, l.sep);
      var v := RunValues(x, y, z);
      Components(s, format) == Some(DateParts(Fin(v[l.yearAt]), Fin(v[l.monthAt]), Fin(v[l.dayAt]))) &&
      s != "" && !IsSpace(s[0]) && !IsSpace(s[|s| - 1])
  {
    SplitThree(x, y, z, l.sep);
    DateTextUnpadded(x, y, z, l.sep);
    PartOfDigits(x, y, z, l.yearAt);
    PartOfDigits(x, y, z, l.monthAt);
    PartOfDigits(x, y, z, l.dayAt);
  }

  lemma ParseDateOfNumbers(s: string, format: string, makeDate: (real, real, real) -> Option<string>,
    year: real, month: real, day: real)
    requires s != "" && !IsSpace(s[0]) && !IsSpace(s[|s| - 1])
    requires Components(s, format) == Some(DateParts(Fin(year), Fin(month), Fin(day)))
    ensures ParseDateString(Str(s), format, makeDate) == makeDate(year, MonthIndex(month), day)
  {
    ParseDateOfComponents(s, format, makeDate, DateParts(Fin(year), Fin(month), Fin(day)));
    DateOfNumbers(year, month, day, makeDate);
  }

  lemma ParseDateOfComponents(s: string, format: string, makeDate: (real, real, real) -> Option<string>, d: DateParts)
    requires s != "" && !IsSpace(s[0]) && !IsSpace(s[|s| - 1])
    requires Components(s, format) == Some(d)
    ensures ParseDateString(Str(s), format, makeDate) == DateOf(Some(d), makeDate)
  {
    TrimOfUnpadded(s);
    ParseDateOfString(s, format, makeDate);
  }

  lemma DateOfNumbers(year: real, month: real, day: real, makeDate: (real, real, real) -> Option<string>)
    ensures DateOf(Some(DateParts(Fin(year), Fin(month), Fin(day))), makeDate) == makeDate(year, MonthIndex(month), day)
  {
  }

  lemma PartOfDigits(x: string, y: string, z: string, i: nat)
    requires x != "" && y != "" && z != "" && AllDigits(x) && AllDigits(y) && AllDigits(z)
    requires i < 3
    ensures Part([x, y, z], i) == Fin(RunValues(x, y, z)[i])
  {
    var p := [x, y, z];
    if i == 0 {
      assert p[0] == x;
      DigitsToNumber(x);
    } else if i == 1 {
      assert p[1] == y;
      DigitsToNumber(y);
    } else {
      assert p[2] == z;
      DigitsToNumber(z);
    }
  }

  // ---------------------------------------------------------------------
  // Rows and the company2 map

  /** A cleaned row as `parseCSV` pushes it: `type` is `kind` here, the
      amount is already a number and the dates are ISO text or null. */
  datatype Item = Item(transactionNumber: Value, kind: Value, amount: real, date: Option<string>,
                       dueDate: Option<string>, status: Value, reference: Value)

  /** The columns of a raw CSV row that `parseCSV` reads; a column the file
      lacks is undefined. */
  datatype CsvRow = CsvRow(transactionNumber: Value, transactionType: Value, amount: Value,
                           issueDate: Value, dueDate: Value, status: Value, reference: Value)

  /** The `cleanedData` object built for each row. */
  function CleanRow(row: CsvRow, format: string, makeDate: (real, real, real) -> Option<string>): (r: Item)
    ensures r.transactionNumber == row.transactionNumber && r.kind == row.transactionType && r.status == row.status
    ensures !Truthy(row.amount) ==> r.amount == 0.0
    ensures !Truthy(row.issueDate) ==> r.date == None
    ensures !Truthy(row.dueDate) ==> r.dueDate == None
    ensures Truthy(r.reference) || r.reference == Str("")
  {
    Item(row.transactionNumber, row.transactionType, CleanAmount(row.amount),
         ParseDateString(row.issueDate, format, makeDate), ParseDateString(row.dueDate, format, makeDate),
         row.status, Or(row.reference, Str("")))
  }

  /** The state of a JavaScript `Map`: its keys in insertion order and the
      entry under each. Keys compare with SameValueZero, which on the
      values here is plain equality. */
  datatype Entries = Entries(keys: seq<Value>, vals: map<Value, Item>)

  predicate WellFormed(e: Entries) {
    Distinct(e.keys) && (forall k :: k in e.vals ==> k in e.keys) && (forall k :: k in e.keys ==> k in e.vals)
  }

  const Empty := Entries([], map[])

  /** `map.get(k)`, None where it gives undefined. */
  function Lookup(e: Entries, k: Value): Option<Item> {
    if k in e.vals then Some(e.vals[k]) else None
  }

  function IsNotKey(k: Value): Value -> bool {
    (x: Value) => x != k
  }

  function NotIn(ks: seq<Value>): Value -> bool {
    (x: Value) => x !in ks
  }

  /** `map.set(k, v)` */
  function Put(e: Entries, k: Value, v: Item): Entries {
    if k in e.vals then Entries(e.keys, e.vals[k := v]) else Entries(e.keys + [k], e.vals[k := v])
  }

  /** After `set(k, v)`, `k` maps to `v` and every other key keeps its
      entry. */
  lemma PutLookup(e: Entries, k: Value, v: Item, j: Value)
    ensures Lookup(Put(e, k, v), j) == if j == k then Some(v) else Lookup(e, j)
  {
  }

  /** `set` keeps the map well formed; a new key goes after the others and
      an existing one keeps its place. */
  lemma PutKeys(e: Entries, k: Value, v: Item)
    requires WellFormed(e)
    ensures WellFormed(Put(e, k, v))
    ensures e.keys <= Put(e, k, v).keys
    ensures forall j :: j in Put(e, k, v).keys <==> j in e.keys || j == k
  {
  }

  /** `map.delete(k)` */
  function Remove(e: Entries, k: Value): Entries {
    Entries(Filter(e.keys, IsNotKey(k)), e.vals - {k})
  }

  /** After `delete(k)`, `k` is gone and every other key keeps its entry. */
  lemma RemoveLookup(e: Entries, k: Value, j: Value)
    ensures Lookup(Remove(e, k), j) == if j == k then None else Lookup(e, j)
  {
  }

  /** `delete` keeps the map well formed and the other keys in their order. */
  lemma RemoveKeys(e: Entries, k: Value)
    requires WellFormed(e)
    ensures WellFormed(Remove(e, k))
    ensures forall j :: j in Remove(e, k).keys <==> j in e.keys && j != k
  {
    FilterDistinct(e.keys, IsNotKey(k));
  }

  /** `Array.from(map.values())`: the entries in key order. */
  function ValuesOf(keys: seq<Value>, vals: map<Value, Item>): (r: seq<Item>)
    requires forall k :: k in keys ==> k in vals
    ensures |r| == |keys| && forall i :: 0 <= i < |keys| ==> r[i] == vals[keys[i]]
  {
    if keys == [] then [] else [vals[keys[0]]] + ValuesOf(keys[1..], vals)
  }

  /** The `Map` `analyzeTransactions` builds and consumes. */
  class TransactionMap {
    var keys: seq<Value>
    var vals: map<Value, Item>

    function Contents(): Entries
      reads this
    {
      Entries(keys, vals)
    }

    /** `new Map()` */
    constructor ()
      ensures Contents() == Empty
    {
      keys := [];
      vals := map[];
    }

    /** `map.get(k)` */
    method Get(k: Value) returns (r: Option<Item>)
      ensures r == Lookup(Contents(), k)
    {
      if k in vals {
        r := Some(vals[k]);
      } else {
        r := None;
      }
    }

    /** `map.set(k, v)` */
    method Set(k: Value, v: Item)
      modifies this
      ensures Contents() == Put(old(Contents()), k, v)
    {
      if k !in vals {
        keys := keys + [k];
      }
      vals := vals[k := v];
    }

    /** `map.delete(k)` */
    method Delete(k: Value)
      modifies this
      ensures Contents() == Remove(old(Contents()), k)
    {
      keys := Filter(keys, IsNotKey(k));
      vals := vals - {k};
    }

    /** `Array.from(map.values())` */
    method Values() returns (r: seq<Item>)
      requires WellFormed(Contents())
      ensures r == ValuesOf(keys, vals)
    {
      r := [];
      var i := 0;
      while i < |keys|
        invariant 0 <= i <= |keys|
        invariant |r| == i && forall j :: 0 <= j < i ==> r[j] == vals[keys[j]]
      {
        r := r + [vals[keys[i]]];
        i := i + 1;
      }
    }
  }

  /** The map `company2Data.forEach(item => map.set(item.transactionNumber,
      item))` leaves. */
  function Company2Map(c2: seq<Item>): Entries {
    if c2 == [] then Empty
    else
      var n := |c2| - 1;
      Put(Company2Map(c2[..n]), c2[n].transactionNumber, c2[n])
  }

  /** Building the map keeps it well formed. */
  lemma {:induction false} Company2MapWellFormed(c2: seq<Item>)
    ensures WellFormed(Company2Map(c2))
  {
    if c2 != [] {
      var n := |c2| - 1;
      Company2MapWellFormed(c2[..n]);
      PutKeys(Company2Map(c2[..n]), c2[n].transactionNumber, c2[n]);
    }
  }

  /** The map holds a key exactly when some company2 row has that number. */
  lemma {:induction false} Company2MapKeys(c2: seq<Item>, k: Value)
    ensures Lookup(Company2Map(c2), k).Some? <==> exists i :: 0 <= i < |c2| && c2[i].transactionNumber == k
  {
    if c2 != [] {
      var n := |c2| - 1;
      var m := Company2Map(c2[..n]);
      Company2MapKeys(c2[..n], k);
      PutLookup(m, c2[n].transactionNumber, c2[n], k);
      if k != c2[n].transactionNumber {
        if Lookup(m, k).Some? {
          var i :| 0 <= i < n && c2[..n][i].transactionNumber == k;
          assert c2[i] == c2[..n][i];
        }
        if exists i :: 0 <= i < |c2| && c2[i].transactionNumber == k {
          var i :| 0 <= i < |c2| && c2[i].transactionNumber == k;
          assert c2[..n][i] == c2[i];
        }
      }
    }
  }

  /** A later row with the same number replaces an earlier one: the entry
      is the last row with that number. */
  lemma {:induction false} Company2MapLast(c2: seq<Item>, i: nat)
    requires i < |c2|
    requires forall j :: i < j < |c2| ==> c2[j].transactionNumber != c2[i].transactionNumber
    ensures Lookup(Company2Map(c2), c2[i].transactionNumber) == Some(c2[i])
  {
    var n := |c2| - 1;
    PutLookup(Company2Map(c2[..n]), c2[n].transactionNumber, c2[n], c2[i].transactionNumber);
    if i < n {
      assert c2[..n][i] == c2[i];
      forall j | i < j < n
        ensures c2[..n][j].transactionNumber != c2[..n][i].transactionNumber
      {
        assert c2[..n][j] == c2[j];
      }
      Company2MapLast(c2[..n], i);
    }
  }

  // ---------------------------------------------------------------------
  // Comparing a pair

  /** `parseFloat(item.amount.toFixed(2))`: the amount rounded to cents. */
  function Amount2dp(t: Item): Num {
    Fin(Round2(t.amount))
  }

  /** `Amount2dp` is what `parseFloat` reads back from `toFixed(2)`. */
  lemma Amount2dpParsed(t: Item)
    ensures Amount2dp(t) == ParseFloat(ToFixed2(Fin(t.amount)))
  {
    ParseFloatOfToFixed2(t.amount);
  }

  /** `isExactMatch`: rounded amounts, dates, statuses and types all `===`. */
  predicate IsExactMatch(a: Item, b: Item) {
    StrictEquals(Number(Amount2dp(a)), Number(Amount2dp(b))) && a.date == b.date &&
    StrictEquals(a.status, b.status) && StrictEquals(a.kind, b.kind)
  }

  /** The `differences` flags of a mismatch. */
  datatype Differences = Differences(amount: bool, date: bool, status: bool, kind: bool)

  function DifferencesOf(a: Item, b: Item): Differences {
    Differences(!StrictEquals(Number(Amount2dp(a)), Number(Amount2dp(b))), a.date != b.date,
                !StrictEquals(a.status, b.status), !StrictEquals(a.kind, b.kind))
  }

  /** A pair is perfect exactly when the amounts agree to the cent and the
      other three fields are equal, and exactly when no difference flag is
      set. */
  lemma ExactMatchIff(a: Item, b: Item)
    ensures IsExactMatch(a, b) <==>
      Round2(a.amount) == Round2(b.amount) && a.date == b.date &&
      StrictEquals(a.status, b.status) && StrictEquals(a.kind, b.kind)
    ensures IsExactMatch(a, b) <==> DifferencesOf(a, b) == Differences(false, false, false, false)
  {
  }

  // ---------------------------------------------------------------------
  // The company1 loop

  datatype Pair = Pair(source: Item, matched: Item)

  datatype Mismatch = Mismatch(source: Item, matched: Item, differences: Differences)

  /** The four arrays of `analyzeTransactions` and the map as the loop
      leaves them. */
  datatype Analysis = Analysis(perfect: seq<Pair>, mismatches: seq<Mismatch>, only1: seq<Item>, remaining: Entries)

  /** One turn of `company1Data.forEach`. */
  function Step(a: Analysis, item: Item): Analysis {
    var k := item.transactionNumber;
    match Lookup(a.remaining, k)
    case None => a.(only1 := a.only1 + [item])
    case Some(m) =>
      if IsExactMatch(item, m) then
        a.(perfect := a.perfect + [Pair(item, m)], remaining := Remove(a.remaining, k))
      else
        a.(mismatches := a.mismatches + [Mismatch(item, m, DifferencesOf(item, m))], remaining := Remove(a.remaining, k))
  }

  /** The loop over `c1` started from the map `initial`. */
  function Analyze(c1: seq<Item>, initial: Entries): Analysis {
    if c1 == [] then Analysis([], [], [], initial)
    else
      var n := |c1| - 1;
      Step(Analyze(c1[..n], initial), c1[n])
  }

  /** The numbers the loop has found in the map and deleted, in order. */
  function PairedKeys(c1: seq<Item>, initial: Entries): seq<Value> {
    if c1 == [] then []
    else
      var n := |c1| - 1;
      var p := PairedKeys(c1[..n], initial);
      var k := c1[n].transactionNumber;
      if k in initial.vals && k !in p then p + [k] else p
  }

  /** The company1 items of a list of pairs, in order. */
  function PairSources(ps: seq<Pair>): seq<Item> {
    if ps == [] then [] else var n := |ps| - 1; PairSources(ps[..n]) + [ps[n].source]
  }

  function MismatchSources(ms: seq<Mismatch>): seq<Item> {
    if ms == [] then [] else var n := |ms| - 1; MismatchSources(ms[..n]) + [ms[n].source]
  }

  function KeysOf(items: seq<Item>): seq<Value> {
    if items == [] then [] else var n := |items| - 1; KeysOf(items[..n]) + [items[n].transactionNumber]
  }

  /** An item finds its number in the map exactly when the number was in
      the initial map and no earlier item took it. */
  lemma {:induction false} AnalyzeLookup(c1: seq<Item>, initial: Entries, j: Value)
    ensures Lookup(Analyze(c1, initial).remaining, j) ==
      if j in PairedKeys(c1, initial) then None else Lookup(initial, j)
  {
    if c1 != [] {
      var n := |c1| - 1;
      var a := Analyze(c1[..n], initial);
      var k := c1[n].transactionNumber;
      AnalyzeLookup(c1[..n], initial, j);
      AnalyzeLookup(c1[..n], initial, k);
      RemoveLookup(a.remaining, k, j);
    }
  }

  /** The remaining map and the paired numbers after one more item. */
  lemma AnalyzeNext(c1: seq<Item>, initial: Entries)
    requires c1 != []
    ensures var n := |c1| - 1; var k := c1[n].transactionNumber;
      var a := Analyze(c1[..n], initial); var p := PairedKeys(c1[..n], initial);
      if k in initial.vals && k !in p then
        Analyze(c1, initial).remaining == Remove(a.remaining, k) && PairedKeys(c1, initial) == p + [k]
      else
        Analyze(c1, initial).remaining == a.remaining && PairedKeys(c1, initial) == p
  {
    var n := |c1| - 1;
    AnalyzeLookup(c1[..n], initial, c1[n].transactionNumber);
  }

  /** Each paired number was in the initial map and none is paired twice. */
  lemma {:induction false} PairedKeysDistinct(c1: seq<Item>, initial: Entries)
    ensures Distinct(PairedKeys(c1, initial))
    ensures forall k :: k in PairedKeys(c1, initial) ==> k in initial.vals
  {
    if c1 != [] {
      var n := |c1| - 1;
      var p := PairedKeys(c1[..n], initial);
      var k := c1[n].transactionNumber;
      PairedKeysDistinct(c1[..n], initial);
      if k in initial.vals && k !in p {
        forall x, y | 0 <= x < y < |p + [k]| ensures (p + [k])[x] != (p + [k])[y] {
          assert (p + [k])[x] == p[x];
          if y < |p| {
            assert (p + [k])[y] == p[y];
          }
        }
      }
    }
  }

  /** What is left of the map are the never-matched numbers, in their
      original order, and it stays well formed. */
  lemma {:induction false} AnalyzeKeys(c1: seq<Item>, initial: Entries)
    requires WellFormed(initial)
    ensures WellFormed(Analyze(c1, initial).remaining)
    ensures Analyze(c1, initial).remaining.keys == Filter(initial.keys, NotIn(PairedKeys(c1, initial)))
  {
    if c1 == [] {
      FilterAll(initial.keys, NotIn([]));
    } else {
      var n := |c1| - 1;
      var a := Analyze(c1[..n], initial);
      var p := PairedKeys(c1[..n], initial);
      var k := c1[n].transactionNumber;
      AnalyzeKeys(c1[..n], initial);
      AnalyzeNext(c1, initial);
      if k in initial.vals && k !in p {
        RemoveKeys(a.remaining, k);
        FilterFilter(initial.keys, NotIn(p), IsNotKey(k), NotIn(p + [k]));
      }
    }
  }

  lemma PairSourcesSnoc(ps: seq<Pair>, x: Pair)
    ensures PairSources(ps + [x]) == PairSources(ps) + [x.source]
  {
    assert (ps + [x])[..|ps|] == ps;
  }

  lemma MismatchSourcesSnoc(ms: seq<Mismatch>, x: Mismatch)
    ensures MismatchSources(ms + [x]) == MismatchSources(ms) + [x.source]
  {
    assert (ms + [x])[..|ms|] == ms;
  }

  lemma KeysOfSnoc(items: seq<Item>, x: Item)
    ensures KeysOf(items + [x]) == KeysOf(items) + [x.transactionNumber]
  {
    assert (items + [x])[..|items|] == items;
  }

  /** One more item: where it goes, by whether its number is still in
      the map and whether the entry matches it exactly. */
  lemma AnalyzeStep(c1: seq<Item>, initial: Entries)
    requires c1 != []
    ensures var n := |c1| - 1; var item := c1[n]; var k := item.transactionNumber;
      var a := Analyze(c1[..n], initial); var r := Analyze(c1, initial);
      var p := PairedKeys(c1[..n], initial);
      if k !in initial.vals || k in p then
        r.perfect == a.perfect && r.mismatches == a.mismatches && r.only1 == a.only1 + [item] &&
        PairedKeys(c1, initial) == p
      else if IsExactMatch(item, initial.vals[k]) then
        r.perfect == a.perfect + [Pair(item, initial.vals[k])] && r.mismatches == a.mismatches &&
        r.only1 == a.only1 && PairedKeys(c1, initial) == p + [k]
      else
        r.perfect == a.perfect && r.only1 == a.only1 && PairedKeys(c1, initial) == p + [k] &&
        r.mismatches == a.mismatches + [Mismatch(item, initial.vals[k], DifferencesOf(item, initial.vals[k]))]
  {
    var n := |c1| - 1;
    AnalyzeLookup(c1[..n], initial, c1[n].transactionNumber);
  }

  /** One turn adds its item to exactly one of the three lists. */
  lemma StepSources(a: Analysis, item: Item)
    ensures var r := Step(a, item);
      multiset(PairSources(r.perfect)) + multiset(MismatchSources(r.mismatches)) + multiset(r.only1) ==
        multiset(PairSources(a.perfect)) + multiset(MismatchSources(a.mismatches)) + multiset(a.only1) + multiset{item}
  {
    var k := item.transactionNumber;
    var r := Step(a, item);
    var ps, ms, os := multiset(PairSources(a.perfect)), multiset(MismatchSources(a.mismatches)), multiset(a.only1);
    match Lookup(a.remaining, k)
    case None =>
      assert r.perfect == a.perfect && r.mismatches == a.mismatches && r.only1 == a.only1 + [item];
      assert multiset(r.only1) == os + multiset{item};
    case Some(m) =>
      if IsExactMatch(item, m) {
        assert r.perfect == a.perfect + [Pair(item, m)] && r.mismatches == a.mismatches && r.only1 == a.only1;
        PairSourcesSnoc(a.perfect, Pair(item, m));
        assert multiset(PairSources(r.perfect)) == ps + multiset{item};
      } else {
        var x := Mismatch(item, m, DifferencesOf(item, m));
        assert r.perfect == a.perfect && r.mismatches == a.mismatches + [x] && r.only1 == a.only1;
        MismatchSourcesSnoc(a.mismatches, x);
        assert multiset(MismatchSources(r.mismatches)) == ms + multiset{item};
      }
  }

  /** One turn pairs its item's number exactly when the number is still in
      the map. */
  lemma PairKeysSnoc(ps: seq<Pair>, x: Pair)
    ensures multiset(KeysOf(PairSources(ps + [x]))) ==
      multiset(KeysOf(PairSources(ps))) + multiset{x.source.transactionNumber}
  {
    PairSourcesSnoc(ps, x);
    KeysOfSnoc(PairSources(ps), x.source);
  }

  lemma MismatchKeysSnoc(ms: seq<Mismatch>, x: Mismatch)
    ensures multiset(KeysOf(MismatchSources(ms + [x]))) ==
      multiset(KeysOf(MismatchSources(ms))) + multiset{x.source.transactionNumber}
  {
    MismatchSourcesSnoc(ms, x);
    KeysOfSnoc(MismatchSources(ms), x.source);
  }

  /** The numbers of the paired and the mismatched company1 items. */
  function KeyBag(a: Analysis): multiset<Value> {
    multiset(KeysOf(PairSources(a.perfect))) + multiset(KeysOf(MismatchSources(a.mismatches)))
  }

  lemma StepKeysFound(a: Analysis, item: Item, m: Item)
    requires Lookup(a.remaining, item.transactionNumber) == Some(m)
    ensures KeyBag(Step(a, item)) == KeyBag(a) + multiset{item.transactionNumber}
  {
    var k := item.transactionNumber;
    var pk, mk := multiset(KeysOf(PairSources(a.perfect))), multiset(KeysOf(MismatchSources(a.mismatches)));
    if IsExactMatch(item, m) {
      var x := Pair(item, m);
      var r := a.(perfect := a.perfect + [x], remaining := Remove(a.remaining, k));
      assert Step(a, item) == r;
      PairKeysSnoc(a.perfect, x);
      assert KeyBag(r) == pk + multiset{k} + mk;
    } else {
      var x := Mismatch(item, m, DifferencesOf(item, m));
      var r := a.(mismatches := a.mismatches + [x], remaining := Remove(a.remaining, k));
      assert Step(a, item) == r;
      MismatchKeysSnoc(a.mismatches, x);
      assert KeyBag(r) == pk + (mk + multiset{k});
    }
  }

  lemma StepKeys(a: Analysis, item: Item)
    ensures var k := item.transactionNumber; Lookup(a.remaining, k).None? ==> KeyBag(Step(a, item)) == KeyBag(a)
    ensures var k := item.transactionNumber; Lookup(a.remaining, k).Some? ==> KeyBag(Step(a, item)) == KeyBag(a) + multiset{k}
  {
    match Lookup(a.remaining, item.transactionNumber)
    case None =>
    case Some(m) => StepKeysFound(a, item, m);
  }

  /** Each company1 item lands in exactly one of the three lists. */
  lemma {:induction false} AnalyzePartition(c1: seq<Item>, initial: Entries)
    ensures var r := Analyze(c1, initial);
      multiset(PairSources(r.perfect)) + multiset(MismatchSources(r.mismatches)) + multiset(r.only1) == multiset(c1)
  {
    if c1 != [] {
      var n := |c1| - 1;
      AnalyzePartition(c1[..n], initial);
      StepSources(Analyze(c1[..n], initial), c1[n]);
      assert c1 == c1[..n] + [c1[n]];
    }
  }

  /** The numbers of the paired items are exactly the numbers deleted from
      the map, so no entry is paired twice. */
  lemma {:induction false} AnalyzePairedKeys(c1: seq<Item>, initial: Entries)
    ensures KeyBag(Analyze(c1, initial)) == multiset(PairedKeys(c1, initial))
  {
    if c1 != [] {
      var n := |c1| - 1;
      var k := c1[n].transactionNumber;
      AnalyzePairedKeys(c1[..n], initial);
      StepKeys(Analyze(c1[..n], initial), c1[n]);
      AnalyzeLookup(c1[..n], initial, k);
    }
  }

  /** A perfect pair is an item and the map entry for its number, and they
      match exactly. */
  lemma {:induction false} AnalyzePerfect(c1: seq<Item>, initial: Entries)
    ensures var r := Analyze(c1, initial);
      forall i :: 0 <= i < |r.perfect| ==>
        IsExactMatch(r.perfect[i].source, r.perfect[i].matched) &&
        Lookup(initial, r.perfect[i].source.transactionNumber) == Some(r.perfect[i].matched)
  {
    if c1 != [] {
      var n := |c1| - 1;
      var a := Analyze(c1[..n], initial);
      var k := c1[n].transactionNumber;
      AnalyzePerfect(c1[..n], initial);
      AnalyzeLookup(c1[..n], initial, k);
    }
  }

  /** A mismatch is an item and the map entry for its number that do not
      match exactly, with the flags of the fields that differ. */
  lemma {:induction false} AnalyzeMismatches(c1: seq<Item>, initial: Entries)
    ensures var r := Analyze(c1, initial);
      forall i :: 0 <= i < |r.mismatches| ==>
        !IsExactMatch(r.mismatches[i].source, r.mismatches[i].matched) &&
        r.mismatches[i].differences == DifferencesOf(r.mismatches[i].source, r.mismatches[i].matched) &&
        Lookup(initial, r.mismatches[i].source.transactionNumber) == Some(r.mismatches[i].matched)
  {
    if c1 != [] {
      var n := |c1| - 1;
      var a := Analyze(c1[..n], initial);
      var k := c1[n].transactionNumber;
      AnalyzeMismatches(c1[..n], initial);
      AnalyzeLookup(c1[..n], initial, k);
    }
  }

  /** An item is left unmatched only if its number is not in the map or an
      earlier item already took that entry, and always when its number is
      not in the map. */
  lemma {:induction false} AnalyzeOnly1(c1: seq<Item>, initial: Entries, x: Item)
    ensures x in Analyze(c1, initial).only1 ==>
      x in c1 && (x.transactionNumber !in initial.vals || x.transactionNumber in PairedKeys(c1, initial))
    ensures x in c1 && x.transactionNumber !in initial.vals ==> x in Analyze(c1, initial).only1
  {
    if c1 != [] {
      var n := |c1| - 1;
      var a := Analyze(c1[..n], initial);
      var k := c1[n].transactionNumber;
      AnalyzeOnly1(c1[..n], initial, x);
      AnalyzeLookup(c1[..n], initial, k);
      assert c1 == c1[..n] + [c1[n]];
      assert PairedKeys(c1[..n], initial) <= PairedKeys(c1, initial);
    }
  }

  // ---------------------------------------------------------------------
  // Totals and the report

  /** `t.status === 'Open'` */
  predicate IsOpen(t: Item) {
    StrictEquals(t.status, Str("Open"))
  }

  function ItemAmount(t: Item): real {
    t.amount
  }

  /** `data.filter(t => t.status === 'Open').reduce((sum, t) => sum + t.amount, 0)` */
  function OpenTotal(data: seq<Item>): real {
    Sum(Filter(data, IsOpen), ItemAmount)
  }

  /** The total of two ledgers put together is the sum of their totals. */
  lemma OpenTotalConcat(a: seq<Item>, b: seq<Item>)
    ensures OpenTotal(a + b) == OpenTotal(a) + OpenTotal(b)
  {
    FilterConcat(a, b, IsOpen);
    SumConcat(Filter(a, IsOpen), Filter(b, IsOpen), ItemAmount);
  }

  /** Only an open item counts, with its amount. */
  lemma OpenTotalSingle(t: Item)
    ensures OpenTotal([t]) == if IsOpen(t) then t.amount else 0.0
  {
    assert [t][1..] == [];
    assert Filter([t], IsOpen) == if IsOpen(t) then [t] else [];
    assert Sum([t], ItemAmount) == t.amount;
  }

  function Difference(a: real, b: real): real {
    a - b
  }

  /** The `totals` object: both totals and the variance as `toFixed(2)`
      text. */
  datatype Totals = Totals(company1Total: string, company2Total: string, variance: string)

  function TotalsOf(c1: seq<Item>, c2: seq<Item>): Totals {
    var t1 := OpenTotal(c1);
    var t2 := OpenTotal(c2);
    Totals(ToFixed2(Fin(t1)), ToFixed2(Fin(t2)), ToFixed2(Fin(Difference(t1, t2))))
  }

  /** The totals read back as the open totals to the cent, and the
      variance as company1's total less company2's, with its sign. */
  lemma TotalsReadBack(c1: seq<Item>, c2: seq<Item>)
    ensures ParseFloat(TotalsOf(c1, c2).company1Total) == Fin(Round2(OpenTotal(c1)))
    ensures ParseFloat(TotalsOf(c1, c2).company2Total) == Fin(Round2(OpenTotal(c2)))
    ensures ParseFloat(TotalsOf(c1, c2).variance) == Fin(Round2(Difference(OpenTotal(c1), OpenTotal(c2))))
    ensures TotalsOf(c1, c2).variance[0] == '-' <==> OpenTotal(c1) < OpenTotal(c2)
  {
    var t1, t2 := OpenTotal(c1), OpenTotal(c2);
    ParseFloatOfToFixed2(t1);
    ParseFloatOfToFixed2(t2);
    ParseFloatOfToFixed2(Difference(t1, t2));
    ToFixed2Shape(Difference(t1, t2));
  }

  /** The object `analyzeTransactions` returns. */
  datatype Report = Report(totals: Totals, perfectMatches: seq<Pair>, mismatches: seq<Mismatch>,
                           onlyInCompany1: seq<Item>, onlyInCompany2: seq<Item>)

  /** What `analyzeTransactions(company1Data, company2Data)` returns. */
  function AnalysisReport(c1: seq<Item>, c2: seq<Item>): Report {
    var initial := Company2Map(c2);
    var a := Analyze(c1, initial);
    Company2MapWellFormed(c2);
    AnalyzeKeys(c1, initial);
    Report(TotalsOf(c1, c2), a.perfect, a.mismatches, a.only1, ValuesOf(a.remaining.keys, a.remaining.vals))
  }

  /** onlyInCompany2 is the entries of the company2 map whose numbers no
      company1 item took, in the map's order. */
  lemma ReportOnlyInCompany2(c1: seq<Item>, c2: seq<Item>)
    ensures WellFormed(Company2Map(c2))
    ensures var initial := Company2Map(c2);
      AnalysisReport(c1, c2).onlyInCompany2 == ValuesOf(Filter(initial.keys, NotIn(PairedKeys(c1, initial))), initial.vals)
  {
    var initial := Company2Map(c2);
    var p := PairedKeys(c1, initial);
    var a := Analyze(c1, initial);
    Company2MapWellFormed(c2);
    AnalyzeKeys(c1, initial);
    var ks := Filter(initial.keys, NotIn(p));
    var r := AnalysisReport(c1, c2).onlyInCompany2;
    var w := ValuesOf(ks, initial.vals);
    forall i | 0 <= i < |ks| ensures r[i] == w[i] {
      AnalyzeLookup(c1, initial, ks[i]);
    }
  }

  /** Every company1 item appears once among the three lists, so their
      lengths add up to the number of items. */
  lemma ReportCounts(c1: seq<Item>, c2: seq<Item>)
    ensures var r := AnalysisReport(c1, c2);
      |r.perfectMatches| + |r.mismatches| + |r.onlyInCompany1| == |c1|
  {
    var a := Analyze(c1, Company2Map(c2));
    AnalyzePartition(c1, Company2Map(c2));
    PairSourcesLength(a.perfect);
    MismatchSourcesLength(a.mismatches);
    assert |multiset(c1)| == |c1|;
  }

  lemma {:induction false} PairSourcesLength(ps: seq<Pair>)
    ensures |PairSources(ps)| == |ps|
  {
    if ps != [] {
      PairSourcesLength(ps[..|ps| - 1]);
    }
  }

  lemma {:induction false} MismatchSourcesLength(ms: seq<Mismatch>)
    ensures |MismatchSources(ms)| == |ms|
  {
    if ms != [] {
      MismatchSourcesLength(ms[..|ms| - 1]);
    }
  }

  /** `company2Data.forEach(item => company2Map.set(item.transactionNumber, item))` */
  method BuildCompany2Map(c2: seq<Item>) returns (m: TransactionMap)
    ensures fresh(m) && m.Contents() == Company2Map(c2)
  {
    m := new TransactionMap();
    var j := 0;
    while j < |c2|
      invariant 0 <= j <= |c2|
      invariant m.Contents() == Company2Map(c2[..j])
    {
      assert c2[..j + 1][..j] == c2[..j];
      m.Set(c2[j].transactionNumber, c2[j]);
      j := j + 1;
    }
    assert c2[..|c2|] == c2;
  }

  /** `company1Data.forEach(...)`: looks each item up, pushes it to one of
      the three arrays and deletes a matched entry. */
  method ClassifyCompany1(c1: seq<Item>, m: TransactionMap) returns (perfect: seq<Pair>, mismatches: seq<Mismatch>, only1: seq<Item>)
    modifies m
    ensures Analysis(perfect, mismatches, only1, m.Contents()) == Analyze(c1, old(m.Contents()))
  {
    ghost var initial := m.Contents();
    perfect, mismatches, only1 := [], [], [];
    var i := 0;
    while i < |c1|
      invariant 0 <= i <= |c1|
      invariant Analysis(perfect, mismatches, only1, m.Contents()) == Analyze(c1[..i], initial)
    {
      assert c1[..i + 1][..i] == c1[..i];
      var item := c1[i];
      var found := m.Get(item.transactionNumber);
      match found {
        case None =>
          only1 := only1 + [item];
        case Some(other) =>
          if IsExactMatch(item, other) {
            perfect := perfect + [Pair(item, other)];
          } else {
            mismatches := mismatches + [Mismatch(item, other, DifferencesOf(item, other))];
          }
          m.Delete(item.transactionNumber);
      }
      i := i + 1;
    }
    assert c1[..|c1|] == c1;
  }

  /** `analyzeTransactions(company1Data, company2Data)` */
  method AnalyzeTransactions(c1: seq<Item>, c2: seq<Item>) returns (r: Report)
    ensures r == AnalysisReport(c1, c2)
  {
    var totals := TotalsOf(c1, c2);
    var m := BuildCompany2Map(c2);
    Company2MapWellFormed(c2);
    AnalyzeKeys(c1, Company2Map(c2));
    var perfect, mismatches, only1 := ClassifyCompany1(c1, m);
    var only2 := m.Values();
    r := Report(totals, perfect, mismatches, only1, only2);
  }
}
