/** The `/match-data` route of backend/src/routes/fileRoutes.js: totals of
    the parsed amounts and four lists built with `filter`, `some` and
    `find` over the two posted datasets. */
module MatchData {
  import opened Results
  import opened Seqs
  import opened JsNumbers
  import opened JsValues
  import LedgerAnalysis

  /** A posted record, as far as the route reads it. Its other fields are
      carried along unchanged. */
  datatype Row = Row(transactionNumber: Value, amount: Value)

  /** `parseFloat(item.amount)` */
  function ParsedAmount(r: Row): Num {
    ParseFloatValue(r.amount)
  }

  /** `item1.transaction_number === item2.transaction_number` */
  predicate SameNumber(a: Row, b: Row) {
    StrictEquals(a.transactionNumber, b.transactionNumber)
  }

  /** `parseFloat(item1.amount) === parseFloat(item2.amount)`; NaN equals
      nothing. */
  predicate SameAmount(a: Row, b: Row) {
    StrictEquals(Number(ParsedAmount(a)), Number(ParsedAmount(b)))
  }

  /** `s.find(p)` */
  function Find(s: seq<Row>, p: Row -> bool): (r: Option<Row>)
    ensures r.Some? ==> r.value in s && p(r.value)
    ensures r.None? ==> forall i :: 0 <= i < |s| ==> !p(s[i])
  {
    if s == [] then None else if p(s[0]) then Some(s[0]) else Find(s[1..], p)
  }

  /** `find` finds something exactly when `some` holds. */
  lemma FindSome(s: seq<Row>, p: Row -> bool)
    ensures Find(s, p).Some? <==> exists i :: 0 <= i < |s| && p(s[i])
  {
  }

  function SameNumberAndAmount(x: Row): Row -> bool {
    (y: Row) => SameNumber(x, y) && SameAmount(x, y)
  }

  function SameNumberOtherAmount(x: Row): Row -> bool {
    (y: Row) => SameNumber(x, y) && !SameAmount(x, y)
  }

  /** The `perfectMatches` test: some company2 item has the same number and
      the same parsed amount. */
  function HasExact(c2: seq<Row>): Row -> bool {
    (x: Row) => exists y :: y in c2 && SameNumber(x, y) && SameAmount(x, y)
  }

  /** The `mismatches` test: `find` of an item with the same number and a
      different parsed amount. */
  function HasOtherAmount(c2: seq<Row>): Row -> bool {
    (x: Row) => Find(c2, SameNumberOtherAmount(x)).Some?
  }

  /** The unmatched test: no item of `other` has the same number. */
  function NoSameNumber(other: seq<Row>): Row -> bool {
    (x: Row) => !exists y :: y in other && SameNumber(x, y)
  }

  /** `reduce((sum, item) => sum + parseFloat(item.amount), 0)`: NaN as soon
      as one amount does not parse. */
  function Total(data: seq<Row>): Num {
    if data == [] then Fin(0.0)
    else
      var n := |data| - 1;
      Add(Total(data[..n]), ParsedAmount(data[n]))
  }

  /** The amount of a record whose amount parses. */
  function AmountValue(r: Row): real {
    if ParsedAmount(r).Fin? then ParsedAmount(r).val else 0.0
  }

  /** The response: totals and the four lists. */
  datatype Matched = Matched(totals: LedgerAnalysis.Totals, perfectMatches: seq<Row>, mismatches: seq<Row>,
                             unmatched1: seq<Row>, unmatched2: seq<Row>)

  /** `totals`: both totals and the variance as `toFixed(2)` text. */
  function TotalsOf(c1: seq<Row>, c2: seq<Row>): LedgerAnalysis.Totals {
    var t1, t2 := Total(c1), Total(c2);
    LedgerAnalysis.Totals(ToFixed2(t1), ToFixed2(t2), ToFixed2(Sub(t1, t2)))
  }

  /** `perfectMatches` */
  function PerfectMatches(c1: seq<Row>, c2: seq<Row>): seq<Row> {
    Filter(c1, HasExact(c2))
  }

  /** `mismatches` */
  function Mismatches(c1: seq<Row>, c2: seq<Row>): seq<Row> {
    Filter(c1, HasOtherAmount(c2))
  }

  /** `unmatchedCompany1`, and with the datasets swapped `unmatchedCompany2` */
  function Unmatched(c: seq<Row>, other: seq<Row>): seq<Row> {
    Filter(c, NoSameNumber(other))
  }

  /** A posted dataset: a falsy value (missing, null, '', 0, false), an
      array of records, or a truthy value that is not an array (a string,
      a number, a plain object), which has no `reduce` method. */
  datatype Dataset = Falsy | Records(rows: seq<Row>) | NotArray

  /** The route body. A falsy dataset throws 'Both datasets are required';
      otherwise the first `reduce` on a dataset that is not an array throws
      a TypeError. The handler answers every error with status 500,
      `error` 'Failed to match data' and the error's message as `details`,
      which is the text an `Err` here carries. */
  function MatchDatasets(c1: Dataset, c2: Dataset): (r: Result<Matched, string>)
    ensures r.Ok? <==> c1.Records? && c2.Records?
    ensures (r.Err? && r.error == "Both datasets are required") <==> c1.Falsy? || c2.Falsy?
    ensures r.Err? && !c1.Falsy? && !c2.Falsy? ==>
      r.error == (if c1.NotArray? then "company1Data.reduce is not a function"
                  else "company2Data.reduce is not a function")
  {
    if c1.Falsy? || c2.Falsy? then Err("Both datasets are required")
    else if c1.NotArray? then Err("company1Data.reduce is not a function")
    else if c2.NotArray? then Err("company2Data.reduce is not a function")
    else
      var a, b := c1.rows, c2.rows;
      Ok(Matched(TotalsOf(a, b), PerfectMatches(a, b), Mismatches(a, b), Unmatched(a, b), Unmatched(b, a)))
  }

  /** perfectMatches is the company1 items, in order, for which some
      company2 item has the same number and the same parsed amount. */
  lemma PerfectMatchesSpec(c1: seq<Row>, c2: seq<Row>)
    ensures forall x :: x in PerfectMatches(c1, c2) <==>
      x in c1 && exists y :: y in c2 && SameNumber(x, y) && SameAmount(x, y)
    ensures Subsequence(PerfectMatches(c1, c2), c1)
  {
    FilterSubsequence(c1, HasExact(c2));
  }

  /** mismatches is the company1 items, in order, for which some company2
      item has the same number and a different parsed amount. */
  lemma MismatchesSpec(c1: seq<Row>, c2: seq<Row>)
    ensures forall x :: x in Mismatches(c1, c2) <==>
      x in c1 && exists y :: y in c2 && SameNumber(x, y) && !SameAmount(x, y)
    ensures Subsequence(Mismatches(c1, c2), c1)
  {
    forall x ensures HasOtherAmount(c2)(x) <==> exists y :: y in c2 && SameNumber(x, y) && !SameAmount(x, y) {
      FindSome(c2, SameNumberOtherAmount(x));
      if exists y :: y in c2 && SameNumber(x, y) && !SameAmount(x, y) {
        var y :| y in c2 && SameNumber(x, y) && !SameAmount(x, y);
        var i :| 0 <= i < |c2| && c2[i] == y;
        assert SameNumberOtherAmount(x)(c2[i]);
      }
    }
    FilterSubsequence(c1, HasOtherAmount(c2));
  }

  /** The unmatched items of one dataset are those, in order, whose number
      no item of the other dataset has. */
  lemma UnmatchedSpec(c: seq<Row>, other: seq<Row>)
    ensures forall x :: x in Unmatched(c, other) <==> x in c && forall y :: y in other ==> !SameNumber(x, y)
    ensures Subsequence(Unmatched(c, other), c)
  {
    FilterSubsequence(c, NoSameNumber(other));
  }

  /** No unmatched company1 item is also listed as a match or mismatch, and
      every company1 item is in at least one of the three lists. */
  lemma MatchDatasetsCover(c1: seq<Row>, c2: seq<Row>, x: Row)
    ensures var r := MatchDatasets(Records(c1), Records(c2)).value;
      x in r.unmatched1 ==> x !in r.perfectMatches && x !in r.mismatches
    ensures var r := MatchDatasets(Records(c1), Records(c2)).value;
      x in c1 ==> x in r.perfectMatches || x in r.mismatches || x in r.unmatched1
  {
    PerfectMatchesSpec(c1, c2);
    MismatchesSpec(c1, c2);
    UnmatchedSpec(c1, c2);
  }

  /** A company1 item can be both a perfect match and a mismatch: when two
      company2 items carry its number with different amounts. */
  lemma PerfectAndMismatch()
    ensures var x := Row(Str("INV1"), Number(Fin(10.0)));
      var c2 := [x, Row(Str("INV1"), Number(Fin(12.0)))];
      x in PerfectMatches([x], c2) && x in Mismatches([x], c2)
  {
    var x := Row(Str("INV1"), Number(Fin(10.0)));
    var y := Row(Str("INV1"), Number(Fin(12.0)));
    PerfectMatchesSpec([x], [x, y]);
    MismatchesSpec([x], [x, y]);
    assert SameNumber(x, y) && !SameAmount(x, y);
    assert SameNumber(x, x) && SameAmount(x, x);
  }

  /** The total is the sum of the parsed amounts when all of them parse,
      and NaN as soon as one does not. */
  lemma {:induction false} TotalSum(data: seq<Row>)
    ensures Total(data).NaN? <==> exists i :: 0 <= i < |data| && ParsedAmount(data[i]).NaN?
    ensures Total(data).Fin? ==> Total(data).val == Sum(data, AmountValue)
  {
    if data != [] {
      var n := |data| - 1;
      TotalSum(data[..n]);
      SumConcat(data[..n], [data[n]], AmountValue);
      assert data == data[..n] + [data[n]];
      assert Sum([data[n]], AmountValue) == AmountValue(data[n]) + Sum([], AmountValue);
      if exists i :: 0 <= i < n && ParsedAmount(data[..n][i]).NaN? {
        var i :| 0 <= i < n && ParsedAmount(data[..n][i]).NaN?;
        assert data[i] == data[..n][i];
      }
      if exists i :: 0 <= i < |data| && ParsedAmount(data[i]).NaN? {
        var i :| 0 <= i < |data| && ParsedAmount(data[i]).NaN?;
        if i < n {
          assert data[..n][i] == data[i];
        }
      }
    }
  }

  /** A total's text reads back as the total to the cent; NaN is written
      "NaN". */
  lemma FixedReadBack(t: Num)
    ensures t.Fin? ==> ParseFloat(ToFixed2(t)) == Fin(Round2(t.val))
    ensures t.NaN? ==> ToFixed2(t) == "NaN"
  {
    if t.Fin? {
      ParseFloatOfToFixed2(t.val);
    }
  }

  /** The totals read back as the totals to the cent, and the variance as
      company1's total less company2's; any NaN total gives "NaN". */
  lemma MatchDatasetsTotals(c1: seq<Row>, c2: seq<Row>)
    ensures var t := TotalsOf(c1, c2);
      var t1, t2 := Total(c1), Total(c2);
      (t1.Fin? ==> ParseFloat(t.company1Total) == Fin(Round2(t1.val))) &&
      (t2.Fin? ==> ParseFloat(t.company2Total) == Fin(Round2(t2.val))) &&
      (t1.Fin? && t2.Fin? ==> ParseFloat(t.variance) == Fin(Round2(LedgerAnalysis.Difference(t1.val, t2.val)))) &&
      (t1.NaN? || t2.NaN? ==> t.variance == "NaN")
  {
    var t1, t2 := Total(c1), Total(c2);
    var d := Sub(t1, t2);
    FixedReadBack(t1);
    FixedReadBack(t2);
    FixedReadBack(d);
    assert d.Fin? ==> d.val == LedgerAnalysis.Difference(t1.val, t2.val);
  }
}
