/** The backend matcher `matchRecords` of backend/src/utils/matching.js: it
    pairs each company1 (receivable) record with the company2 (payable)
    records that share its transaction number or reference, classifies the
    pair as perfect or as a mismatch, removes matched records from the
    unmatched lists, and reports what the historical AR data says about
    the payables left over. */
module Matching {
  import opened Results
  import opened Strings
  import opened Seqs
  import opened JsNumbers
  import opened JsValues

  /** A record after `normalizeData`. Text fields are absent when the raw
      field was undefined or null; dates are day numbers (the output of the
      date library is not modelled). */
  datatype Record = Record(
    transactionNumber: Option<string>,
    kind: Option<string>,
    amount: Num,
    date: Option<int>,
    dueDate: Option<int>,
    status: Option<string>,
    reference: Option<string>,
    paymentDate: Option<int>,
    isPaid: bool,
    isVoided: bool)

  /** `a && b && a === b` on two optional texts. */
  predicate SameKey(a: Option<string>, b: Option<string>) {
    a.Some? && b.Some? && a.value != "" && a.value == b.value
  }

  /** The identifier test shared by `findPotentialMatches`,
      `findHistoricalMatches` and `isExactMatch`: the same non-empty
      transaction number or the same non-empty reference. */
  predicate IdMatch(item1: Record, item2: Record) {
    SameKey(item1.transactionNumber, item2.transactionNumber) ||
    SameKey(item1.reference, item2.reference)
  }

  function IdMatchOf(item1: Record): Record -> bool {
    (item2: Record) => IdMatch(item1, item2)
  }

  /** `findPotentialMatches(item1, company2)`: exactly the company2 records
      with a matching identifier, each as often as it occurs, in order. */
  function FindPotentialMatches(item1: Record, company2: seq<Record>): (r: seq<Record>)
    ensures forall x :: x in r <==> x in company2 && IdMatch(item1, x)
    ensures forall x :: multiset(r)[x] == if IdMatch(item1, x) then multiset(company2)[x] else 0
    ensures Subsequence(r, company2)
  {
    FilterMultiset(company2, IdMatchOf(item1));
    FilterSubsequence(company2, IdMatchOf(item1));
    Filter(company2, IdMatchOf(item1))
  }

  /** `x || 0` for an amount: NaN and 0 both give 0. */
  function AmountOrZero(n: Num): (r: real)
    ensures n.Fin? ==> r == n.val
    ensures n.NaN? ==> r == 0.0
  {
    if n.Fin? then n.val else 0.0
  }

  /** The amount test of `isExactMatch` and `calculateMatchScore`: the
      magnitudes differ by less than 0.01. */
  predicate AmountsAgree(a: Num, b: Num) {
    AbsReal(AbsReal(AmountOrZero(a)) - AbsReal(AmountOrZero(b))) < 0.01
  }

  /** `isExactMatch(item1, item2)`. */
  predicate IsExactMatch(item1: Record, item2: Record) {
    IdMatch(item1, item2) && AmountsAgree(item1.amount, item2.amount)
  }

  function Negate(n: Num): (r: Num)
    ensures r.Fin? <==> n.Fin?
    ensures r.Fin? ==> r.val == -n.val
  {
    if n.Fin? then Fin(-n.val) else NaN
  }

  /** An exact match ignores the sign of either amount and does not depend
      on the order of the two records. */
  lemma ExactMatchSymmetric(item1: Record, item2: Record)
    ensures IsExactMatch(item1, item2) == IsExactMatch(item2, item1)
    ensures IsExactMatch(item1, item2) == IsExactMatch(item1, item2.(amount := Negate(item2.amount)))
  {
    assert AbsReal(AmountOrZero(Negate(item2.amount))) == AbsReal(AmountOrZero(item2.amount));
  }

  /** For a candidate found by `findPotentialMatches`, `isExactMatch` is the
      amount test alone. */
  lemma ExactMatchOfCandidate(item1: Record, company2: seq<Record>, m: Record)
    requires m in FindPotentialMatches(item1, company2)
    ensures IsExactMatch(item1, m) <==> AmountsAgree(item1.amount, m.amount)
  {
  }

  /** The date points of `calculateMatchScore`, in halves: 2 for the same
      day, 1 within 5 days. */
  function DateScore(d1: Option<int>, d2: Option<int>): (r: nat)
    ensures r <= 2
    ensures r > 0 ==> d1.Some? && d2.Some?
  {
    if d1.Some? && d2.Some? then
      var diff := if d1.value <= d2.value then d2.value - d1.value else d1.value - d2.value;
      if diff == 0 then 2 else if diff <= 5 then 1 else 0
    else 0
  }

  /** `calculateMatchScore(item1, item2)` counted in halves: 6 for the
      amount, 4 for the transaction number, 4 for the reference and the
      date points. */
  function MatchScore(item1: Record, item2: Record): (r: nat)
    ensures r <= 16
    ensures IdMatch(item1, item2) ==> r >= 4
    ensures IsExactMatch(item1, item2) ==> r >= 10
  {
    (if AmountsAgree(item1.amount, item2.amount) then 6 else 0) +
    (if SameKey(item1.transactionNumber, item2.transactionNumber) then 4 else 0) +
    (if SameKey(item1.reference, item2.reference) then 4 else 0) +
    DateScore(item1.date, item2.date)
  }

  /** The position `reduce` in `findBestMatch` ends on: a maximal score,
      and the earliest of those, since a later record replaces the best
      only with a strictly greater score. */
  function BestIndex(item1: Record, s: seq<Record>): (i: nat)
    requires |s| > 0
    ensures i < |s|
    ensures forall j :: 0 <= j < |s| ==> MatchScore(item1, s[j]) <= MatchScore(item1, s[i])
    ensures forall j :: 0 <= j < i ==> MatchScore(item1, s[j]) < MatchScore(item1, s[i])
  {
    if |s| == 1 then 0
    else
      var b := BestIndex(item1, s[..|s| - 1]);
      if MatchScore(item1, s[|s| - 1]) > MatchScore(item1, s[b]) then |s| - 1 else b
  }

  /** `findBestMatch(item1, potentialMatches)`: null for an empty list,
      otherwise the first record of maximal score. */
  function FindBestMatch(item1: Record, potentialMatches: seq<Record>): (r: Option<Record>)
    ensures r.None? <==> potentialMatches == []
    ensures r.Some? ==> r.value in potentialMatches
    ensures r.Some? ==> forall x :: x in potentialMatches ==> MatchScore(item1, x) <= MatchScore(item1, r.value)
  {
    if potentialMatches == [] then None
    else
      var i := BestIndex(item1, potentialMatches);
      assert forall x :: x in potentialMatches ==> exists j :: 0 <= j < |potentialMatches| && potentialMatches[j] == x;
      Some(potentialMatches[i])
  }

  /** What the loop of `matchRecords` does with one company1 record. */
  datatype Outcome = NoCandidate | Perfect(m: Record) | Mismatch(m: Record)

  function Classify(item1: Record, company2: seq<Record>): (o: Outcome)
    ensures o.NoCandidate? <==> forall x :: x in company2 ==> !IdMatch(item1, x)
    ensures o.Perfect? ==>
      o.m in company2 && IsExactMatch(item1, o.m) && |FindPotentialMatches(item1, company2)| == 1
    ensures o.Mismatch? ==> (o.m in company2 && IdMatch(item1, o.m) &&
      forall x :: x in company2 && IdMatch(item1, x) ==> MatchScore(item1, x) <= MatchScore(item1, o.m))
    ensures o.Mismatch? && |FindPotentialMatches(item1, company2)| == 1 ==> !IsExactMatch(item1, o.m)
  {
    var pm := FindPotentialMatches(item1, company2);
    if |pm| == 0 then
      NoCandidate
    else
      assert pm[0] in pm;
      if |pm| == 1 then
        assert forall x :: x in pm ==> x == pm[0];
        if IsExactMatch(item1, pm[0]) then Perfect(pm[0]) else Mismatch(pm[0])
      else
        Mismatch(FindBestMatch(item1, pm).value)
  }

  /** A pair of records reported by the matcher. */
  datatype MatchPair = MatchPair(company1: Record, company2: Record)

  /** The arrays the first loop of `matchRecords` has built after a prefix
      of company1: the pairs, and the transaction numbers whose records
      `removeFromUnmatched` has dropped from each side. */
  datatype Progress = Progress(
    perfect: seq<MatchPair>,
    mismatches: seq<MatchPair>,
    removed1: seq<Option<string>>,
    removed2: seq<Option<string>>)

  function Step(p: Progress, item1: Record, company2: seq<Record>): Progress {
    match Classify(item1, company2)
    case NoCandidate => p
    case Perfect(m) =>
      Progress(p.perfect + [MatchPair(item1, m)], p.mismatches,
        p.removed1 + [item1.transactionNumber], p.removed2 + [m.transactionNumber])
    case Mismatch(m) =>
      Progress(p.perfect, p.mismatches + [MatchPair(item1, m)],
        p.removed1 + [item1.transactionNumber], p.removed2 + [m.transactionNumber])
  }

  /** The first loop of `matchRecords` over `company1`, one `Step` per record. */
  function Matched(company1: seq<Record>, company2: seq<Record>): Progress
  {
    if company1 == [] then Progress([], [], [], [])
    else Step(Matched(company1[..|company1| - 1], company2), company1[|company1| - 1], company2)
  }

  /** Records that have some company2 record with a matching identifier. */
  function HasCandidateIn(company2: seq<Record>): Record -> bool {
    (item1: Record) => exists x :: x in company2 && IdMatch(item1, x)
  }

  /** Each company1 record gives at most one pair: exactly the records with a
      candidate give one, so there are no more pairs than company1 records. */
  lemma {:induction false} PairCount(company1: seq<Record>, company2: seq<Record>)
    ensures var p := Matched(company1, company2);
      |p.perfect| + |p.mismatches| == |p.removed1| == |p.removed2|
    ensures var p := Matched(company1, company2);
      |p.perfect| + |p.mismatches| == |Filter(company1, HasCandidateIn(company2))| <= |company1|
  {
    if company1 != [] {
      var init, last := company1[..|company1| - 1], company1[|company1| - 1];
      PairCount(init, company2);
      StepCount(Matched(init, company2), last, company2);
      assert company1 == init + [last];
      FilterConcat(init, [last], HasCandidateIn(company2));
    }
  }

  /** One record adds one pair and one removal on each side when it has a
      candidate, and nothing otherwise. */
  lemma StepCount(p: Progress, item1: Record, company2: seq<Record>)
    ensures var q, d := Step(p, item1, company2), if HasCandidateIn(company2)(item1) then 1 else 0;
      |q.perfect| + |q.mismatches| == |p.perfect| + |p.mismatches| + d &&
      |q.removed1| == |p.removed1| + d && |q.removed2| == |p.removed2| + d
  {
  }

  /** Every perfect pair is an exact match of a company1 record with its only
      candidate; every mismatch pairs a company1 record with a candidate of
      maximal score. */
  lemma {:induction false} PairsSound(company1: seq<Record>, company2: seq<Record>)
    ensures forall pr :: pr in Matched(company1, company2).perfect ==>
      pr.company1 in company1 && pr.company2 in company2 && IsExactMatch(pr.company1, pr.company2) &&
      |FindPotentialMatches(pr.company1, company2)| == 1
    ensures forall pr :: pr in Matched(company1, company2).mismatches ==>
      pr.company1 in company1 && pr.company2 in company2 && IdMatch(pr.company1, pr.company2) &&
      forall x :: x in company2 && IdMatch(pr.company1, x) ==>
        MatchScore(pr.company1, x) <= MatchScore(pr.company1, pr.company2)
  {
    if company1 != [] {
      PairsSound(company1[..|company1| - 1], company2);
    }
  }

  /** `unmatchedItems`, the object whose two arrays `removeFromUnmatched`
      reassigns. */
  class UnmatchedItems {
    var company1: seq<Record>
    var company2: seq<Record>

    constructor (c1: seq<Record>, c2: seq<Record>)
      ensures company1 == c1 && company2 == c2
    {
      company1 := c1;
      company2 := c2;
    }

    /** `removeFromUnmatched(unmatchedItems, item1, item2)`. */
    method RemoveFromUnmatched(item1: Record, item2: Record)
      modifies this
      ensures company1 == Filter(old(company1), NumberIsNot(item1.transactionNumber))
      ensures company2 == Filter(old(company2), NumberIsNot(item2.transactionNumber))
    {
      company1 := Filter(company1, NumberIsNot(item1.transactionNumber));
      company2 := Filter(company2, NumberIsNot(item2.transactionNumber));
    }
  }

  /** `item => item.transactionNumber !== k`; two absent numbers are equal. */
  function NumberIsNot(k: Option<string>): Record -> bool {
    (x: Record) => x.transactionNumber != k
  }

  function NumberNotIn(keys: seq<Option<string>>): Record -> bool {
    (x: Record) => x.transactionNumber !in keys
  }

  /** `removeFromUnmatched` keeps, in order and with their multiplicity,
      exactly the records whose transaction number differs from the matched
      record's. */
  lemma RemoveFromUnmatchedKeeps(s: seq<Record>, k: Option<string>)
    ensures forall x :: x in Filter(s, NumberIsNot(k)) <==> x in s && x.transactionNumber != k
    ensures forall x :: (multiset(Filter(s, NumberIsNot(k)))[x] ==
      if x.transactionNumber != k then multiset(s)[x] else 0)
    ensures Subsequence(Filter(s, NumberIsNot(k)), s)
  {
    FilterMultiset(s, NumberIsNot(k));
    FilterSubsequence(s, NumberIsNot(k));
  }

  /** Removing one more number from what is left of a list. */
  lemma RemoveMore(s: seq<Record>, keys: seq<Option<string>>, k: Option<string>)
    ensures Filter(Filter(s, NumberNotIn(keys)), NumberIsNot(k)) == Filter(s, NumberNotIn(keys + [k]))
  {
    FilterFilter(s, NumberNotIn(keys), NumberIsNot(k), NumberNotIn(keys + [k]));
  }

  lemma RemoveNone(s: seq<Record>)
    ensures Filter(s, NumberNotIn([])) == s
  {
    FilterAll(s, NumberNotIn([]));
  }

  /** A company1 record that was paired is no longer unmatched, and neither
      is any record sharing the transaction number of a paired record. */
  lemma PairedNotUnmatched(company1: seq<Record>, company2: seq<Record>)
    ensures var p := Matched(company1, company2);
      forall pr :: pr in p.perfect + p.mismatches ==>
        pr.company1 !in Filter(company1, NumberNotIn(p.removed1)) &&
        pr.company2 !in Filter(company2, NumberNotIn(p.removed2))
  {
    PairedNumbersRemoved(company1, company2);
  }

  lemma {:induction false} PairedNumbersRemoved(company1: seq<Record>, company2: seq<Record>)
    ensures var p := Matched(company1, company2);
      forall pr :: pr in p.perfect + p.mismatches ==>
        pr.company1.transactionNumber in p.removed1 && pr.company2.transactionNumber in p.removed2
  {
    if company1 != [] {
      PairedNumbersRemoved(company1[..|company1| - 1], company2);
    }
  }

  /** `sortedMatches[0]` after sorting by the comparator of `matchRecords`:
      `a` goes before `b` when only `a` is paid, or when both have the same
      paid flag and dates and `a` is the more recent. */
  predicate Before(a: Record, b: Record) {
    (a.isPaid && !b.isPaid) ||
    (a.isPaid == b.isPaid && a.date.Some? && b.date.Some? && b.date.value - a.date.value < 0)
  }

  /** The record a scan keeps when it switches to a record only when the
      comparator puts it strictly first. When every record has a date the
      comparator is a consistent order, and this is `sortedMatches[0]`:
      no record precedes it (BestHistoricalMinimal). */
  function BestHistorical(s: seq<Record>): (r: Record)
    requires |s| > 0
    ensures r in s
  {
    if |s| == 1 then s[0]
    else
      var b := BestHistorical(s[..|s| - 1]);
      if Before(s[|s| - 1], b) then s[|s| - 1] else b
  }

  /** With every record dated, no record goes strictly before the chosen
      one, as for the head of a list sorted by the comparator. */
  lemma {:induction false} BestHistoricalMinimal(s: seq<Record>)
    requires |s| > 0 && forall i :: 0 <= i < |s| ==> s[i].date.Some?
    ensures forall x :: x in s ==> !Before(x, BestHistorical(s))
  {
    if |s| > 1 {
      var init := s[..|s| - 1];
      BestHistoricalMinimal(init);
      assert s == init + [s[|s| - 1]];
    }
  }

  /** A paid record is chosen whenever there is one. */
  lemma {:induction false} BestHistoricalPaid(s: seq<Record>)
    requires |s| > 0
    ensures BestHistorical(s).isPaid <==> exists x :: x in s && x.isPaid
  {
    if |s| > 1 {
      var init := s[..|s| - 1];
      BestHistoricalPaid(init);
      assert s == init + [s[|s| - 1]];
      if exists x :: x in s && x.isPaid {
        var x :| x in s && x.isPaid;
        if x !in init {
          assert x == s[|s| - 1];
        }
      }
    }
  }

  /** `findHistoricalMatches(apItem, historicalData)`: the same identifier
      test as `findPotentialMatches`. */
  function FindHistoricalMatches(apItem: Record, historicalData: seq<Record>): (r: seq<Record>)
    ensures forall x :: x in r <==> x in historicalData && IdMatch(apItem, x)
    ensures Subsequence(r, historicalData)
  {
    FindPotentialMatches(apItem, historicalData)
  }

  datatype InsightKind = AlreadyPaid | Voided | Draft | FoundInHistory
  datatype Severity = Info | Warning | Error

  /** The `type` string of an insight. */
  function KindName(k: InsightKind): string {
    match k
    case AlreadyPaid => "already_paid"
    case Voided => "voided"
    case Draft => "draft"
    case FoundInHistory => "found_in_history"
  }

  function SeverityName(s: Severity): string {
    match s
    case Info => "info"
    case Warning => "warning"
    case Error => "error"
  }

  datatype Insight = Insight(kind: InsightKind, message: string, severity: Severity)

  /** A template literal `${x}` for an optional text. */
  function TemplateText(x: Option<string>): string {
    match x
    case Some(s) => s
    case None => "undefined"
  }

  /** `dayjs(paymentDate).format('MMM D, YYYY')`; the formatting of a day in
      the local time zone is the parameter `dateText`. */
  function PaymentDateText(paymentDate: Option<int>, dateText: int -> string): string {
    match paymentDate
    case Some(d) => dateText(d)
    case None => "Invalid Date"
  }

  /** `determineHistoricalInsight(apItem, historicalItem)`: paid takes
      precedence over voided, voided over a DRAFT status; the severity is
      warning, error, info and info. */
  function DetermineHistoricalInsight(apItem: Record, h: Record, dateText: int -> string): (r: Insight)
    ensures r.kind == AlreadyPaid <==> h.isPaid
    ensures r.kind == Voided <==> !h.isPaid && h.isVoided
    ensures r.kind == Draft <==> !h.isPaid && !h.isVoided && h.status == Some("DRAFT")
    ensures r.severity == Warning <==> r.kind == AlreadyPaid
    ensures r.severity == Error <==> r.kind == Voided
    ensures StartsWith(r.message, "Invoice " + TemplateText(apItem.transactionNumber) + " ")
  {
    var head := "Invoice " + TemplateText(apItem.transactionNumber) + " ";
    var r :=
      if h.isPaid then
        Insight(AlreadyPaid, head + "appears to have been paid on " + PaymentDateText(h.paymentDate, dateText), Warning)
      else if h.isVoided then
        Insight(Voided, head + "was voided in the AR system", Error)
      else if h.status == Some("DRAFT") then
        Insight(Draft, head + "exists as a draft in the AR system", Info)
      else
        Insight(FoundInHistory, head + "found in AR history with status: " + TemplateText(h.status), Info);
    assert r.message[..|head|] == head;
    r
  }

  datatype HistoricalInsight = HistoricalInsight(apItem: Record, historicalMatch: Record, insight: Insight)

  /** The second loop of `matchRecords` over the unmatched payables. */
  function InsightsFor(unmatched2: seq<Record>, historicalData: seq<Record>, dateText: int -> string): seq<HistoricalInsight>
  {
    if unmatched2 == [] then []
    else
      var init := InsightsFor(unmatched2[..|unmatched2| - 1], historicalData, dateText);
      var ap := unmatched2[|unmatched2| - 1];
      var hm := FindHistoricalMatches(ap, historicalData);
      if |hm| > 0 then
        var best := BestHistorical(hm);
        init + [HistoricalInsight(ap, best, DetermineHistoricalInsight(ap, best, dateText))]
      else init
  }

  /** The historical insights: none at all without historical data. */
  function Insights(unmatched2: seq<Record>, historicalData: seq<Record>, dateText: int -> string): seq<HistoricalInsight>
  {
    if |historicalData| > 0 then InsightsFor(unmatched2, historicalData, dateText) else []
  }

  /** An insight is reported only for a payable left unmatched that has a
      historical record with a matching identifier; its historical record
      is one of those, paid whenever one of them is paid, and the insight
      describes it. */
  lemma {:induction false} InsightsSound(unmatched2: seq<Record>, historicalData: seq<Record>, dateText: int -> string)
    ensures |Insights(unmatched2, historicalData, dateText)| <= |unmatched2|
    ensures historicalData == [] ==> Insights(unmatched2, historicalData, dateText) == []
    ensures forall hi :: hi in Insights(unmatched2, historicalData, dateText) ==>
      hi.apItem in unmatched2 && hi.historicalMatch in historicalData &&
      IdMatch(hi.apItem, hi.historicalMatch) &&
      (hi.historicalMatch.isPaid <==> exists x :: x in historicalData && IdMatch(hi.apItem, x) && x.isPaid) &&
      hi.insight == DetermineHistoricalInsight(hi.apItem, hi.historicalMatch, dateText)
  {
    if historicalData != [] {
      InsightsForSound(unmatched2, historicalData, dateText);
    }
  }

  lemma {:induction false} InsightsForSound(unmatched2: seq<Record>, historicalData: seq<Record>, dateText: int -> string)
    ensures |InsightsFor(unmatched2, historicalData, dateText)| <= |unmatched2|
    ensures forall hi :: hi in InsightsFor(unmatched2, historicalData, dateText) ==>
      hi.apItem in unmatched2 && hi.historicalMatch in historicalData &&
      IdMatch(hi.apItem, hi.historicalMatch) &&
      (hi.historicalMatch.isPaid <==> exists x :: x in historicalData && IdMatch(hi.apItem, x) && x.isPaid) &&
      hi.insight == DetermineHistoricalInsight(hi.apItem, hi.historicalMatch, dateText)
  {
    if unmatched2 != [] {
      var init := unmatched2[..|unmatched2| - 1];
      var ap := unmatched2[|unmatched2| - 1];
      InsightsForSound(init, historicalData, dateText);
      var hm := FindHistoricalMatches(ap, historicalData);
      if |hm| > 0 {
        BestHistoricalPaid(hm);
      }
    }
  }

  /** `parseAmount(value)`: 0 for null, undefined and the empty text, a
      number unchanged, and for other text `parseFloat` of what is left
      after deleting everything but digits, '.' and '-', with 0 for NaN. */
  function ParseAmount(v: Value): (r: Num)
    ensures v.Number? ==> r == v.n
    ensures !v.Number? ==> r.Fin?
    ensures v.Undefined? || v.Null? || v == Str("") || v.Bool? ==> r == Fin(0.0)
  {
    match v
    case Number(n) => n
    case Str(s) =>
      if s == "" then Fin(0.0)
      else
        var n := ParseFloat(RemoveWhere(s, NotAmountChar));
        if n.NaN? then Fin(0.0) else n
    case _ => Fin(0.0)
  }

  /** The characters the pattern `[^\d.-]` matches. */
  predicate NotAmountChar(c: char) {
    !(IsDigit(c) || c == '.' || c == '-')
  }

  /** A character other than a digit, '.' or '-' anywhere in the text,
      such as a currency sign, a comma or a space, changes nothing. */
  lemma ParseAmountIgnoresNonAmountChar(a: string, c: char, b: string)
    requires NotAmountChar(c) && a + b != ""
    ensures ParseAmount(Str(a + [c] + b)) == ParseAmount(Str(a + b))
  {
    RemoveWhereDropped(a, c, b, NotAmountChar);
  }

  /** A text without a digit, such as "abc" or "-", counts as 0. */
  lemma ParseAmountWithoutDigits(s: string)
    requires forall i :: 0 <= i < |s| ==> !IsDigit(s[i])
    ensures ParseAmount(Str(s)) == Fin(0.0)
  {
    if s != "" {
      var t := RemoveWhere(s, NotAmountChar);
      assert forall i :: 0 <= i < |t| ==> !IsDigit(t[i]);
      ParseFloatNoDigit(t);
    }
  }

  /** `parseAmount` reads back the text `toFixed(2)` prints. */
  lemma ParseAmountOfFixed(x: real)
    ensures ParseAmount(Str(ToFixed2(Fin(x)))) == Fin(Round2(x))
  {
    FixedKeepsAmountChars(x);
    ParseFloatOfToFixed2(x);
  }

  lemma FixedKeepsAmountChars(x: real)
    ensures var s := ToFixed2(Fin(x)); s != "" && RemoveWhere(s, NotAmountChar) == s
  {
    var s := ToFixed2(Fin(x));
    ToFixed2Chars(x);
    ToFixed2Shape(x);
    assert forall i :: 0 <= i < |s| ==> !NotAmountChar(s[i]);
  }

  /** `calculateTotal(data)`: the sum of the amounts, NaN and missing ones
      counting as 0. */
  function CalculateTotal(data: seq<Record>): real {
    Sum(data, RecordAmount)
  }

  function RecordAmount(r: Record): real {
    AmountOrZero(r.amount)
  }

  /** The total adds up over concatenation, and one record contributes its
      amount when it is a number and nothing otherwise. */
  lemma CalculateTotalParts(a: seq<Record>, b: seq<Record>, r: Record)
    ensures CalculateTotal(a + b) == CalculateTotal(a) + CalculateTotal(b)
    ensures CalculateTotal([r]) == if r.amount.Fin? then r.amount.val else 0.0
  {
    SumConcat(a, b, RecordAmount);
    assert [r][1..] == [];
    assert Sum([r], RecordAmount) == RecordAmount(r) + Sum([], RecordAmount);
  }

  /** `calculateVariance(total1, total2)`: the distance between `total1` and
      the magnitude of `total2`. */
  function CalculateVariance(total1: real, total2: real): (r: real)
    ensures r >= 0.0
    ensures r == 0.0 <==> total1 == AbsReal(total2)
    ensures r == total1 - AbsReal(total2) || r == AbsReal(total2) - total1
  {
    AbsReal(total1 - AbsReal(total2))
  }

  /** The object `matchRecords` returns. */
  datatype MatchResult = MatchResult(
    perfectMatches: seq<MatchPair>,
    mismatches: seq<MatchPair>,
    unmatched1: seq<Record>,
    unmatched2: seq<Record>,
    historicalInsights: seq<HistoricalInsight>,
    company1Total: real,
    company2Total: real,
    variance: real)

  lemma MatchedSnoc(company1: seq<Record>, i: nat, company2: seq<Record>)
    requires i < |company1|
    ensures Matched(company1[..i + 1], company2) == Step(Matched(company1[..i], company2), company1[i], company2)
  {
    assert company1[..i + 1][..i] == company1[..i];
  }

  /** The first loop of `matchRecords`: the pairs and what is left unmatched
      on each side. */
  method PairUp(company1: seq<Record>, company2: seq<Record>)
    returns (perfectMatches: seq<MatchPair>, mismatches: seq<MatchPair>,
             unmatched1: seq<Record>, unmatched2: seq<Record>)
    ensures var p := Matched(company1, company2);
      perfectMatches == p.perfect && mismatches == p.mismatches &&
      unmatched1 == Filter(company1, NumberNotIn(p.removed1)) &&
      unmatched2 == Filter(company2, NumberNotIn(p.removed2))
  {
    perfectMatches, mismatches := [], [];
    var unmatchedItems := new UnmatchedItems(company1, company2);
    ghost var removed1: seq<Option<string>> := [];
    ghost var removed2: seq<Option<string>> := [];
    RemoveNone(company1);
    RemoveNone(company2);

    var i := 0;
    while i < |company1|
      invariant 0 <= i <= |company1|
      invariant Matched(company1[..i], company2) == Progress(perfectMatches, mismatches, removed1, removed2)
      invariant unmatchedItems.company1 == Filter(company1, NumberNotIn(removed1))
      invariant unmatchedItems.company2 == Filter(company2, NumberNotIn(removed2))
    {
      var item1 := company1[i];
      MatchedSnoc(company1, i, company2);
      var potential := FindPotentialMatches(item1, company2);
      var m: Record;
      if |potential| == 1 {
        m := potential[0];
        if IsExactMatch(item1, m) {
          assert Classify(item1, company2) == Perfect(m);
          perfectMatches := perfectMatches + [MatchPair(item1, m)];
        } else {
          assert Classify(item1, company2) == Mismatch(m);
          mismatches := mismatches + [MatchPair(item1, m)];
        }
      } else if |potential| > 1 {
        m := FindBestMatch(item1, potential).value;
        assert Classify(item1, company2) == Mismatch(m);
        mismatches := mismatches + [MatchPair(item1, m)];
      }
      if |potential| > 0 {
        RemoveMore(company1, removed1, item1.transactionNumber);
        RemoveMore(company2, removed2, m.transactionNumber);
        unmatchedItems.RemoveFromUnmatched(item1, m);
        removed1, removed2 := removed1 + [item1.transactionNumber], removed2 + [m.transactionNumber];
      } else {
        assert Classify(item1, company2) == NoCandidate;
      }
      i := i + 1;
    }
    assert company1[..i] == company1;
    unmatched1, unmatched2 := unmatchedItems.company1, unmatchedItems.company2;
  }

  /** The second loop of `matchRecords`, run only with historical data. */
  method CollectInsights(unmatched2: seq<Record>, historicalData: seq<Record>, dateText: int -> string)
    returns (insights: seq<HistoricalInsight>)
    ensures insights == Insights(unmatched2, historicalData, dateText)
  {
    insights := [];
    if |historicalData| > 0 {
      var k := 0;
      while k < |unmatched2|
        invariant 0 <= k <= |unmatched2|
        invariant insights == InsightsFor(unmatched2[..k], historicalData, dateText)
      {
        var apItem := unmatched2[k];
        assert unmatched2[..k + 1][..k] == unmatched2[..k];
        var historicalMatches := FindHistoricalMatches(apItem, historicalData);
        if |historicalMatches| > 0 {
          var bestHistoricalMatch := BestHistorical(historicalMatches);
          insights := insights + [HistoricalInsight(apItem, bestHistoricalMatch,
            DetermineHistoricalInsight(apItem, bestHistoricalMatch, dateText))];
        }
        k := k + 1;
      }
      assert unmatched2[..k] == unmatched2;
    }
  }

  /** `matchRecords` on normalised data. */
  method MatchRecords(company1: seq<Record>, company2: seq<Record>, historicalData: seq<Record>,
                      dateText: int -> string) returns (r: MatchResult)
    ensures var p := Matched(company1, company2);
      r.perfectMatches == p.perfect && r.mismatches == p.mismatches &&
      r.unmatched1 == Filter(company1, NumberNotIn(p.removed1)) &&
      r.unmatched2 == Filter(company2, NumberNotIn(p.removed2))
    ensures r.historicalInsights == Insights(r.unmatched2, historicalData, dateText)
    ensures r.company1Total == CalculateTotal(company1) && r.company2Total == CalculateTotal(company2)
    ensures r.variance == CalculateVariance(r.company1Total, r.company2Total)
  {
    var total1 := CalculateTotal(company1);
    var total2 := CalculateTotal(company2);
    var perfectMatches, mismatches, unmatched1, unmatched2 := PairUp(company1, company2);
    var insights := CollectInsights(unmatched2, historicalData, dateText);
    r := MatchResult(perfectMatches, mismatches, unmatched1, unmatched2, insights,
      total1, total2, CalculateVariance(total1, total2));
  }
}
