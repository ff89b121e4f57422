/** The front-end matcher `TransactionMatcher` of
    frontend/src/utils/matchingLogic.js: a configurable pairwise test with a
    confidence score, and a greedy one-to-one matching of company1
    transactions against company2 transactions. */
module TransactionMatching {
  import opened Results
  import opened Strings
  import opened JsNumbers
  import opened JsValues

  /** The matcher's configuration. Tolerances are exact reals. */
  datatype Config = Config(
    dateTolerance: real,
    amountTolerance: real,
    matchByReference: bool,
    strictTransactionTypes: bool)

  /** The keys a caller passes to the constructor; None is a key left out. */
  datatype ConfigOverrides = ConfigOverrides(
    dateTolerance: Option<real>,
    amountTolerance: Option<real>,
    matchByReference: Option<bool>,
    strictTransactionTypes: Option<bool>)

  const NoOverrides := ConfigOverrides(None, None, None, None)

  /** `new TransactionMatcher(config)`: the defaults, each replaced by the
      caller's value when the caller gives that key. */
  function MakeConfig(o: ConfigOverrides): (c: Config)
    ensures o.dateTolerance.Some? ==> c.dateTolerance == o.dateTolerance.value
    ensures o.amountTolerance.Some? ==> c.amountTolerance == o.amountTolerance.value
    ensures o.matchByReference.Some? ==> c.matchByReference == o.matchByReference.value
    ensures o.strictTransactionTypes.Some? ==> c.strictTransactionTypes == o.strictTransactionTypes.value
  {
    Config(o.dateTolerance.GetOr(0.0), o.amountTolerance.GetOr(0.01),
      o.matchByReference.GetOr(false), o.strictTransactionTypes.GetOr(true))
  }

  /** Without overrides the tolerances are 0 days and 0.01, references are
      not compared and transaction types must agree. */
  lemma DefaultConfig()
    ensures MakeConfig(NoOverrides) == Config(0.0, 0.01, false, true)
  {
  }

  /** A transaction as the matcher reads it. The issue date is the time
      value of `new Date(issue_date)` in milliseconds, None for an invalid
      date (NaN). */
  datatype Transaction = Transaction(
    transactionNumber: Value,
    kind: Value,
    amount: Value,
    issueDate: Option<int>,
    reference: Option<string>)

  /** `amountsMatch(amount1, amount2)`: both parse as numbers and differ by
      at most the tolerance; NaN matches nothing. */
  predicate AmountsMatch(c: Config, amount1: Value, amount2: Value) {
    var a1 := ParseFloatValue(amount1);
    var a2 := ParseFloatValue(amount2);
    a1.Fin? && a2.Fin? && AbsReal(a1.val - a2.val) <= c.amountTolerance
  }

  const MsPerDay: nat := 1000 * 60 * 60 * 24

  /** `Math.ceil(Math.abs(d2 - d1) / (1000 * 60 * 60 * 24))`: the distance
      between two time values in days, rounded up. */
  function DiffDays(t1: int, t2: int): (r: nat)
    ensures var diff := if t1 <= t2 then t2 - t1 else t1 - t2;
      diff <= r * MsPerDay && (r == 0 || (r - 1) * MsPerDay < diff)
  {
    var diff := if t1 <= t2 then t2 - t1 else t1 - t2;
    CeilDiv(diff, MsPerDay)
  }

  /** Division rounded up, for a non-negative numerator. */
  function CeilDiv(n: nat, m: nat): (r: nat)
    requires m > 0
    ensures n <= r * m && (r == 0 || (r - 1) * m < n)
  {
    var q := (n + m - 1) / m;
    DivBounds(n + m - 1, m);
    q
  }

  lemma DivBounds(n: nat, m: nat)
    requires m > 0
    ensures (n / m) * m <= n < (n / m) * m + m
  {
  }

  /** `datesMatch(date1, date2)`: both valid and at most the tolerance apart,
      counted in whole days rounded up; a comparison with NaN is false. */
  predicate DatesMatch(c: Config, date1: Option<int>, date2: Option<int>) {
    date1.Some? && date2.Some? && DiffDays(date1.value, date2.value) as real <= c.dateTolerance
  }

  /** Both tests are symmetric and accept a difference of exactly the
      tolerance. */
  lemma MatchesSymmetric(c: Config, amount1: Value, amount2: Value, date1: Option<int>, date2: Option<int>)
    ensures AmountsMatch(c, amount1, amount2) == AmountsMatch(c, amount2, amount1)
    ensures DatesMatch(c, date1, date2) == DatesMatch(c, date2, date1)
  {
  }

  lemma MatchesInclusive(c: Config, x: real, d: int, k: nat)
    requires c.amountTolerance >= 0.0 && c.dateTolerance == k as real
    ensures AmountsMatch(c, Number(Fin(x)), Number(Fin(x + c.amountTolerance)))
    ensures DatesMatch(c, Some(d), Some(d + k * MsPerDay))
    ensures !DatesMatch(c, Some(d), Some(d + k * MsPerDay + 1))
  {
    var r1 := DiffDays(d, d + k * MsPerDay);
    var r2 := DiffDays(d, d + k * MsPerDay + 1);
    CeilExact(k, r1);
    CeilAbove(k, r2);
  }

  /** A distance of exactly k days is k days. */
  lemma CeilExact(k: nat, r: nat)
    requires k * MsPerDay <= r * MsPerDay && (r == 0 || (r - 1) * MsPerDay < k * MsPerDay)
    ensures r == k
  {
    MulLe(r, k);
    MulLe(k, r - 1);
  }

  /** One millisecond more than k days is more than k days. */
  lemma CeilAbove(k: nat, r: nat)
    requires k * MsPerDay + 1 <= r * MsPerDay
    ensures r > k
  {
    MulLe(r, k);
  }

  lemma MulLe(a: int, b: int)
    ensures a <= b ==> a * MsPerDay <= b * MsPerDay
    ensures a < b ==> a * MsPerDay < b * MsPerDay
  {
  }

  /** With the default tolerance of 0, two times of the same calendar day
      that are two hours apart do not match: only equal times do. */
  lemma SameDayApartMisses(d: int)
    ensures !DatesMatch(MakeConfig(NoOverrides), Some(d), Some(d + 2 * 60 * 60 * 1000))
    ensures DatesMatch(MakeConfig(NoOverrides), Some(d), Some(d))
  {
    DefaultConfig();
  }

  datatype MatchType = Exact | Partial | NoMatch

  /** The `matchType` string. */
  function MatchTypeName(t: MatchType): string {
    match t
    case Exact => "exact"
    case Partial => "partial"
    case NoMatch => "none"
  }

  /** The result of `transactionsMatch`; the confidence is in tenths. */
  datatype MatchResult = MatchResult(matched: bool, matchType: MatchType, confidence: nat)

  /** The score of the non-exact path, in tenths: 4 for the amount, 3 for
      the date and 3 for a reference equal up to case, which counts only
      with `matchByReference`. */
  function Score(c: Config, t1: Transaction, t2: Transaction): (s: nat)
    ensures s <= 10
  {
    (if AmountsMatch(c, t1.amount, t2.amount) then 4 else 0) +
    (if DatesMatch(c, t1.issueDate, t2.issueDate) then 3 else 0) +
    (if ReferencesMatch(c, t1.reference, t2.reference) then 3 else 0)
  }

  predicate ReferencesMatch(c: Config, r1: Option<string>, r2: Option<string>) {
    c.matchByReference && r1.Some? && r2.Some? && r1.value != "" && r2.value != "" &&
    ToLowerAscii(r1.value) == ToLowerAscii(r2.value)
  }

  /** `transactionsMatch(transaction1, transaction2)`. */
  function TransactionsMatch(c: Config, t1: Transaction, t2: Transaction): (r: MatchResult)
    ensures StrictEquals(t1.transactionNumber, t2.transactionNumber) ==> r == MatchResult(true, Exact, 10)
    ensures (!StrictEquals(t1.transactionNumber, t2.transactionNumber) && c.strictTransactionTypes &&
      !StrictEquals(t1.kind, t2.kind)) ==> r == MatchResult(false, NoMatch, 0)
    ensures r.matched <==> r.matchType != NoMatch
    ensures r.matchType == Partial ==> 7 <= r.confidence <= 10
    ensures r.confidence <= 10
  {
    if StrictEquals(t1.transactionNumber, t2.transactionNumber) then MatchResult(true, Exact, 10)
    else if c.strictTransactionTypes && !StrictEquals(t1.kind, t2.kind) then MatchResult(false, NoMatch, 0)
    else
      var s := Score(c, t1, t2);
      MatchResult(s >= 7, if s >= 7 then Partial else NoMatch, s)
  }

  /** A partial match needs agreeing amounts, since the date and the
      reference together give only 6 tenths; below 7 tenths there is no
      match. */
  lemma PartialNeedsAmount(c: Config, t1: Transaction, t2: Transaction)
    ensures TransactionsMatch(c, t1, t2).matchType == Partial ==> AmountsMatch(c, t1.amount, t2.amount)
    ensures TransactionsMatch(c, t1, t2).matchType == Partial <==>
      !StrictEquals(t1.transactionNumber, t2.transactionNumber) &&
      !(c.strictTransactionTypes && !StrictEquals(t1.kind, t2.kind)) && Score(c, t1, t2) >= 7
  {
  }

  /** The reference test ignores the case of ASCII letters. */
  lemma ReferenceIgnoresCase(c: Config, r1: string, r2: string)
    requires c.matchByReference && r1 != "" && r2 != "" && ToLowerAscii(r1) == ToLowerAscii(r2)
    ensures ReferencesMatch(c, Some(r1), Some(r2))
  {
  }

  /** A function from a pair of transactions to its match result. The
      greedy pass below is stated for any such function; `matchTransactions`
      uses `transactionsMatch`. */
  type Scorer = (Transaction, Transaction) -> MatchResult

  function ScorerOf(c: Config): (f: Scorer)
    ensures forall t1, t2 :: f(t1, t2) == TransactionsMatch(c, t1, t2)
    ensures PositiveWhenMatched(f)
  {
    (t1, t2) => TransactionsMatch(c, t1, t2)
  }

  /** A matched pair scores above the inner loop's starting score of 0, so
      the loop can take it. */
  ghost predicate PositiveWhenMatched(f: Scorer) {
    forall t1, t2 :: f(t1, t2).matched ==> f(t1, t2).confidence > 0
  }

  /** The candidate the inner loop of `matchTransactions` holds after
      looking at the first `n` company2 transactions: its index (-1 for
      none) and score. A candidate replaces the held one only with a
      strictly higher confidence. */
  function BestPrefix(f: Scorer, t1: Transaction, c2: seq<Transaction>, used: set<int>, n: nat): (b: (int, nat))
    requires n <= |c2|
    ensures b.0 == -1 ==> b.1 == 0
    ensures b.0 != -1 ==> 0 <= b.0 < n && b.0 !in used && f(t1, c2[b.0]).matched && f(t1, c2[b.0]).confidence == b.1
  {
    if n == 0 then (-1, 0)
    else
      var b := BestPrefix(f, t1, c2, used, n - 1);
      var m := f(t1, c2[n - 1]);
      if n - 1 !in used && m.matched && m.confidence > b.1 then (n - 1, m.confidence) else b
  }

  /** The held candidate has the highest confidence among the matching
      untaken transactions seen, and is the first one with that confidence:
      there is a candidate exactly when some untaken transaction matches. */
  lemma {:induction false} BestPrefixIsBest(f: Scorer, t1: Transaction, c2: seq<Transaction>, used: set<int>, n: nat)
    requires n <= |c2| && PositiveWhenMatched(f)
    ensures var b := BestPrefix(f, t1, c2, used, n);
      forall j :: 0 <= j < n && j !in used && f(t1, c2[j]).matched ==>
        b.0 != -1 && f(t1, c2[j]).confidence <= b.1
    ensures var b := BestPrefix(f, t1, c2, used, n);
      b.0 != -1 ==> forall j :: 0 <= j < b.0 && j !in used && f(t1, c2[j]).matched ==>
        f(t1, c2[j]).confidence < b.1
  {
    if n > 0 {
      BestPrefixIsBest(f, t1, c2, used, n - 1);
      BestPrefixNext(f, t1, c2, used, n - 1);
      var m := f(t1, c2[n - 1]);
      assert m.matched ==> m.confidence > 0;
    }
  }

  lemma BestPrefixNext(f: Scorer, t1: Transaction, c2: seq<Transaction>, used: set<int>, j: nat)
    requires j < |c2|
    ensures var b := BestPrefix(f, t1, c2, used, j);
      var m := f(t1, c2[j]);
      BestPrefix(f, t1, c2, used, j + 1) == if j !in used && m.matched && m.confidence > b.1 then (j, m.confidence) else b
  {
  }

  /** The inner loop of `matchTransactions` for one company1 transaction. */
  method FindBestCandidate(f: Scorer, t1: Transaction, c2: seq<Transaction>, used: set<int>)
    returns (bestIndex: int, bestScore: nat)
    ensures (bestIndex, bestScore) == BestPrefix(f, t1, c2, used, |c2|)
  {
    bestIndex, bestScore := -1, 0;
    var j := 0;
    while j < |c2|
      invariant 0 <= j <= |c2|
      invariant (bestIndex, bestScore) == BestPrefix(f, t1, c2, used, j)
    {
      BestPrefixNext(f, t1, c2, used, j);
      if j !in used {
        var m := f(t1, c2[j]);
        if m.matched && m.confidence > bestScore {
          bestIndex, bestScore := j, m.confidence;
        }
      }
      j := j + 1;
    }
  }

  /** An entry of `results.matches`. */
  datatype Match = Match(
    company1Transaction: Transaction,
    company2Transaction: Transaction,
    matchType: MatchType,
    confidence: nat)

  /** The outer loop of `matchTransactions` after a prefix of company1: the
      matches, the company2 indices they took in that order, and the company1
      transactions left unmatched. */
  datatype Greedy = Greedy(matches: seq<Match>, taken: seq<int>, unmatched1: seq<Transaction>)

  function TakenSet(taken: seq<int>): set<int> {
    set k | 0 <= k < |taken| :: taken[k]
  }

  function GreedyPrefix(f: Scorer, c1: seq<Transaction>, c2: seq<Transaction>, n: nat): Greedy
    requires n <= |c1|
  {
    if n == 0 then Greedy([], [], [])
    else
      var g := GreedyPrefix(f, c1, c2, n - 1);
      var b := BestPrefix(f, c1[n - 1], c2, TakenSet(g.taken), |c2|);
      if b.0 != -1 then
        var m := f(c1[n - 1], c2[b.0]);
        Greedy(g.matches + [Match(c1[n - 1], c2[b.0], m.matchType, m.confidence)], g.taken + [b.0], g.unmatched1)
      else Greedy(g.matches, g.taken, g.unmatched1 + [c1[n - 1]])
  }

  /** The company2 transactions among the first `n` whose index was never
      taken, in their original order. */
  function Untaken(c2: seq<Transaction>, used: set<int>, n: nat): (r: seq<Transaction>)
    requires n <= |c2|
    ensures |r| <= n
  {
    if n == 0 then []
    else Untaken(c2, used, n - 1) + (if n - 1 in used then [] else [c2[n - 1]])
  }

  /** The partial matches whose amounts disagree (`mismatches.amount`) and
      whose dates disagree (`mismatches.date`). */
  function AmountMismatches(c: Config, ms: seq<Match>): (r: seq<Match>)
    ensures forall m :: m in r <==>
      (m in ms && m.matchType == Partial && !AmountsMatch(c, m.company1Transaction.amount, m.company2Transaction.amount))
  {
    if ms == [] then []
    else
      var init := AmountMismatches(c, ms[..|ms| - 1]);
      var m := ms[|ms| - 1];
      if m.matchType == Partial && !AmountsMatch(c, m.company1Transaction.amount, m.company2Transaction.amount)
      then init + [m] else init
  }

  function DateMismatches(c: Config, ms: seq<Match>): (r: seq<Match>)
    ensures forall m :: m in r <==>
      (m in ms && m.matchType == Partial && !DatesMatch(c, m.company1Transaction.issueDate, m.company2Transaction.issueDate))
  {
    if ms == [] then []
    else
      var init := DateMismatches(c, ms[..|ms| - 1]);
      var m := ms[|ms| - 1];
      if m.matchType == Partial && !DatesMatch(c, m.company1Transaction.issueDate, m.company2Transaction.issueDate)
      then init + [m] else init
  }

  function PartialCount(ms: seq<Match>): nat {
    if ms == [] then 0 else PartialCount(ms[..|ms| - 1]) + (if ms[|ms| - 1].matchType == Partial then 1 else 0)
  }

  datatype Summary = Summary(totalTransactions: nat, matchedCount: nat, mismatchCount: nat, unmatchedCount: nat)

  /** The object `matchTransactions` returns; `mismatches.other` is always
      empty and is left out. */
  datatype MatchOutput = MatchOutput(
    matches: seq<Match>,
    amountMismatches: seq<Match>,
    dateMismatches: seq<Match>,
    unmatched1: seq<Transaction>,
    unmatched2: seq<Transaction>,
    summary: Summary)

  lemma GreedyNext(f: Scorer, c1: seq<Transaction>, c2: seq<Transaction>, i: nat)
    requires i < |c1|
    ensures var g := GreedyPrefix(f, c1, c2, i);
      var b := BestPrefix(f, c1[i], c2, TakenSet(g.taken), |c2|);
      GreedyPrefix(f, c1, c2, i + 1) ==
        if b.0 != -1 then
          var m := f(c1[i], c2[b.0]);
          Greedy(g.matches + [Match(c1[i], c2[b.0], m.matchType, m.confidence)], g.taken + [b.0], g.unmatched1)
        else Greedy(g.matches, g.taken, g.unmatched1 + [c1[i]])
  {
  }

  /** One turn of the loop from the state after `i` items, given the index
      the search returned. */
  lemma GreedyAdvance(f: Scorer, c1: seq<Transaction>, c2: seq<Transaction>, i: nat, g: Greedy, best: int)
    requires i < |c1| && GreedyPrefix(f, c1, c2, i) == g
    requires best == BestPrefix(f, c1[i], c2, TakenSet(g.taken), |c2|).0
    ensures best != -1 ==> 0 <= best < |c2|
    ensures best != -1 ==>
      GreedyPrefix(f, c1, c2, i + 1) ==
        Greedy(g.matches + [Match(c1[i], c2[best], f(c1[i], c2[best]).matchType,
                                  f(c1[i], c2[best]).confidence)],
               g.taken + [best], g.unmatched1)
    ensures best == -1 ==> GreedyPrefix(f, c1, c2, i + 1) == Greedy(g.matches, g.taken, g.unmatched1 + [c1[i]])
  {
    GreedyNext(f, c1, c2, i);
  }

  lemma TakenSnoc(taken: seq<int>, j: int)
    ensures TakenSet(taken + [j]) == TakenSet(taken) + {j}
  {
    var t := taken + [j];
    forall x | x in TakenSet(t) ensures x in TakenSet(taken) + {j} {
      var k :| 0 <= k < |t| && t[k] == x;
      if k < |taken| {
        assert taken[k] == x;
      }
    }
    forall x | x in TakenSet(taken) + {j} ensures x in TakenSet(t) {
      if x == j {
        assert t[|taken|] == j;
      } else {
        var k :| 0 <= k < |taken| && taken[k] == x;
        assert t[k] == x;
      }
    }
  }

  /** The greedy pass keeps one taken index per match, and every
      company1 transaction is either matched or left unmatched. */
  lemma {:induction false} GreedyCounts(f: Scorer, c1: seq<Transaction>, c2: seq<Transaction>, n: nat)
    requires n <= |c1|
    ensures var g := GreedyPrefix(f, c1, c2, n);
      |g.matches| == |g.taken| && |g.matches| + |g.unmatched1| == n
  {
    if n > 0 {
      GreedyCounts(f, c1, c2, n - 1);
    }
  }

  /** The taken indices are distinct positions of company2: no company2
      transaction is matched twice. */
  lemma {:induction false} GreedyTakesDistinct(f: Scorer, c1: seq<Transaction>, c2: seq<Transaction>, n: nat)
    requires n <= |c1|
    ensures var t := GreedyPrefix(f, c1, c2, n).taken;
      forall k :: 0 <= k < |t| ==> 0 <= t[k] < |c2|
    ensures var t := GreedyPrefix(f, c1, c2, n).taken;
      forall k, l :: 0 <= k < l < |t| ==> t[k] != t[l]
  {
    if n > 0 {
      var g := GreedyPrefix(f, c1, c2, n - 1);
      var b := BestPrefix(f, c1[n - 1], c2, TakenSet(g.taken), |c2|);
      GreedyTakesDistinct(f, c1, c2, n - 1);
      GreedyAdvance(f, c1, c2, n - 1, g, b.0);
      if b.0 != -1 {
        var t := g.taken + [b.0];
        forall k, l | 0 <= k < l < |t| ensures t[k] != t[l] {
          if l == |g.taken| {
            assert t[k] == g.taken[k];
            assert g.taken[k] in TakenSet(g.taken);
          } else {
            assert t[k] == g.taken[k] && t[l] == g.taken[l];
          }
        }
      }
    }
  }

  /** Each match pairs its company1 transaction with the company2
      transaction at its taken index, with the type and confidence
      `transactionsMatch` gives that pair, which is a real match. */
  lemma {:induction false} GreedyMatchesSound(f: Scorer, c1: seq<Transaction>, c2: seq<Transaction>, n: nat)
    requires n <= |c1|
    ensures var g := GreedyPrefix(f, c1, c2, n);
      |g.matches| == |g.taken| &&
      forall k :: 0 <= k < |g.matches| ==>
        (0 <= g.taken[k] < |c2| && g.matches[k].company2Transaction == c2[g.taken[k]] &&
         g.matches[k].company1Transaction in c1[..n] &&
         var r := f(g.matches[k].company1Transaction, g.matches[k].company2Transaction);
         r.matched && g.matches[k].matchType == r.matchType && g.matches[k].confidence == r.confidence)
  {
    if n > 0 {
      var g := GreedyPrefix(f, c1, c2, n - 1);
      var b := BestPrefix(f, c1[n - 1], c2, TakenSet(g.taken), |c2|);
      GreedyMatchesSound(f, c1, c2, n - 1);
      GreedyAdvance(f, c1, c2, n - 1, g, b.0);
      assert c1[..n - 1] <= c1[..n];
      if b.0 != -1 {
        assert c1[..n][n - 1] == c1[n - 1];
      }
    }
  }

  /** A company1 transaction is left unmatched only when no company2
      transaction that stays unmatched would match it. */
  lemma {:induction false} GreedyMaximal(f: Scorer, c1: seq<Transaction>, c2: seq<Transaction>, n: nat)
    requires n <= |c1| && PositiveWhenMatched(f)
    ensures var g := GreedyPrefix(f, c1, c2, n);
      forall t, j :: t in g.unmatched1 && 0 <= j < |c2| && j !in TakenSet(g.taken) ==>
        !f(t, c2[j]).matched
  {
    if n > 0 {
      var g := GreedyPrefix(f, c1, c2, n - 1);
      var b := BestPrefix(f, c1[n - 1], c2, TakenSet(g.taken), |c2|);
      GreedyMaximal(f, c1, c2, n - 1);
      GreedyAdvance(f, c1, c2, n - 1, g, b.0);
      BestPrefixIsBest(f, c1[n - 1], c2, TakenSet(g.taken), |c2|);
      if b.0 != -1 {
        TakenSnoc(g.taken, b.0);
      }
    }
  }

  /** A partial match always has agreeing amounts, so `mismatches.amount`
      stays empty for the matches the greedy pass records. */
  lemma {:induction false} NoAmountMismatches(c: Config, ms: seq<Match>)
    requires forall k :: 0 <= k < |ms| ==>
      ms[k].matchType == TransactionsMatch(c, ms[k].company1Transaction, ms[k].company2Transaction).matchType
    ensures AmountMismatches(c, ms) == []
  {
    if ms != [] {
      var m := ms[|ms| - 1];
      PartialNeedsAmount(c, m.company1Transaction, m.company2Transaction);
      NoAmountMismatches(c, ms[..|ms| - 1]);
    }
  }

  /** Distinct taken indices give as many company2 positions. */
  lemma {:induction false} TakenSetSize(taken: seq<int>)
    requires forall k, l :: 0 <= k < l < |taken| ==> taken[k] != taken[l]
    ensures |TakenSet(taken)| == |taken|
  {
    if taken != [] {
      var init := taken[..|taken| - 1];
      var j := taken[|taken| - 1];
      assert taken == init + [j];
      TakenSetSize(init);
      TakenSnoc(init, j);
    }
  }

  function Below(used: set<int>, n: nat): set<int> {
    set k | 0 <= k < n && k in used
  }

  /** Of the first `n` company2 transactions, those not taken and those
      taken add up to `n`. */
  lemma {:induction false} UntakenSize(c2: seq<Transaction>, used: set<int>, n: nat)
    requires n <= |c2|
    ensures |Untaken(c2, used, n)| + |Below(used, n)| == n
  {
    if n > 0 {
      UntakenSize(c2, used, n - 1);
      if n - 1 in used {
        assert Below(used, n) == Below(used, n - 1) + {n - 1};
      } else {
        assert Below(used, n) == Below(used, n - 1);
      }
    }
  }

  /** After the greedy pass each match has used up one transaction of each
      company, and everything else is unmatched: twice the matches plus the
      unmatched transactions is the total. */
  lemma GreedyPartition(f: Scorer, c1: seq<Transaction>, c2: seq<Transaction>)
    ensures var g := GreedyPrefix(f, c1, c2, |c1|);
      |g.unmatched1| == |c1| - |g.matches| &&
      |Untaken(c2, TakenSet(g.taken), |c2|)| == |c2| - |g.matches|
  {
    var g := GreedyPrefix(f, c1, c2, |c1|);
    GreedyCounts(f, c1, c2, |c1|);
    GreedyTakesDistinct(f, c1, c2, |c1|);
    TakenSetSize(g.taken);
    UntakenSize(c2, TakenSet(g.taken), |c2|);
    assert Below(TakenSet(g.taken), |c2|) == TakenSet(g.taken);
  }

  /** The first loop of `matchTransactions`: each company1 transaction takes
      the best company2 transaction not taken yet, if there is one. */
  method MatchEach(f: Scorer, c1: seq<Transaction>, c2: seq<Transaction>)
    returns (matches: seq<Match>, unmatched1: seq<Transaction>, matchedCompany2Indices: set<int>)
    ensures var g := GreedyPrefix(f, c1, c2, |c1|);
      matches == g.matches && unmatched1 == g.unmatched1 && matchedCompany2Indices == TakenSet(g.taken)
  {
    matches, unmatched1, matchedCompany2Indices := [], [], {};
    ghost var taken: seq<int> := [];
    var i := 0;
    while i < |c1|
      invariant 0 <= i <= |c1|
      invariant GreedyPrefix(f, c1, c2, i) == Greedy(matches, taken, unmatched1)
      invariant matchedCompany2Indices == TakenSet(taken)
    {
      var trans1 := c1[i];
      var bestIndex, bestScore := FindBestCandidate(f, trans1, c2, matchedCompany2Indices);
      GreedyAdvance(f, c1, c2, i, Greedy(matches, taken, unmatched1), bestIndex);
      if bestIndex != -1 {
        var m := f(trans1, c2[bestIndex]);
        TakenSnoc(taken, bestIndex);
        matchedCompany2Indices := matchedCompany2Indices + {bestIndex};
        matches := matches + [Match(trans1, c2[bestIndex], m.matchType, m.confidence)];
        taken := taken + [bestIndex];
      } else {
        unmatched1 := unmatched1 + [trans1];
      }
      i := i + 1;
    }
  }

  /** The second loop: the company2 transactions never taken. */
  method CollectUntaken(c2: seq<Transaction>, matchedCompany2Indices: set<int>) returns (unmatched2: seq<Transaction>)
    ensures unmatched2 == Untaken(c2, matchedCompany2Indices, |c2|)
  {
    unmatched2 := [];
    var j := 0;
    while j < |c2|
      invariant 0 <= j <= |c2|
      invariant unmatched2 == Untaken(c2, matchedCompany2Indices, j)
    {
      if j !in matchedCompany2Indices {
        unmatched2 := unmatched2 + [c2[j]];
      }
      j := j + 1;
    }
  }

  /** The third loop: the partial matches with disagreeing amounts or dates,
      and how many partial matches there are. */
  method AnalyzeMismatches(c: Config, matches: seq<Match>)
    returns (amountMismatches: seq<Match>, dateMismatches: seq<Match>, mismatchCount: nat)
    ensures amountMismatches == AmountMismatches(c, matches)
    ensures dateMismatches == DateMismatches(c, matches)
    ensures mismatchCount == PartialCount(matches)
  {
    amountMismatches, dateMismatches, mismatchCount := [], [], 0;
    var k := 0;
    while k < |matches|
      invariant 0 <= k <= |matches|
      invariant amountMismatches == AmountMismatches(c, matches[..k])
      invariant dateMismatches == DateMismatches(c, matches[..k])
      invariant mismatchCount == PartialCount(matches[..k])
    {
      var m := matches[k];
      assert matches[..k + 1][..k] == matches[..k];
      if m.matchType == Partial {
        if !AmountsMatch(c, m.company1Transaction.amount, m.company2Transaction.amount) {
          amountMismatches := amountMismatches + [m];
        }
        if !DatesMatch(c, m.company1Transaction.issueDate, m.company2Transaction.issueDate) {
          dateMismatches := dateMismatches + [m];
        }
        mismatchCount := mismatchCount + 1;
      }
      k := k + 1;
    }
    assert matches[..k] == matches;
  }

  /** `matchTransactions(company1Transactions, company2Transactions)`. The
      source counts matched and unmatched transactions as it goes; those
      counters equal the lengths used here. */
  method MatchTransactions(c: Config, c1: seq<Transaction>, c2: seq<Transaction>) returns (r: MatchOutput)
    ensures var g := GreedyPrefix(ScorerOf(c), c1, c2, |c1|);
      r.matches == g.matches && r.unmatched1 == g.unmatched1 &&
      r.unmatched2 == Untaken(c2, TakenSet(g.taken), |c2|)
    ensures r.amountMismatches == AmountMismatches(c, r.matches)
    ensures r.dateMismatches == DateMismatches(c, r.matches)
    ensures r.summary == Summary(|c1| + |c2|, |r.matches|, PartialCount(r.matches),
      |r.unmatched1| + |r.unmatched2|)
    ensures r.amountMismatches == []
    ensures 2 * r.summary.matchedCount + r.summary.unmatchedCount == r.summary.totalTransactions
  {
    var matches, unmatched1, matchedCompany2Indices := MatchEach(ScorerOf(c), c1, c2);
    var unmatched2 := CollectUntaken(c2, matchedCompany2Indices);
    var amountMismatches, dateMismatches, mismatchCount := AnalyzeMismatches(c, matches);
    r := MatchOutput(matches, amountMismatches, dateMismatches, unmatched1, unmatched2,
      Summary(|c1| + |c2|, |matches|, mismatchCount, |unmatched1| + |unmatched2|));
    GreedyMatchesSound(ScorerOf(c), c1, c2, |c1|);
    NoAmountMismatches(c, matches);
    GreedyPartition(ScorerOf(c), c1, c2);
  }
}
