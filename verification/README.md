# Ledger-Match, modelled in Dafny

Ledger-Match reconciles an accounts-receivable ledger (company1) with an
accounts-payable ledger (company2). Both ledgers come from CSV uploads or
from Xero. The model covers:

- the three matchers:
  - `matchRecords` matches by number or reference, scores candidates and adds historical insights;
  - `TransactionMatcher` matches greedily, one to one, with tolerances and confidence scores;
  - `analyzeTransactions` matches through a `Map` keyed by transaction number;
- the filter/some classification of the `/match-data` route;
- the two CSV ingestion paths, with their amount and date cleaners;
- the request validators and error classes;
- the CSV export serialisers and row builders;
- the in-memory token store;
- the OAuth helpers of the Xero token manager.

One Dafny module stands for each source file:

- `Matching`: backend/src/utils/matching.js
- `TransactionMatching`: frontend/src/utils/matchingLogic.js
- `LedgerAnalysis`: backend/index.js
- `MatchData`: the `/match-data` route of backend/src/routes/fileRoutes.js
- `CsvIngest`: backend/src/routes/processRoutes.js
- `Validation`: backend/src/utils/errors.js
- `CsvExport`: frontend/src/utils/csvExport.js, and frontend/src/components/MatchingResultsCSVExport.js, whose `escapeCSV`, `formatCurrencyForCSV` and `generateCSV` are the same code
- `ExportHelper`: frontend/src/utils/CSVExportHelper.js
- `ExportGenerators`: frontend/src/components/CSVExportHelper.js
- `ExportButtons`: frontend/src/components/CSVExportButtons.jsx
- `TokenStore`: backend/src/utils/tokenStore.js
- `XeroAuth`: backend/auth/xero_auth.py

`Utf8` and `Base64` model `str.encode()` and `base64.b64encode`, as the
Basic credential uses them. Base64 follows section 4 of RFC 4648. Each has
a decoder, so that round trips can be stated.

Five modules are shared:

- `Results`: Option and Result;
- `Seqs`: filter, map, sum and subsequences;
- `Strings`: trim, split, join, lower case and digit texts;
- `JsNumbers`: numbers with NaN, `parseFloat`, `Number`, `parseInt` and `toFixed(2)`;
- `JsValues`: dynamic values, truthiness, `||`, `String()` and property access.

How the source's shapes are modelled:

- Amounts are exact `real`s.
- NaN is a separate value, because `x || 0`, `isNaN` and comparisons with NaN decide branches in the source.
- Confidence scores are counted in tenths and match scores in halves.
- State that the source updates in place is a class with fields:
  - the token store (`TokenStore.Store`);
  - the `Map` of `analyzeTransactions` (`LedgerAnalysis.TransactionMap`);
  - the unmatched lists of `matchRecords` (`Matching.UnmatchedItems`).
- Every loop of the source is a method. Each method is proved equal to a specification function, and the properties are proved about those functions.
- A function that throws returns a Result, or an Option of the error it throws.
- The clock is a `now` parameter.
- A network reply is a `Reply` value.
- The JS `Date` / `toISOString` step and the dayjs formatting are function parameters (`makeDate`, `viaDate`, `dateText`).
- A date that `matchingLogic.js` parses with `new Date` is its time value in milliseconds, or None for an invalid date.
- The greedy pass of `matchTransactions` is stated for any scoring function `f` from a pair of transactions to a match result. A few of its facts need one hypothesis: a matched result has a confidence above 0. `matchTransactions` passes `ScorerOf(c)`, which is `transactionsMatch` under the configuration `c`, and that scorer meets the hypothesis.

## Model

| member | source | states |
|---|---|---|
| Matching.FindPotentialMatches | backend/src/utils/matching.js:265-281 | exactly the company2 records sharing a non-empty number or reference with item1, with their multiplicities, in original order |
| Matching.ExactMatchSymmetric | backend/src/utils/matching.js:283-301 | isExactMatch is symmetric and ignores the sign of the amounts |
| Matching.ExactMatchOfCandidate | backend/src/utils/matching.js:283-301 | for a candidate of findPotentialMatches, isExactMatch is exactly the amount test |
| Matching.AmountOrZero | backend/src/utils/matching.js:294-295 | `amount \|\| 0` gives the amount, or 0 for NaN |
| Matching.DateScore | backend/src/utils/matching.js:330-337 | date points are at most 1 (2 halves) and need both dates |
| Matching.MatchScore | backend/src/utils/matching.js:314-340 | the score lies in 0..8 (16 halves); an identifier match scores at least 2, an exact match at least 5 |
| Matching.BestIndex | backend/src/utils/matching.js:303-312 | the reduce ends on a maximal score, earliest on ties (strict `>`) |
| Matching.FindBestMatch | backend/src/utils/matching.js:303-312 | null exactly for an empty list; otherwise a member with maximal score |
| Matching.Classify | backend/src/utils/matching.js:61-78 | no candidate gives no pair; a single exact candidate is perfect; otherwise a mismatch with a best-scoring candidate, and a single candidate is a mismatch only when it is not exact |
| Matching.StepCount | backend/src/utils/matching.js:61-78 | a record with a candidate adds one pair and one removal from each side; a record without one adds nothing |
| Matching.PairCount | backend/src/utils/matching.js:61-78 | each company1 record gives at most one pair, exactly those with a candidate, so \|perfect\| + \|mismatches\| <= \|company1\| |
| Matching.PairsSound | backend/src/utils/matching.js:61-78 | every perfect pair is an exact match with the only candidate; every mismatch pairs a best-scoring candidate |
| Matching.UnmatchedItems.constructor | backend/src/utils/matching.js:46-49 | the unmatched lists start as copies of the two ledgers |
| Matching.UnmatchedItems.RemoveFromUnmatched | backend/src/utils/matching.js:342-349 | each side becomes its old list filtered by the matched item's transaction number |
| Matching.RemoveFromUnmatchedKeeps | backend/src/utils/matching.js:342-349 | the filter drops exactly the items with that number and keeps the others, with multiplicity, in order |
| Matching.RemoveMore | backend/src/utils/matching.js:342-349 | removing one more number from what is left is filtering by all numbers removed so far |
| Matching.PairedNotUnmatched | backend/src/utils/matching.js:61-78 | a paired record is in neither unmatched list afterwards |
| Matching.PairedNumbersRemoved | backend/src/utils/matching.js:67-76 | every pair's numbers are among those removed |
| Matching.BestHistorical | backend/src/utils/matching.js:88-101 | the chosen record is one of the matches |
| Matching.BestHistoricalMinimal | backend/src/utils/matching.js:88-101 | when every match has a date, no match goes strictly before the chosen one under the comparator, as for `sortedMatches[0]` |
| Matching.BestHistoricalPaid | backend/src/utils/matching.js:88-92 | the chosen historical match is paid iff some match is paid |
| Matching.FindHistoricalMatches | backend/src/utils/matching.js:138-154 | exactly the historical records sharing a non-empty number or reference, in order |
| Matching.DetermineHistoricalInsight | backend/src/utils/matching.js:162-188 | precedence paid, voided, DRAFT, found_in_history; severity warning iff paid, error iff voided; the message names the invoice |
| Matching.InsightsSound | backend/src/utils/matching.js:81-110 | no insight without historical data; at most one per unmatched payable, each with an identifier match, a paid match whenever one exists, and determineHistoricalInsight's verdict |
| Matching.InsightsForSound | backend/src/utils/matching.js:82-109 | the loop over the unmatched payables gives at most one sound insight per item |
| Matching.ParseAmount | backend/src/utils/matching.js:191-210 | null, undefined, '' and non-strings give 0; numbers pass through; a string always gives a finite number |
| Matching.ParseAmountIgnoresNonAmountChar | backend/src/utils/matching.js:202-207 | a character other than a digit, '.' or '-' anywhere in a text, such as '$', ',' or a space, does not change the amount |
| Matching.ParseAmountWithoutDigits | backend/src/utils/matching.js:202-207 | a text without a digit, such as 'abc', gives 0 |
| JsNumbers.ParseFloatNoDigit | backend/src/utils/matching.js:204-205 | `parseFloat` of a text without a digit is NaN |
| Matching.ParseAmountOfFixed | backend/src/utils/matching.js:202-207 | parseAmount reads back a `toFixed(2)` text as the amount to the cent |
| Matching.FixedKeepsAmountChars | backend/src/utils/matching.js:204 | the cleaning regex deletes nothing from a `toFixed(2)` text |
| Matching.CalculateTotalParts | backend/src/utils/matching.js:253-258 | the total adds over concatenation, a NaN or missing amount counting 0 |
| Matching.CalculateVariance | backend/src/utils/matching.js:260-263 | \|t1 - \|t2\|\| is never negative, and 0 exactly when t1 = \|t2\| |
| Matching.MatchedSnoc | backend/src/utils/matching.js:61-78 | the loop state after one more record is one more step |
| Matching.PairUp | backend/src/utils/matching.js:44-78 | the loop builds exactly the pairs and unmatched lists of the specification fold |
| Matching.CollectInsights | backend/src/utils/matching.js:80-110 | the second loop builds exactly the specified insights |
| Matching.MatchRecords | backend/src/utils/matching.js:15-125 | the result's pairs, unmatched lists, insights, totals and variance are those of the specification functions |
| TransactionMatching.MakeConfig | frontend/src/utils/matchingLogic.js:6-15 | every supplied configuration key overrides its default |
| TransactionMatching.DefaultConfig | frontend/src/utils/matchingLogic.js:8-12 | the defaults are dateTolerance 0, amountTolerance 0.01, matchByReference false, strictTransactionTypes true |
| TransactionMatching.MatchesSymmetric | frontend/src/utils/matchingLogic.js:17-31 | amountsMatch and datesMatch are symmetric |
| TransactionMatching.DiffDays | frontend/src/utils/matchingLogic.js:21-22 | the day count is the least whole number of days that covers the distance between the two time values, the ceiling of it |
| TransactionMatching.CeilDiv | frontend/src/utils/matchingLogic.js:22 | `Math.ceil(n / m)` for n >= 0: the least r with n <= r * m |
| TransactionMatching.MatchesInclusive | frontend/src/utils/matchingLogic.js:18-30 | both tolerances are inclusive (`<=`): amounts exactly the tolerance apart match, times exactly k days apart match under tolerance k, and one millisecond more misses |
| TransactionMatching.SameDayApartMisses | frontend/src/utils/matchingLogic.js:18-24 | under the default tolerance 0, two times two hours apart miss, because the day count is rounded up; equal times match |
| TransactionMatching.Score | frontend/src/utils/matchingLogic.js:54-73 | the score in tenths is at most 10 |
| TransactionMatching.TransactionsMatch | frontend/src/utils/matchingLogic.js:34-80 | equal numbers give matched/'exact'/1.0 whatever else differs; strict types with different types give unmatched/'none'/0; matched iff the type is not 'none'; 'partial' has confidence 0.7..1.0 |
| TransactionMatching.PartialNeedsAmount | frontend/src/utils/matchingLogic.js:55-79 | 'partial' iff the numbers differ, the type check passes and the score is >= 7 tenths, so it always needs agreeing amounts |
| TransactionMatching.ReferenceIgnoresCase | frontend/src/utils/matchingLogic.js:68-72 | with matchByReference on, references equal up to case count |
| TransactionMatching.ScorerOf | frontend/src/utils/matchingLogic.js:116-117 | the scorer the loop calls is `transactionsMatch` on every pair, and any matched result scores above the starting bestMatchScore of 0 |
| TransactionMatching.BestPrefix | frontend/src/utils/matchingLogic.js:108-122 | the candidate kept so far is an untaken, matched company2 index carrying its confidence |
| TransactionMatching.BestPrefixIsBest | frontend/src/utils/matchingLogic.js:113-122 | it has the highest confidence among untaken matched candidates, and is the first such (strict `>`) |
| TransactionMatching.BestPrefixNext | frontend/src/utils/matchingLogic.js:114-121 | one more candidate replaces the best exactly when it is untaken, matched and strictly better |
| TransactionMatching.FindBestCandidate | frontend/src/utils/matchingLogic.js:108-122 | the inner loop computes the specified best candidate |
| TransactionMatching.Untaken | frontend/src/utils/matchingLogic.js:142-147 | the never-matched company2 transactions are no more than the list |
| TransactionMatching.AmountMismatches | frontend/src/utils/matchingLogic.js:150-154 | exactly the partial matches whose amounts do not match |
| TransactionMatching.DateMismatches | frontend/src/utils/matchingLogic.js:150-157 | exactly the partial matches whose dates do not match |
| TransactionMatching.GreedyNext | frontend/src/utils/matchingLogic.js:107-139 | one company1 transaction either records its best candidate as a match or goes to unmatched.company1 |
| TransactionMatching.GreedyAdvance | frontend/src/utils/matchingLogic.js:107-139 | given the index the inner loop returns: when there is one, it is a company2 position, and the match is recorded with the scorer's type and confidence and the index is taken; otherwise the transaction is appended to unmatched.company1 |
| TransactionMatching.TakenSnoc | frontend/src/utils/matchingLogic.js:126 | adding an index to matchedCompany2Indices |
| TransactionMatching.GreedyCounts | frontend/src/utils/matchingLogic.js:107-139 | every company1 transaction lands in exactly one of matches and unmatched.company1 |
| TransactionMatching.GreedyTakesDistinct | frontend/src/utils/matchingLogic.js:104-126 | each company2 index is matched at most once |
| TransactionMatching.GreedyMatchesSound | frontend/src/utils/matchingLogic.js:124-133 | every recorded match is a matched transactionsMatch result of its pair, with its type and confidence |
| TransactionMatching.GreedyMaximal | frontend/src/utils/matchingLogic.js:107-139 | an unmatched company1 transaction matches no company2 transaction left untaken |
| TransactionMatching.NoAmountMismatches | frontend/src/utils/matchingLogic.js:150-154 | the amount mismatch list is always empty, since 'partial' needs agreeing amounts |
| TransactionMatching.TakenSetSize | frontend/src/utils/matchingLogic.js:104-126 | distinct indices make a set of the same size |
| TransactionMatching.UntakenSize | frontend/src/utils/matchingLogic.js:142-147 | untaken plus taken indices cover the list |
| TransactionMatching.GreedyPartition | frontend/src/utils/matchingLogic.js:107-147 | \|unmatched.company1\| = \|c1\| - \|matches\| and \|unmatched.company2\| = \|c2\| - \|matches\| |
| TransactionMatching.MatchEach | frontend/src/utils/matchingLogic.js:104-139 | the first loop computes the specified matches, unmatched.company1 and index set |
| TransactionMatching.CollectUntaken | frontend/src/utils/matchingLogic.js:141-147 | the second loop keeps exactly the never-matched company2 transactions, in order |
| TransactionMatching.AnalyzeMismatches | frontend/src/utils/matchingLogic.js:149-160 | the third loop builds the amount and date lists and counts the partial matches |
| TransactionMatching.MatchTransactions | frontend/src/utils/matchingLogic.js:83-163 | the result is the specified greedy matching; totalTransactions = \|c1\| + \|c2\|, unmatchedCount = \|unmatched.company1\| + \|unmatched.company2\|, mismatchCount = number of partial matches |
| LedgerAnalysis.CleanedText | backend/index.js:40-44 | the text handed to `parseFloat` contains no currency sign, comma or whitespace |
| LedgerAnalysis.CleanAmount | backend/index.js:33-34 | a falsy amount cleans to 0 |
| LedgerAnalysis.CleanAmountOfString | backend/index.js:37-50 | a non-empty text cleans to `parseFloat` of the stripped text, or 0 where that is NaN |
| LedgerAnalysis.CleanAmountIgnoresDecoration | backend/index.js:40-43 | a currency sign, comma or whitespace anywhere in the text does not change the amount |
| LedgerAnalysis.FixedHasNoDecoration | backend/index.js:40-43 | a `toFixed(2)` text is never empty and has nothing for the cleaner to remove |
| LedgerAnalysis.CleanAmountOfFixed | backend/index.js:33-51 | cleaning the `toFixed(2)` text of x gives x rounded to the cent (round trip) |
| LedgerAnalysis.CleanAmountOfClean | backend/index.js:47-50 | an undecorated number text cleans to the number it shows |
| LedgerAnalysis.CleanAmountOfText | backend/index.js:50 | text with no number in it cleans to 0 |
| LedgerAnalysis.FormatLayout | backend/index.js:69-87 | a supported format names three distinct positions below 3 and a '-' or '/' separator |
| LedgerAnalysis.SupportedFormats | backend/index.js:69-87 | exactly the five formats are supported, each with its own separator and year/month/day positions; any other throws |
| LedgerAnalysis.Components | backend/index.js:69-87 | components exist exactly for a supported format |
| LedgerAnalysis.ParseDateString | backend/index.js:54-105 | a falsy value or an unsupported format gives null |
| LedgerAnalysis.ParseDateOfString | backend/index.js:62-101 | a text is trimmed, split by the format and handed to `new Date` |
| LedgerAnalysis.DigitsToNumber | backend/index.js:71 | `Number` reads a run of digits as its value |
| LedgerAnalysis.SplitThree | backend/index.js:71-83 | three digit runs joined by the separator split back into those runs |
| LedgerAnalysis.DateTextUnpadded | backend/index.js:67 | `trim` leaves such a date text unchanged |
| LedgerAnalysis.ParseDatePositions | backend/index.js:69-101 | a date written as three digit runs is read with year, month - 1 and day taken from the positions the format names |
| LedgerAnalysis.ComponentsOfDate | backend/index.js:69-87 | the components are the digit values at the format's positions |
| LedgerAnalysis.ParseDateOfNumbers | backend/index.js:91-101 | numeric components give `new Date(year, month - 1, day)`'s ISO day, or null where that date is invalid |
| LedgerAnalysis.CleanRow | backend/index.js:128-136 | number, type and status are copied; a falsy amount is 0, a falsy date null, and a missing reference '' |
| LedgerAnalysis.PutLookup | backend/index.js:174 | after `set(k, v)`, `k` maps to `v` and every other key keeps its entry |
| LedgerAnalysis.PutKeys | backend/index.js:174 | `set` keeps the map well formed and only adds `k` to the keys |
| LedgerAnalysis.RemoveLookup | backend/index.js:225 | after `delete(k)`, `k` is absent and every other key keeps its entry |
| LedgerAnalysis.RemoveKeys | backend/index.js:225 | `delete` keeps the map well formed and removes only `k` |
| LedgerAnalysis.ValuesOf | backend/index.js:229 | `Array.from(map.values())` lists the entries in key order |
| LedgerAnalysis.TransactionMap.constructor | backend/index.js:172 | `new Map()` is empty |
| LedgerAnalysis.TransactionMap.Get | backend/index.js:178 | `map.get` is the lookup in the map's contents |
| LedgerAnalysis.TransactionMap.Set | backend/index.js:174 | the new contents are `Put` of the old |
| LedgerAnalysis.TransactionMap.Delete | backend/index.js:225 | the new contents are `Remove` of the old |
| LedgerAnalysis.TransactionMap.Values | backend/index.js:229 | the loop lists the entries in key order |
| LedgerAnalysis.Company2MapWellFormed | backend/index.js:172-175 | the company2 map is well formed |
| LedgerAnalysis.Company2MapKeys | backend/index.js:172-175 | the map holds a number exactly when some company2 row has it |
| LedgerAnalysis.Company2MapLast | backend/index.js:173-175 | a later row with the same number replaces an earlier one |
| LedgerAnalysis.Amount2dpParsed | backend/index.js:184-185 | the compared amount is `parseFloat` of `toFixed(2)` |
| LedgerAnalysis.ExactMatchIff | backend/index.js:193-221 | a pair is exact iff the amounts agree to the cent and dates, statuses and types are `===`; equivalently iff all four difference flags are false |
| LedgerAnalysis.AnalyzeLookup | backend/index.js:177-227 | after the loop, a number is absent from the map iff it was paired, and every other number keeps its entry |
| LedgerAnalysis.AnalyzeNext | backend/index.js:178-226 | one more item deletes its number and records it as paired iff the number is still in the map |
| LedgerAnalysis.PairedKeysDistinct | backend/index.js:178-225 | each paired number was in the initial map and none is paired twice |
| LedgerAnalysis.AnalyzeKeys | backend/index.js:225-229 | what remains is the initial keys minus the paired ones, in their order |
| LedgerAnalysis.AnalyzeStep | backend/index.js:178-226 | one more item goes to onlyInCompany1, perfectMatches or mismatches, by the lookup and `isExactMatch` |
| LedgerAnalysis.StepSources | backend/index.js:180-223 | one turn adds its item to exactly one of the three lists |
| LedgerAnalysis.AnalyzePartition | backend/index.js:177-227 | the company1 items of the three lists are a permutation of company1Data |
| LedgerAnalysis.AnalyzePairedKeys | backend/index.js:199-225 | the multiset of transaction numbers over the perfect and mismatched pairs equals the multiset of numbers deleted from the map |
| LedgerAnalysis.AnalyzePerfect | backend/index.js:199-204 | every perfect pair is an item and its number's map entry, and is an exact match |
| LedgerAnalysis.AnalyzeMismatches | backend/index.js:205-222 | every mismatch is an item and its number's map entry, not an exact match, with its difference flags |
| LedgerAnalysis.AnalyzeOnly1 | backend/index.js:180-182 | an item is left in onlyInCompany1 only if its number was absent or already paired, and always when it was absent |
| LedgerAnalysis.OpenTotalConcat | backend/index.js:156-162 | the open total is additive over concatenation |
| LedgerAnalysis.OpenTotalSingle | backend/index.js:157-158 | only an 'Open' item counts, with its amount |
| LedgerAnalysis.TotalsReadBack | backend/index.js:238-242 | the totals read back as the open totals to the cent, and the variance is negative exactly when company2's total is larger |
| LedgerAnalysis.ReportOnlyInCompany2 | backend/index.js:229-248 | onlyInCompany2 is the map entries whose numbers no company1 item paired, in insertion order |
| LedgerAnalysis.ReportCounts | backend/index.js:237-249 | perfect + mismatches + onlyInCompany1 = \|company1Data\| |
| LedgerAnalysis.BuildCompany2Map | backend/index.js:172-175 | the loop builds the specified company2 map |
| LedgerAnalysis.ClassifyCompany1 | backend/index.js:177-227 | the loop computes the specified three lists and remaining map |
| LedgerAnalysis.AnalyzeTransactions | backend/index.js:151-250 | the result is the specified report |
| MatchData.Find | backend/src/routes/fileRoutes.js:81-84 | `find` gives a member satisfying the predicate, or undefined when none does |
| MatchData.FindSome | backend/src/routes/fileRoutes.js:80-86 | `find(..) !== undefined` iff some element satisfies the predicate |
| MatchData.MatchDatasets | backend/src/routes/fileRoutes.js:61-69 | a reply exactly when both datasets are arrays; a falsy dataset throws 'Both datasets are required', and only then; otherwise a non-array dataset fails at the first `reduce` with the engine's TypeError message, company1Data's first |
| MatchData.PerfectMatchesSpec | backend/src/routes/fileRoutes.js:72-77 | exactly the company1 rows with a company2 row of the same number and `parseFloat`-equal amount, in order |
| MatchData.MismatchesSpec | backend/src/routes/fileRoutes.js:80-86 | exactly the company1 rows with a company2 row of the same number and a different amount, in order |
| MatchData.UnmatchedSpec | backend/src/routes/fileRoutes.js:89-95 | exactly the rows whose number no row of the other dataset has, in order |
| MatchData.MatchDatasetsCover | backend/src/routes/fileRoutes.js:72-91 | every company1 row is perfect, a mismatch or unmatched, and an unmatched row is neither of the others |
| MatchData.PerfectAndMismatch | backend/src/routes/fileRoutes.js:72-86 | a row can be both a perfect match and a mismatch when two company2 rows share its number |
| MatchData.TotalSum | backend/src/routes/fileRoutes.js:68-69 | the total is NaN iff some amount does not parse, and otherwise the sum of the amounts |
| MatchData.FixedReadBack | backend/src/routes/fileRoutes.js:99-101 | a finite total's `toFixed(2)` reads back as the total to the cent; a NaN total prints 'NaN' |
| MatchData.MatchDatasetsTotals | backend/src/routes/fileRoutes.js:97-102 | the reply's totals read back as the sums to the cent, and the variance is 'NaN' when either total is |
| CsvIngest.TrimAll | backend/src/routes/processRoutes.js:39-51 | `map(x => x.trim())` trims every element and keeps the count |
| CsvIngest.TrimAllKeeps | backend/src/routes/processRoutes.js:39 | trimming adds no character |
| CsvIngest.TrimAllOfUnpadded | backend/src/routes/processRoutes.js:39 | trimming unpadded texts changes nothing |
| CsvIngest.Pieces | backend/src/routes/processRoutes.js:45-51 | `split(',').map(trim)` gives at least one piece, each unpadded and without a comma |
| CsvIngest.PiecesOfJoin | backend/src/routes/processRoutes.js:45-51 | unpadded comma-free fields joined by ',' split back into those fields |
| CsvIngest.Lines | backend/src/routes/processRoutes.js:39 | the content gives at least one line, each unpadded and without a newline |
| CsvIngest.LinesOfJoin | backend/src/routes/processRoutes.js:39 | unpadded lines joined by newlines split back into those lines |
| CsvIngest.OneLine | backend/src/routes/processRoutes.js:39 | content whose trimmed text has no newline, such as 'h\n' or '\n\n', is a single trimmed line |
| CsvIngest.RowDataKeys | backend/src/routes/processRoutes.js:54-57 | rowData has exactly the header names as keys |
| CsvIngest.RowDataAt | backend/src/routes/processRoutes.js:55-57 | the last column with a header name gives its value, or '' where the line is short |
| CsvIngest.TextOf | backend/src/routes/processRoutes.js:61-66 | `String(x \|\| '').trim()` is unpadded, and '' for a missing field |
| CsvIngest.ReferenceOf | backend/src/routes/processRoutes.js:67 | the reference is unpadded, and '' for a missing field |
| CsvIngest.ReferenceIsText | backend/src/routes/processRoutes.js:61-67 | the reference expression agrees with the other text fields' |
| CsvIngest.CleanAmountStrict | backend/src/routes/processRoutes.js:90-106 | a missing or empty amount is 0; it throws exactly when a non-empty amount's cleaned text parses to NaN, with 'Error processing amount value' naming the input; otherwise it gives that parsed number |
| CsvIngest.CleanAmountAgrees | backend/src/routes/processRoutes.js:90-106 | where this cleanAmount returns, it agrees with the one in backend/index.js; where it throws, that one gives 0 |
| CsvIngest.TextAmountAgrees | backend/src/routes/processRoutes.js:93-102 | the same agreement for every non-empty text |
| CsvIngest.CleanAmountOfClean | backend/src/routes/processRoutes.js:93-102 | an undecorated number text gives its number |
| CsvIngest.CleanedOfClean | backend/src/routes/processRoutes.js:93-97 | the cleaner leaves an undecorated text unchanged |
| CsvIngest.ParseDateStrict | backend/src/routes/processRoutes.js:110-112 | a missing or empty date throws 'Date value is required' |
| CsvIngest.ParseDateStrictCases | backend/src/routes/processRoutes.js:114-145 | for a non-empty date with trimmed text t: 'Invalid date components' exactly when a part at the format's positions is missing or not a number; 'Invalid date' exactly when the parts are numbers and `new Date` rejects them; otherwise the ISO day of that date; never 'Date value is required' |
| CsvIngest.ParseIntOfDigits | backend/src/routes/processRoutes.js:128-130 | `parseInt(s, 10)` of a digit run is its value |
| CsvIngest.DateParts | backend/src/routes/processRoutes.js:117 | three digit runs joined by '/' or '-' split back into those runs |
| CsvIngest.ParseDatePositions | backend/src/routes/processRoutes.js:109-147 | a date of three digit runs is read day-first for 'DD/MM/YYYY' and year-first for every other format, then handed to `new Date` |
| CsvIngest.ParseDateOfUnpadded | backend/src/routes/processRoutes.js:116-117 | a trimmed date text is split as it stands |
| CsvIngest.ReadDateOfDigits | backend/src/routes/processRoutes.js:119-143 | the switch picks the positions, and digits parse to their values |
| CsvIngest.ComponentOfDigits | backend/src/routes/processRoutes.js:128-130 | a digit component parses to its value |
| CsvIngest.ParseDateTwoParts | backend/src/routes/processRoutes.js:121-134 | a date with only two components throws 'Invalid date components' |
| CsvIngest.TwoPieces | backend/src/routes/processRoutes.js:117 | 'x/y' has two components |
| CsvIngest.RecordOfSpec | backend/src/routes/processRoutes.js:59-68 | a row gives a record iff its amount and both dates are accepted; the text fields are unpadded and the amount is the cleaned amount; an amount error is reported first |
| CsvIngest.MissingIssueDate | backend/src/routes/processRoutes.js:64-112 | a row without an issue date fails, with 'Date value is required' when its amount is valid |
| CsvIngest.Collect | backend/src/routes/processRoutes.js:48-75 | a success holds one record per row, and a failure names one of the rows |
| CsvIngest.CollectOk | backend/src/routes/processRoutes.js:48-75 | the loop succeeds iff every row does, and then holds every row's record in order |
| CsvIngest.CollectErr | backend/src/routes/processRoutes.js:69-74 | a failure names the first failing row and its error |
| CsvIngest.CollectStays | backend/src/routes/processRoutes.js:70 | once a row fails, later rows are never read |
| CsvIngest.CollectStep | backend/src/routes/processRoutes.js:49-75 | one more row either ends the loop with its error or appends its record |
| CsvIngest.Upload | backend/src/routes/processRoutes.js:35-78 | the 'headers and data' refusal comes exactly when there are fewer than two lines; a success holds one record per data line; a row failure names one of the data lines |
| CsvIngest.ReadRows | backend/src/routes/processRoutes.js:48-75 | a success holds one record per data line, and a failure names one of the data lines |
| CsvIngest.ReadRowsIsCollect | backend/src/routes/processRoutes.js:49-75 | reading the data lines in turn is collecting each line's outcome, stopping at the first failure |
| CsvIngest.UploadOneLine | backend/src/routes/processRoutes.js:39-43 | content whose trimmed text has no newline, such as 'h\n' or '\n\n', is rejected: 'CSV must contain headers and at least one data row' |
| CsvIngest.MapCollectOk | backend/src/routes/processRoutes.js:49-75 | the upload succeeds iff every data line gives a record, and then holds them in order |
| CsvIngest.MapCollectErr | backend/src/routes/processRoutes.js:69-74 | a failure comes from the first data line that fails |
| CsvIngest.RowFailedMessage | backend/src/routes/processRoutes.js:71 | the error reads 'Error in row N: ' with N the 1-based line number of the failing row |
| CsvIngest.ProcessUpload | backend/src/routes/processRoutes.js:35-78 | the handler computes the specified upload result |
| CsvIngest.ProcessRows | backend/src/routes/processRoutes.js:48-75 | the loop over the data lines computes their reading under the headers and the date format |
| CsvIngest.CollectRows | backend/src/routes/processRoutes.js:48-75 | the row loop computes the specified result, stopping at the first failing row |
| Validation.Status | backend/src/utils/errors.js:2-26 | a ValidationError has status 400; XeroError and DataProcessingError have 500 |
| Validation.Name | backend/src/utils/errors.js:5-22 | every class name ends in 'Error' |
| Validation.NamesDistinct | backend/src/utils/errors.js:5-22 | the three classes have different names |
| Validation.ValidateFile | backend/src/utils/errors.js:81-84 | a missing file throws the ValidationError 'No file provided'; every error thrown is a ValidationError |
| Validation.ValidateFileAccepts | backend/src/utils/errors.js:86-88 | a file is accepted iff its lower-cased name ends in '.csv'; otherwise 'Only CSV files are allowed' |
| Validation.ValidateDateFormat | backend/src/utils/errors.js:93-98 | the only error lists the five supported formats joined by ', ' |
| Validation.ValidateDateFormatAccepts | backend/src/utils/errors.js:94-95 | a format is accepted iff it is one of the five that parseDateString in backend/index.js supports |
| Validation.MissingFrom | backend/src/utils/errors.js:107-111 | the field reported is a required field whose value is falsy; none is reported iff all are truthy |
| Validation.CheckTransaction | backend/src/utils/errors.js:106-120 | a problem with a transaction names that transaction's index |
| Validation.CheckFrom | backend/src/utils/errors.js:106-121 | a problem found from index i names an index between i and the end |
| Validation.ValidateTransactionData | backend/src/utils/errors.js:101-103 | a non-array throws 'Invalid data format. Expected an array of transactions.' |
| Validation.CheckTransactionSpec | backend/src/utils/errors.js:105-120 | a transaction passes iff every required field is truthy, the amount is a number and the date matches `^\d{4}-\d{2}-\d{2}$` |
| Validation.MissingFromFirst | backend/src/utils/errors.js:107-111 | the reported field is the first falsy one, in the order of requiredFields |
| Validation.CheckFromAccepts | backend/src/utils/errors.js:106-121 | the rest of the array passes iff every transaction in it is well formed |
| Validation.CheckFromFirst | backend/src/utils/errors.js:106-121 | the reported problem is the first failing transaction's |
| Validation.ValidateTransactionDataSpec | backend/src/utils/errors.js:100-122 | an array passes iff every transaction is well formed; otherwise the error is the first failing transaction's |
| Validation.ZeroAmountMissing | backend/src/utils/errors.js:108-109 | an amount of 0 is reported as a missing 'amount' field |
| Validation.TextAmountRejected | backend/src/utils/errors.js:114-115 | a truthy text amount is an invalid amount naming the transaction number |
| CsvExport.DoubleQuotes | frontend/src/utils/csvExport.js:43 | doubling the quotes neither adds nor removes a comma |
| CsvExport.EscapeText | frontend/src/utils/csvExport.js:40-45 | the text is quoted iff it holds a comma, a quote or a newline, and is otherwise unchanged |
| CsvExport.EscapeCsv | frontend/src/utils/csvExport.js:38-39 | null and undefined give '' |
| CsvExport.FormatCurrencyForCsv | frontend/src/utils/csvExport.js:4-5 | null and undefined give '' |
| CsvExport.FormatCurrencySpec | frontend/src/utils/csvExport.js:4-9 | '' iff null, undefined or not parseable; otherwise two decimals that read back as the amount to the cent |
| CsvExport.FormatDateForCsv | frontend/src/utils/csvExport.js:12-35 | a falsy date gives ''; anything but an ISO-prefixed string goes through the `Date` branch |
| CsvExport.IsoBeforeTime | frontend/src/utils/csvExport.js:17 | `split('T')[0]` of an ISO day followed by a time is the day |
| CsvExport.IsoPieces | frontend/src/utils/csvExport.js:17 | an ISO day splits on '-' into year, month and day |
| CsvExport.FormatDateOfIso | frontend/src/utils/csvExport.js:16-19 | an ISO date, with or without a time, becomes DD/MM/YYYY |
| CsvExport.GenerateCsv | frontend/src/utils/csvExport.js:49-57 | the loop builds the header line and one line per row, each ended by a newline |
| CsvExport.ReadQuotedOfDoubled | frontend/src/utils/csvExport.js:43 | a quoted field with its quotes doubled reads back as the field |
| CsvExport.ReadPlainOf | frontend/src/utils/csvExport.js:45 | an unquoted field without comma or newline reads back as itself |
| CsvExport.ReadFieldOfEscape | frontend/src/utils/csvExport.js:38-46 | every escaped text reads back as that text |
| CsvExport.ReadRecordOfLine | frontend/src/utils/csvExport.js:51-55 | a line of escaped fields joined by ',' reads back as those fields |
| CsvExport.ParseOfRecords | frontend/src/utils/csvExport.js:51-57 | newline-terminated lines read back as their records |
| CsvExport.LineOfTexts | frontend/src/utils/csvExport.js:55 | a row's line is the escaped texts of its values |
| CsvExport.CsvTextRoundTrip | frontend/src/components/MatchingResultsCSVExport.js:24-43 | the generated CSV reads back as the header texts followed by one record per row |
| ExportHelper.HeaderLineAsWritten | frontend/src/utils/CSVExportHelper.js:5 | `headers.join(',')` over header objects starts with '[object Object]' |
| ExportHelper.HeaderLineNamesNoColumn | frontend/src/utils/CSVExportHelper.js:5 | for one header, the line as written is '[object Object]', not the column key |
| ExportHelper.Keys | frontend/src/utils/CSVExportHelper.js:9-10 | the column keys, one per header, in order |
| ExportHelper.CellText | frontend/src/utils/CSVExportHelper.js:10-12 | a falsy value is ''; a string is itself; only `true` throws, because it has no `includes` |
| ExportHelper.Quote | frontend/src/utils/CSVExportHelper.js:13 | a value with a comma is wrapped in quotes, with no doubling; any other value is unchanged |
| ExportHelper.Texts | frontend/src/utils/CSVExportHelper.js:9-14 | one text per header |
| ExportHelper.TextsSpec | frontend/src/utils/CSVExportHelper.js:9-14 | text j is the cell text of the item's property under header j; a throwing cell makes the row throw |
| ExportHelper.AllTexts | frontend/src/utils/CSVExportHelper.js:8-16 | one record per item |
| ExportHelper.AllTextsAt | frontend/src/utils/CSVExportHelper.js:8-16 | record i is item i's texts; one throwing item makes the whole conversion throw |
| ExportHelper.Converted | frontend/src/utils/CSVExportHelper.js:2-19 | the conversion succeeds iff every item's texts do |
| ExportHelper.ConvertToCsv | frontend/src/utils/CSVExportHelper.js:2-19 | the loop computes the specified CSV text |
| ExportHelper.ConvertedLines | frontend/src/utils/CSVExportHelper.js:15-18 | the text splits on newlines into the header line and one line per item |
| ExportHelper.LineKeeps | frontend/src/utils/CSVExportHelper.js:15 | a joined line has no newline when its texts have none |
| ExportHelper.QuoteIsEscape | frontend/src/utils/CSVExportHelper.js:13 | without quotes or newlines the text agrees with csvExport.js's escapeCSV |
| ExportHelper.QuoteNotEscaped | frontend/src/utils/CSVExportHelper.js:13 | a value holding both a quote and a comma is not read back as itself |
| ExportHelper.LineIsRecordLine | frontend/src/utils/CSVExportHelper.js:15 | without quotes or newlines a line is the RFC 4180 record line |
| ExportHelper.ConvertedReadsBack | frontend/src/utils/CSVExportHelper.js:2-19 | with plain keys and cells, the text reads back as the keys followed by every item's record |
| ExportHelper.Labelled | frontend/src/utils/CSVExportHelper.js:37-59 | `{...o, matchType}` sets matchType and keeps every other property |
| ExportHelper.MismatchRow | frontend/src/utils/CSVExportHelper.js:43-48 | a mismatch row is the source with matchedAmount, difference = source.amount - matched.amount, and matchType 'Mismatch' |
| ExportHelper.LabelAll | frontend/src/utils/CSVExportHelper.js:51-59 | each item is labelled, in order |
| ExportHelper.Sources | frontend/src/utils/CSVExportHelper.js:37-38 | the sources of the pairs, in order |
| ExportHelper.PrepareExportDataSpec | frontend/src/utils/CSVExportHelper.js:33-73 | each group has one row per input item, and allData is perfect, mismatches, receivables and payables concatenated, in that order |
| ExportHelper.AllDataLabels | frontend/src/utils/CSVExportHelper.js:66-71 | row i of allData carries the matchType of the group its position falls in |
| ExportGenerators.PerfectFields | frontend/src/components/CSVExportHelper.js:55-63 | seven values, one per column |
| ExportGenerators.MismatchFields | frontend/src/components/CSVExportHelper.js:88-102 | thirteen values, one per column |
| ExportGenerators.UnmatchedFields | frontend/src/components/CSVExportHelper.js:121-130 | eight values, one per column |
| ExportGenerators.ExportToCsv | frontend/src/components/CSVExportHelper.js:8-24 | an export is produced iff the name is one of the three known; any other name returns nothing |
| ExportGenerators.ExportToCsvDispatch | frontend/src/components/CSVExportHelper.js:8-20 | each known name calls its own generator and gets its own '.csv' file name |
| ExportGenerators.DocumentLines | frontend/src/components/CSVExportHelper.js:51-66 | without rows the document is the header line and a newline; with rows it splits into the header line and one line per row, no trailing newline (the rows are built at line 132) |
| ExportGenerators.RowFields | frontend/src/components/CSVExportHelper.js:63 | a row without commas in its values splits back into their texts |
| ExportGenerators.PerfectColumnCount | frontend/src/components/CSVExportHelper.js:43-51 | the perfect-match header has seven columns |
| ExportGenerators.MismatchColumnCount | frontend/src/components/CSVExportHelper.js:70-84 | the mismatch header has thirteen columns |
| ExportGenerators.UnmatchedColumnCount | frontend/src/components/CSVExportHelper.js:109-118 | the unmatched header has eight columns |
| ExportGenerators.MismatchInterleaves | frontend/src/components/CSVExportHelper.js:88-102 | the mismatch columns alternate source and matched values, field by field, and a missing reference is '' |
| ExportGenerators.UnmatchedLedgerField | frontend/src/components/CSVExportHelper.js:122 | the first column is 'Accounts Receivable' iff `isAR` is truthy, else 'Accounts Payable' |
| ExportGenerators.MissingReferenceEmpty | frontend/src/components/CSVExportHelper.js:62 | a missing reference is written as an empty column |
| ExportButtons.Fallback | frontend/src/components/CSVExportButtons.jsx:19-20 | `a \|\| b \|\| ''`: the first truthy of the two, else '' |
| ExportButtons.YesNo | frontend/src/components/CSVExportButtons.jsx:25-49 | 'Yes' iff either side's flag is truthy, otherwise 'No' |
| ExportButtons.PerfectRow | frontend/src/components/CSVExportButtons.jsx:17-31 | a perfect-match row has one value per header |
| ExportButtons.MismatchRow | frontend/src/components/CSVExportButtons.jsx:40-54 | a mismatch row has one value per header |
| ExportButtons.UnsignedMoney | frontend/src/utils/csvExport.js:4-9 | a non-negative amount prints without a sign and reads back to the cent; only NaN prints '' |
| ExportButtons.DifferenceNotNegative | frontend/src/components/CSVExportButtons.jsx:46 | the Difference column is never negative: it is \|a - b\| to the cent, and '' exactly when either amount does not parse |
| ExportButtons.UnmatchedRow | frontend/src/components/CSVExportButtons.jsx:64-91 | an unmatched row has one value per header and starts with its side's label |
| ExportButtons.SideRows | frontend/src/components/CSVExportButtons.jsx:64-79 | one row per item of the side, in order |
| ExportButtons.UnmatchedRowsSpec | frontend/src/components/CSVExportButtons.jsx:64-94 | the combined rows are every receivable's row followed by every payable's row; a missing side counts as empty |
| ExportButtons.UnmatchedLabels | frontend/src/components/CSVExportButtons.jsx:66-94 | row i is labelled 'Receivable' iff it comes from company1 |
| ExportButtons.InsightRow | frontend/src/components/CSVExportButtons.jsx:107-129 | an insight row has one value per header |
| ExportButtons.PerfectMatchesExport | frontend/src/components/CSVExportButtons.jsx:32 | the file is perfect_matches.csv |
| ExportButtons.MismatchesExport | frontend/src/components/CSVExportButtons.jsx:55 | the file is mismatches.csv |
| ExportButtons.UnmatchedItemsExport | frontend/src/components/CSVExportButtons.jsx:97 | the file is unmatched_items.csv |
| ExportButtons.HistoricalInsightsExport | frontend/src/components/CSVExportButtons.jsx:104-132 | no file is written exactly when there are no insights |
| ExportButtons.UnmatchedCount | frontend/src/components/CSVExportButtons.jsx:180 | the unmatched count is the sum of both sides' lengths, a missing side counting 0 |
| ExportButtons.SummaryRows | frontend/src/components/CSVExportButtons.jsx:149-190 | the summary has ten rows |
| ExportButtons.SummaryExport | frontend/src/components/CSVExportButtons.jsx:192 | the file is reconciliation_summary.csv |
| ExportButtons.AllDataExports | frontend/src/components/CSVExportButtons.jsx:147-208 | four files, or five when there are insights |
| ExportButtons.Bundle | frontend/src/components/CSVExportButtons.jsx:192-207 | the four files keep their given order, and the optional insights file comes fifth |
| ExportButtons.AllDataExportsOrder | frontend/src/components/CSVExportButtons.jsx:192-202 | the files come in the order summary, perfect matches, mismatches, unmatched items |
| ExportButtons.AllDataInsightsFile | frontend/src/components/CSVExportButtons.jsx:204-207 | the last file is historical_insights.csv iff there are insights |
| ExportButtons.AllDataRunAsWritten | frontend/src/components/CSVExportButtons.jsx:192-196 | run natively, the handler writes reconciliation_summary.csv alone and then throws |
| ExportButtons.AllDataRunMissesSections | frontend/src/components/CSVExportButtons.jsx:192-207 | the run as written writes only the first of the intended files and throws, so none of the section files is written |
| ExportButtons.BundleAfterFirst | frontend/src/components/CSVExportButtons.jsx:192-207 | the first file of a bundle is a strict prefix of it, and no later file shares its name |
| ExportButtons.SectionNamesDiffer | frontend/src/components/CSVExportButtons.jsx:32-192 | no section file is named reconciliation_summary.csv |
| ExportButtons.SummaryUnmatchedCount | frontend/src/components/CSVExportButtons.jsx:178-181 | the eighth summary row is the unmatched items count |
| TokenStore.ExpiresAt | backend/src/utils/tokenStore.js:10 | `Date.now() + expires_in * 1000`, and NaN exactly when expires_in is not numeric |
| TokenStore.StampedSpec | backend/src/utils/tokenStore.js:8-11 | the saved record keeps every given field, sets expires_at afresh and adds nothing else |
| TokenStore.ValidTokens | backend/src/utils/tokenStore.js:42-63 | a returned record is the stored one |
| TokenStore.AfterCheck | backend/src/utils/tokenStore.js:51-55 | the check only ever clears the store |
| TokenStore.ValidTokensCases | backend/src/utils/tokenStore.js:42-63 | nothing stored or an expired record gives null (and the store is then empty); a live record is returned and kept |
| TokenStore.AfterCheckIdempotent | backend/src/utils/tokenStore.js:42-63 | checking twice at the same time changes nothing more and returns the same |
| TokenStore.ExpiredLater | backend/src/utils/tokenStore.js:51 | once expired, a record stays expired |
| TokenStore.SavedLifetime | backend/src/utils/tokenStore.js:10-51 | a saved record is valid strictly before saved + 1000 * expires_in and expired from then on; with a non-numeric expires_in it never expires |
| TokenStore.Store.constructor | backend/src/utils/tokenStore.js:4-25 | nothing is stored before the first save |
| TokenStore.Store.SaveTokens | backend/src/utils/tokenStore.js:5-15 | the stamped record is returned and stored |
| TokenStore.Store.GetTokens | backend/src/utils/tokenStore.js:22-30 | the stored record, or null |
| TokenStore.Store.ClearTokens | backend/src/utils/tokenStore.js:32-40 | the store is empty afterwards |
| TokenStore.Store.GetValidTokens | backend/src/utils/tokenStore.js:42-63 | returns the specified valid tokens and leaves the specified store |
| TokenStore.SaveThenCheck | backend/src/utils/tokenStore.js:5-63 | a save followed by a check before expiry returns the saved record and keeps it |
| TokenStore.ClearThenCheck | backend/src/utils/tokenStore.js:32-63 | after a clear, the check returns null |
| XeroAuth.Text | backend/auth/xero_auth.py:12-33 | a present setting is formatted as itself (a missing one as 'None') |
| XeroAuth.ParseFieldOf | backend/auth/xero_auth.py:33 | a `k=v` field with no '=' in the key reads back as (k, v) |
| XeroAuth.ParseQueryOf | backend/auth/xero_auth.py:33 | the query string of plain parameters reads back as those parameters, in order |
| XeroAuth.TokenManager.AuthorizationParams | backend/auth/xero_auth.py:24-30 | five parameters in dict order: response_type 'code', client_id, redirect_uri, the scope, the state |
| XeroAuth.TokenManager.ExchangeParams | backend/auth/xero_auth.py:44-48 | grant_type 'authorization_code', the code, then redirect_uri when one is set; `requests` drops the field when it is None |
| XeroAuth.TokenManager.RefreshParams | backend/auth/xero_auth.py:63-66 | grant_type 'refresh_token' and the refresh token, nothing else |
| XeroAuth.TokenManager.TokenRequest | backend/auth/xero_auth.py:76-88 | the request goes to the token URL with the data as its body |
| XeroAuth.TokenManager.ExchangeCodeForTokens | backend/auth/xero_auth.py:39-56 | every failure is wrapped with one of the two exchange prefixes |
| XeroAuth.TokenManager.RefreshAccessToken | backend/auth/xero_auth.py:58-74 | every failure is wrapped with one of the two refresh prefixes |
| XeroAuth.FromEnvironment | backend/auth/xero_auth.py:11-17 | the client id is the XERO_CLIENT_ID variable when set, and None otherwise |
| XeroAuth.CheckStatus | backend/auth/xero_auth.py:90-95 | the response is accepted iff it arrived and its status is 200 |
| XeroAuth.Wrapped | backend/auth/xero_auth.py:53-74 | success passes through; a request exception gets the request prefix, any other error the other prefix |
| XeroAuth.HandleXeroAuthError | backend/auth/xero_auth.py:124-132 | the reply is error true, status_code 401, and the error's message |
| XeroAuth.AroundMark | backend/auth/xero_auth.py:34 | the first '?' of the URL is the one after the authorize URL |
| XeroAuth.AuthorizationKeysPlain | backend/auth/xero_auth.py:24-30 | the parameter names hold no '=' or '&' |
| XeroAuth.AuthorizationParamsPlain | backend/auth/xero_auth.py:24-30 | without '&' in the client id, the redirect URI and the state, the parameters are plain |
| XeroAuth.AuthorizationUrlParses | backend/auth/xero_auth.py:19-34 | the URL is the authorize URL, '?', and a query that reads back as the five parameters |
| XeroAuth.RequestBodies | backend/auth/xero_auth.py:44-66 | the exchange body is the grant type and the code, followed by redirect_uri exactly when one is set; the refresh body has no redirect_uri |
| XeroAuth.BasicCredentialDecodes | backend/auth/xero_auth.py:115-121 | the header decodes (base64, then UTF-8) to 'client_id:client_secret', and splits back at the first ':' when the id has none |
| XeroAuth.BasicCredentialInjective | backend/auth/xero_auth.py:115-121 | two managers with the same header have the same 'id:secret' text |
| XeroAuth.StatusFailure | backend/auth/xero_auth.py:90-93 | a non-200 status ends as 'Unexpected error during token exchange: Token request failed with status N: text' (the refresh has the same test at lines 55-56) |
| XeroAuth.RequestFailureWrapped | backend/auth/xero_auth.py:71-72 | an unreachable server ends as 'Error refreshing access token: ' and the reason |
| XeroAuth.ProcessTokenResponseSpec | backend/auth/xero_auth.py:97-106 | the tokens exist iff expires_in is present and a valid timedelta; expires_at is now + expires_in, and every other field is kept |
| XeroAuth.ObtainSpec | backend/auth/xero_auth.py:39-56 | the exchange succeeds iff the status is 200 and the body processes, and then gives the processed tokens |
| XeroAuth.ExpiryAfresh | backend/auth/xero_auth.py:104 | expires_at moves with the clock, by exactly the elapsed time |
| Utf8.EncodeChar | backend/auth/xero_auth.py:121 | one to four bytes, one exactly for ASCII, the rest continuation bytes |
| Utf8.Encode | backend/auth/xero_auth.py:121 | `str.encode()` gives at least one byte per character |
| Utf8.DecodeEncodeChar | backend/auth/xero_auth.py:121 | each character's bytes read back as it, whatever follows |
| Utf8.DecodeEncode | backend/auth/xero_auth.py:121 | decoding the encoding gives the text back |
| Utf8.EncodeInjective | backend/auth/xero_auth.py:121 | different texts have different encodings |
| Utf8.EncodeAscii | backend/auth/xero_auth.py:121 | ASCII text is one byte per character, its code |
| Base64.Letter | backend/auth/xero_auth.py:121 | no alphabet letter is '=' |
| Base64.ValueOfLetter | backend/auth/xero_auth.py:121 | each letter reads back as its value |
| Base64.Quad | backend/auth/xero_auth.py:121 | three bytes give four letters without padding |
| Base64.Encode | backend/auth/xero_auth.py:121 | `b64encode` gives 4 * ceil(n / 3) characters |
| Base64.DecodeOfQuad | backend/auth/xero_auth.py:121 | four letters read back as their three bytes |
| Base64.DecodeEncode | backend/auth/xero_auth.py:121 | decoding the encoding gives the bytes back |
| Base64.EncodeInjective | backend/auth/xero_auth.py:121 | different byte strings have different encodings |
| JsNumbers.Cents | backend/index.js:184 | `toFixed(2)` rounds to the nearest cent, halves up |
| JsNumbers.ToFixed2Shape | backend/index.js:239-241 | `toFixed(2)` writes an optional '-', digits, '.', and two digits; the sign appears iff the value is negative |
| JsNumbers.ParseFloatOfToFixed2 | backend/index.js:184-185 | `parseFloat(x.toFixed(2))` and `Number(x.toFixed(2))` are x rounded to the cent |
| JsValues.Or | backend/src/routes/processRoutes.js:61 | `a \|\| b` is a when a is truthy, and b otherwise |
| JsValues.JoinText | frontend/src/components/CSVExportHelper.js:63 | `join` writes null and undefined as '' and everything else as `String(v)` |
| Strings.Trim | backend/src/routes/processRoutes.js:39 | `trim()` leaves no whitespace at either end |
| Strings.JoinSplit | backend/src/routes/processRoutes.js:45 | joining the pieces of a split by its separator gives the text back |
| Strings.SplitJoin | backend/src/routes/processRoutes.js:45-51 | splitting a join of separator-free pieces gives the pieces back |
| Strings.ToLowerAscii | backend/src/utils/errors.js:86 | `toLowerCase()` maps A-Z to a-z and keeps every other character |
| Seqs.Filter | frontend/src/utils/matchingLogic.js:142-147 | `filter` keeps exactly the elements satisfying the predicate |
| Seqs.FilterMultiset | backend/src/utils/matching.js:342-349 | `filter` keeps every satisfying element with its multiplicity and drops the others |

## Left out

- HTTP plumbing is not modelled, being I/O around the modelled functions:
  - Express routing, multer uploads and `fs`;
  - the `/match` handler (backend/index.js:258-294), including its date-format defaults and the missing-files reply;
  - the `/process-csv` route of backend/src/routes/fileRoutes.js:9-56, which only runs the csv-parse library;
  - the multer error and missing-file replies (backend/src/routes/processRoutes.js:22-33);
  - the 500 catch-all (backend/src/routes/processRoutes.js:80-85);
  - the `row` echoed with a row error (backend/src/routes/processRoutes.js:72);
  - the error middleware and `validateRequest` of backend/src/utils/errors.js:29-78.
- The network call `requests.post` (backend/auth/xero_auth.py:84-88) is replaced by a `Reply` value: no server, or a status, a text and a body.
- A top-level JSON body that is not an object is not modelled.
- A JSON decode failure counts as a `requests.RequestException`, as `JSONDecodeError` is one in current requests.
- `_generate_state` (backend/auth/xero_auth.py:108-113) uses randomness, so the state is a parameter.
- `Date.now()` and `datetime.now()` are the `now` parameter, in milliseconds and in seconds.
- IEEE-754 arithmetic is not modelled:
  - amounts are exact reals;
  - `toFixed(2)` rounds half up on the exact value;
  - `parseFloat` reads digits with an optional '.' but no exponent;
  - there is no Infinity.
- The `timedelta` microsecond rounding and `OverflowError` are not modelled; only the NaN and type errors of `timedelta(seconds=...)` are.
- Date libraries are parameters, not models:
  - dayjs parsing and formatting: `normalizeData` is not modelled, `Matching` takes dates as day numbers, and its `dateText` parameter formats a payment date;
  - the JS `Date` constructor with its overflow normalisation, `toISOString` and the time zone (`makeDate`);
  - the `Date` branch of csvExport.js's `formatDateForCSV` (`viaDate`);
  - `formatDateForCSV` of MatchingResultsCSVExport.js, which only calls `toISOString`.
- `toLowerCase` is modelled on ASCII letters only.
- TransactionMatching.MakeConfig: takes booleans and numbers; a key passed explicitly as `undefined` is not modelled.
- A transaction or match that is null or not an object, which throws a TypeError in the source, is not modelled.
- A file object without `originalname` is not modelled.
- `Object.values(row)` is modelled as the row's values in the order they are listed. Rows are built as lists in that order.
- Downloads are not modelled: Blob, `createObjectURL`, the DOM link and `msSaveBlob`. An export is its file name and its text.
- `ExportAllDataButton` applies `new` to the other button components, which are arrow functions. ExportButtons.AllDataExports models the files the handler is meant to write, as it behaves where the components are compiled to ordinary functions; the native run, which throws after the summary file, is ExportButtons.AllDataRunAsWritten (see "## Findings").
- MatchData.MatchDatasets: every truthy value that is not an array is taken to have no `reduce` method, so an object that supplies its own `reduce`, `filter` and `some` is not modelled; the TypeError text is V8's.
- JsNumbers.NumToString: the exponent form `String` uses for magnitudes of 1e21 and above and for non-zero magnitudes below 1e-6 ("1e+21", "1e-7") is not modelled; the model prints such numbers in plain digits, and it gives up to 20 digits of the expansion where the engine gives the shortest that reads back.
- TokenStore.Store.GetValidTokens: each call of the store runs to completion; the interleaving the `async` methods allow, a `saveTokens` landing between `getTokens` and `clearTokens` (backend/src/utils/tokenStore.js:44-53), is not captured.
- JsNumbers.StringToNumber: reads only decimal literals without an exponent; `Number` also reads hexadecimal, octal and binary literals, exponents and 'Infinity', which the model gives as NaN.
- A `null` tokens argument to `saveTokens` is not modelled.
- The unused `TOKEN_KEY` and `TOKEN_EXPIRY` constants are not modelled.
- console logging is not modelled.
- Matching.BestHistorical: when a match has no date the comparator returns 0 against it and is not a consistent order, so the record the engine's `sort` puts first is implementation-defined; the model takes the first record that no later one goes strictly before in a left-to-right scan, and claims the `sortedMatches[0]` property only when every match is dated.
- CsvIngest.Upload: every failure reply has status 400.
- CsvIngest.CleanAmountStrict: only a text cell is modelled, since `split` yields only texts.
- ExportHelper.HeaderLineAsWritten: a header object is modelled by its `key` alone.

## Findings

| source | as written | input that shows it | evidently intended | confidence | as-written member | corrected member |
|---|---|---|---|---|---|---|
| frontend/src/components/CSVExportButtons.jsx:195 | `new ExportPerfectMatchesButton({ data: perfectMatches })` applies `new` to an arrow function | any click on "Export All Data (CSV)" in a native ES2015+ build: reconciliation_summary.csv is written (line 192), then `new` throws "TypeError: ExportPerfectMatchesButton is not a constructor" | every section file is written after the summary, as calling each component and its `props.onClick` would | high that a native run throws; not executed | ExportButtons.AllDataRunMissesSections | ExportButtons.AllDataExports |
| frontend/src/utils/CSVExportHelper.js:5 | `csvRows.push(headers.join(','))` joins the header objects themselves, and each object prints as "[object Object]" | headers `[{ key: 'amount' }]` give the header line "[object Object]" | the header line names the columns: the keys joined by ',' (the values below are looked up by `header.key`) | high that the line is wrong; not executed | ExportHelper.HeaderLineNamesNoColumn | ExportHelper.ConvertToCsv |
