/** The error classes and the request validators of
    backend/src/utils/errors.js. A validator that throws is modelled as a
    function giving the error it throws, or None when it returns. */
module Validation {
  import opened Results
  import opened Strings
  import opened JsValues
  import LedgerAnalysis

  /** The three error classes; each fixes its `name` and its HTTP status. */
  datatype ErrorKind = ValidationError | XeroError | DataProcessingError

  /** A thrown error: its class and its message. */
  datatype AppError = AppError(kind: ErrorKind, message: string)

  /** The `status` a class's constructor sets. */
  function Status(k: ErrorKind): (s: nat)
    ensures 400 <= s < 600
    ensures s < 500 <==> k.ValidationError?
    ensures !k.ValidationError? ==> s == 500
  {
    match k
    case ValidationError => 400
    case XeroError => 500
    case DataProcessingError => 500
  }

  /** The `name` a class's constructor sets. */
  function Name(k: ErrorKind): (s: string)
    ensures EndsWith(s, "Error")
  {
    match k
    case ValidationError => "ValidationError"
    case XeroError => "XeroError"
    case DataProcessingError => "DataProcessingError"
  }

  /** Each class has a name of its own. */
  lemma NamesDistinct(a: ErrorKind, b: ErrorKind)
    ensures Name(a) == Name(b) <==> a == b
  {
    if a != b {
      assert Name(a)[0] != Name(b)[0] || |Name(a)| != |Name(b)|;
    }
  }

  function Invalid(message: string): AppError {
    AppError(ValidationError, message)
  }

  /** `validateFile(file)`: `file` is None when no file was sent, else the
      file's `originalname`. */
  function ValidateFile(file: Option<string>): (r: Option<AppError>)
    ensures r.Some? ==> r.value.kind.ValidationError?
    ensures file.None? ==> r == Some(Invalid("No file provided"))
  {
    match file
    case None => Some(Invalid("No file provided"))
    case Some(name) =>
      if !EndsWith(ToLowerAscii(name), ".csv") then Some(Invalid("Only CSV files are allowed"))
      else None
  }

  /** A name's last four characters are a dot and the letters c, s and v
      in either case. */
  predicate CsvName(name: string) {
    |name| >= 4 &&
    name[|name| - 4] == '.' &&
    name[|name| - 3] in {'c', 'C'} &&
    name[|name| - 2] in {'s', 'S'} &&
    name[|name| - 1] in {'v', 'V'}
  }

  /** A sent file is accepted exactly when its name ends in ".csv" in any
      mix of cases, and is otherwise rejected as not being CSV. */
  lemma ValidateFileAccepts(name: string)
    ensures ValidateFile(Some(name)) == None <==> CsvName(name)
    ensures !CsvName(name) ==> ValidateFile(Some(name)) == Some(Invalid("Only CSV files are allowed"))
  {
    var l := ToLowerAscii(name);
    if |name| >= 4 {
      var e := l[|l| - 4..];
      assert |e| == 4 && e[0] == l[|l| - 4] && e[1] == l[|l| - 3] && e[2] == l[|l| - 2] && e[3] == l[|l| - 1];
      assert e == ".csv" <==> e[0] == '.' && e[1] == 'c' && e[2] == 's' && e[3] == 'v';
    }
  }

  /** The `validFormats` list, in its order. */
  const ValidFormats: seq<string> := ["YYYY-MM-DD", "DD/MM/YYYY", "MM/DD/YYYY", "DD-MM-YYYY", "MM-DD-YYYY"]

  /** `validateDateFormat(format)`: `includes` compares with SameValueZero,
      which for a list of strings finds only a string equal to one of them. */
  function ValidateDateFormat(format: Value): (r: Option<AppError>)
    ensures r.Some? ==> r.value == Invalid("Invalid date format. Supported formats are: " + Join(ValidFormats, ", "))
  {
    if format.Str? && format.s in ValidFormats then None
    else Some(Invalid("Invalid date format. Supported formats are: " + Join(ValidFormats, ", ")))
  }

  /** The formats accepted are exactly the five that `parseDateString` of
      backend/index.js can lay out; every other value is rejected. */
  lemma ValidateDateFormatAccepts(format: Value)
    ensures ValidateDateFormat(format) == None <==> format.Str? && LedgerAnalysis.FormatLayout(format.s).Some?
  {
    if format.Str? {
      LedgerAnalysis.SupportedFormats(format.s);
    }
  }

  /** A posted transaction, as a JavaScript object. */
  type Transaction = Object

  /** `requiredFields`, in the order they are checked. */
  const RequiredFields: seq<string> := ["transactionNumber", "type", "amount", "date", "status"]

  /** What `validateTransactionData` rejects, with the index of the
      offending transaction. */
  datatype Problem =
    | NotArray
    | MissingField(index: nat, field: string)
    | BadAmount(index: nat, number: Value)
    | BadDate(index: nat, number: Value)

  /** The message of the ValidationError thrown for a problem. */
  function ProblemMessage(p: Problem): string {
    match p
    case NotArray => "Invalid data format. Expected an array of transactions."
    case MissingField(i, f) => "Missing required field '" + f + "' in transaction at index " + NatToString(i)
    case BadAmount(_, n) => "Invalid amount in transaction " + ToStr(n)
    case BadDate(_, n) => "Invalid date format in transaction " + ToStr(n)
  }

  /** The first required field, in list order from `k`, that is falsy. */
  function MissingFrom(t: Transaction, k: nat): (r: Option<string>)
    requires k <= |RequiredFields|
    ensures r.Some? ==> r.value in RequiredFields[k..] && !Truthy(Property(t, r.value))
    ensures r.None? <==> forall j :: k <= j < |RequiredFields| ==> Truthy(Property(t, RequiredFields[j]))
    decreases |RequiredFields| - k
  {
    if k == |RequiredFields| then None
    else if !Truthy(Property(t, RequiredFields[k])) then Some(RequiredFields[k])
    else MissingFrom(t, k + 1)
  }

  /** The checks one transaction goes through, in the order they run. */
  function CheckTransaction(t: Transaction, index: nat): (r: Option<Problem>)
    ensures r.Some? ==> !r.value.NotArray? && r.value.index == index
  {
    match MissingFrom(t, 0)
    case Some(f) => Some(MissingField(index, f))
    case None =>
      if !Property(t, "amount").Number? then Some(BadAmount(index, Property(t, "transactionNumber")))
      else if !IsoDateText(ToStr(Property(t, "date"))) then Some(BadDate(index, Property(t, "transactionNumber")))
      else None
  }

  /** A transaction that passes every check. */
  predicate WellFormed(t: Transaction) {
    (forall f :: f in RequiredFields ==> Truthy(Property(t, f))) &&
    Property(t, "amount").Number? &&
    IsoDateText(ToStr(Property(t, "date")))
  }

  /** The `forEach` over the transactions from index `i`: the first problem. */
  function CheckFrom(data: seq<Transaction>, i: nat): (r: Option<Problem>)
    requires i <= |data|
    ensures r.Some? ==> !r.value.NotArray? && i <= r.value.index < |data|
    decreases |data| - i
  {
    if i == |data| then None
    else match CheckTransaction(data[i], i)
      case Some(p) => Some(p)
      case None => CheckFrom(data, i + 1)
  }

  /** `validateTransactionData(data)`: `data` is None when it is not an
      array. */
  function ValidateTransactionData(data: Option<seq<Transaction>>): (r: Option<Problem>)
    ensures data.None? ==> r == Some(NotArray)
  {
    match data
    case None => Some(NotArray)
    case Some(d) => CheckFrom(d, 0)
  }

  /** A transaction passes its checks exactly when it is well formed. */
  lemma CheckTransactionSpec(t: Transaction, index: nat)
    ensures CheckTransaction(t, index).None? <==> WellFormed(t)
  {
    if MissingFrom(t, 0).None? {
      forall f | f in RequiredFields ensures Truthy(Property(t, f)) {
        var j :| 0 <= j < |RequiredFields| && RequiredFields[j] == f;
      }
    } else {
      assert RequiredFields[0..] == RequiredFields;
    }
  }

  /** The required fields from index `k` up to `j` are all truthy. */
  predicate TruthyBetween(t: Transaction, k: nat, j: nat) {
    forall m :: k <= m < j && m < |RequiredFields| ==> Truthy(Property(t, RequiredFields[m]))
  }

  /** The reported field is the first falsy one in list order: every field
      before it is truthy. */
  lemma {:induction false} MissingFromFirst(t: Transaction, k: nat)
    requires k <= |RequiredFields|
    ensures var r := MissingFrom(t, k);
      r.Some? ==> exists j :: k <= j < |RequiredFields| && RequiredFields[j] == r.value && TruthyBetween(t, k, j)
    decreases |RequiredFields| - k
  {
    if k < |RequiredFields| && Truthy(Property(t, RequiredFields[k])) {
      MissingFromFirst(t, k + 1);
    }
  }

  /** The data is accepted exactly when it is an array of well-formed
      transactions. */
  lemma {:induction false} CheckFromAccepts(data: seq<Transaction>, i: nat)
    requires i <= |data|
    ensures CheckFrom(data, i).None? <==> forall j :: i <= j < |data| ==> WellFormed(data[j])
    decreases |data| - i
  {
    if i < |data| {
      CheckTransactionSpec(data[i], i);
      CheckFromAccepts(data, i + 1);
    }
  }

  /** The problem reported is the one of the first transaction that fails,
      and it is the problem that transaction's own checks find. */
  lemma {:induction false} CheckFromFirst(data: seq<Transaction>, i: nat)
    requires i <= |data|
    ensures var r := CheckFrom(data, i);
      r.Some? ==> ((forall j :: i <= j < r.value.index ==> WellFormed(data[j])) &&
        CheckTransaction(data[r.value.index], r.value.index) == r)
    decreases |data| - i
  {
    if i < |data| {
      var r := CheckFrom(data, i);
      if CheckTransaction(data[i], i).Some? {
        assert r == CheckTransaction(data[i], i);
      } else {
        assert r == CheckFrom(data, i + 1);
        CheckFromFirst(data, i + 1);
        if r.Some? {
          CheckTransactionSpec(data[i], i);
          assert WellFormed(data[i]);
        }
      }
    }
  }

  /** Validation as a whole: an array is accepted iff every transaction is
      well formed; otherwise the error names the first failing transaction
      and that transaction's first failing check. */
  lemma ValidateTransactionDataSpec(data: seq<Transaction>)
    ensures ValidateTransactionData(Some(data)).None? <==> forall j :: 0 <= j < |data| ==> WellFormed(data[j])
    ensures var r := ValidateTransactionData(Some(data));
      r.Some? ==> (r.value.index < |data| && (forall j :: 0 <= j < r.value.index ==> WellFormed(data[j])) &&
        CheckTransaction(data[r.value.index], r.value.index) == r)
  {
    CheckFromAccepts(data, 0);
    CheckFromFirst(data, 0);
  }

  /** An amount of 0 is falsy, so it is reported as a missing field before
      its type is looked at. */
  lemma ZeroAmountMissing(t: Transaction)
    requires Truthy(Property(t, "transactionNumber")) && Truthy(Property(t, "type"))
    requires Property(t, "amount") == Number(JsNumbers.Fin(0.0))
    ensures ValidateTransactionData(Some([t])) == Some(MissingField(0, "amount"))
  {
    assert RequiredFields[0] == "transactionNumber" && RequiredFields[1] == "type" && RequiredFields[2] == "amount";
  }

  /** A numeric amount given as text is rejected once the required fields
      are present. */
  lemma TextAmountRejected(t: Transaction)
    requires forall f :: f in RequiredFields ==> Truthy(Property(t, f))
    requires Property(t, "amount").Str?
    ensures ValidateTransactionData(Some([t])) == Some(BadAmount(0, Property(t, "transactionNumber")))
  {
    assert forall j :: 0 <= j < |RequiredFields| ==> RequiredFields[j] in RequiredFields;
  }
}
