/** JavaScript numbers as exact reals plus NaN, and the conversions the
    ledger code uses: `parseFloat`, `Number(string)`, `parseInt(s, 10)`,
    `toFixed(2)` and `String(number)`. */
module JsNumbers {
  import opened Strings
  import opened Results

  /** A JavaScript number: a finite value or NaN. */
  datatype Num = Fin(val: real) | NaN

  function Add(a: Num, b: Num): Num {
    if a.Fin? && b.Fin? then Fin(a.val + b.val) else NaN
  }

  function Sub(a: Num, b: Num): Num {
    if a.Fin? && b.Fin? then Fin(a.val - b.val) else NaN
  }

  function Abs(a: Num): (r: Num)
    ensures r.Fin? <==> a.Fin?
    ensures r.Fin? ==> r.val >= 0.0 && (r.val == a.val || r.val == -a.val)
  {
    if a.NaN? then NaN else if a.val < 0.0 then Fin(-a.val) else a
  }

  function AbsReal(x: real): (r: real)
    ensures r >= 0.0 && (r == x || r == -x)
  {
    if x < 0.0 then -x else x
  }

  function Pow10(k: nat): (p: nat)
    ensures p >= 1
  {
    if k == 0 then 1 else 10 * Pow10(k - 1)
  }

  /** `10^-k`, the weight of the `k`-th digit after the point. */
  function Tenths(k: nat): (r: real)
    ensures r > 0.0
  {
    if k == 0 then 1.0 else Tenths(k - 1) / 10.0
  }

  /** The value of the digits `whole`, a point and `k` fraction digits
      whose value is `frac`. */
  function Decimal(whole: nat, frac: nat, k: nat): (r: real)
    ensures r >= 0.0
  {
    whole as real + frac as real * Tenths(k)
  }

  /** Number of leading decimal digits of `s`. */
  function DigitRun(s: string): (k: nat)
    ensures k <= |s| && AllDigits(s[..k])
    ensures k < |s| ==> !IsDigit(s[k])
  {
    if s != [] && IsDigit(s[0]) then
      var k := 1 + DigitRun(s[1..]);
      assert forall i :: 1 <= i < k ==> s[..k][i] == s[1..][..k - 1][i - 1];
      k
    else 0
  }

  /** A decimal literal found at the start of a string: its value and how
      many characters it occupies. */
  datatype Scan = Scan(value: real, len: nat)

  /** The longest prefix of `s` of the form `[+-]? digits ('.' digits?)?` or
      `[+-]? '.' digits`, the part of JavaScript's StrDecimalLiteral without
      exponents and `Infinity`. */
  function ScanDecimal(s: string): (r: Option<Scan>)
    ensures r.Some? ==> 1 <= r.value.len <= |s|
  {
    var neg := s != [] && s[0] == '-';
    var off := if s != [] && (s[0] == '-' || s[0] == '+') then 1 else 0;
    match ScanUnsigned(s[off..])
    case None => None
    case Some(sc) => Some(Scan(if neg then -sc.value else sc.value, off + sc.len))
  }

  /** The unsigned part of a decimal literal: `digits ('.' digits?)?` or
      `'.' digits`. */
  function ScanUnsigned(t: string): (r: Option<Scan>)
    ensures r.Some? ==> 1 <= r.value.len <= |t| && r.value.value >= 0.0
  {
    var k1 := DigitRun(t);
    var hasDot := k1 < |t| && t[k1] == '.';
    var k2 := if hasDot then DigitRun(t[k1 + 1..]) else 0;
    if k1 + k2 == 0 then None
    else
      assert t[..k1] == t[0..k1];
      assert hasDot ==> t[k1 + 1..][..k2] == t[k1 + 1..k1 + 1 + k2];
      var whole := DigitsValue(t[..k1]);
      var frac := if hasDot then DigitsValue(t[k1 + 1..k1 + 1 + k2]) else 0;
      Some(Scan(Decimal(whole, frac, k2), k1 + (if hasDot then 1 + k2 else 0)))
  }

  /** `parseFloat(s)`: skips leading whitespace and reads the longest decimal
      prefix; NaN when there is none. */
  function ParseFloat(s: string): Num {
    match ScanDecimal(TrimStart(s))
    case Some(sc) => Fin(sc.value)
    case None => NaN
  }

  /** A text without a digit holds no decimal literal, so `parseFloat`
      gives NaN. */
  lemma ParseFloatNoDigit(s: string)
    requires forall i :: 0 <= i < |s| ==> !IsDigit(s[i])
    ensures ParseFloat(s).NaN?
  {
    var t := TrimStart(s);
    var off := if t != [] && (t[0] == '-' || t[0] == '+') then 1 else 0;
    var u := t[off..];
    assert forall i :: 0 <= i < |u| ==> u[i] == s[|s| - |t| + off + i];
    ScanUnsignedNoDigit(u);
  }

  /** Nor does its unsigned part. */
  lemma ScanUnsignedNoDigit(u: string)
    requires forall i :: 0 <= i < |u| ==> !IsDigit(u[i])
    ensures ScanUnsigned(u).None?
  {
    NoDigitRun(u);
    if 0 < |u| {
      NoDigitRun(u[1..]);
    }
  }

  /** It has no leading digit. */
  lemma NoDigitRun(u: string)
    requires forall i :: 0 <= i < |u| ==> !IsDigit(u[i])
    ensures DigitRun(u) == 0
  {
  }

  /** `Number(s)` for a string: blank text is 0, otherwise the whole trimmed
      text must be a decimal literal. */
  function StringToNumber(s: string): Num {
    var t := Trim(s);
    if t == [] then Fin(0.0)
    else match ScanDecimal(t)
      case Some(sc) => if sc.len == |t| then Fin(sc.value) else NaN
      case None => NaN
  }

  /** `parseInt(s, 10)`: skips leading whitespace, reads an optional sign and
      the longest run of digits; None stands for NaN. */
  function ParseInt10(s: string): Option<int> {
    var t := TrimStart(s);
    var neg := t != [] && t[0] == '-';
    var off := if t != [] && (t[0] == '-' || t[0] == '+') then 1 else 0;
    var k := DigitRun(t[off..]);
    if k == 0 then None
    else
      var v: int := DigitsValue(t[off..][..k]);
      Some(if neg then -v else v)
  }

  /** The number of hundredths `toFixed(2)` picks for a non-negative value:
      the nearest one, the larger on a tie. */
  function Cents(x: real): (n: nat)
    requires x >= 0.0
    ensures (n as real) - 0.5 <= 100.0 * x < (n as real) + 0.5
  {
    (100.0 * x + 0.5).Floor
  }

  /** The value `toFixed(2)` prints, as a real. */
  function Round2(x: real): real {
    if x < 0.0 then -(Cents(-x) as real / 100.0) else Cents(x) as real / 100.0
  }

  /** `toFixed(2)` digits of a non-negative value. */
  function Fixed2Abs(x: real): (s: string)
    requires x >= 0.0
  {
    var m := PadNat(Cents(x), 3);
    m[..|m| - 2] + "." + m[|m| - 2..]
  }

  /** `n.toFixed(2)`: exactly two decimals, a '-' for negative values, "NaN"
      for NaN. Values of 1e21 and above, which JavaScript prints in exponent
      form, are not distinguished. */
  function ToFixed2(n: Num): string {
    match n
    case NaN => "NaN"
    case Fin(x) => if x < 0.0 then "-" + Fixed2Abs(-x) else Fixed2Abs(x)
  }

  /** The `toFixed(2)` text of a finite value: an optional '-', at least one
      digit, a '.', and exactly two digits. */
  lemma ToFixed2Shape(x: real)
    ensures var s := ToFixed2(Fin(x));
      var off := if x < 0.0 then 1 else 0;
      |s| >= off + 4 && (x < 0.0 <==> s[0] == '-') &&
      AllDigits(s[off..|s| - 3]) && s[|s| - 3] == '.' && AllDigits(s[|s| - 2..])
  {
  }

  lemma AllDigitsConcat(a: string, b: string)
    requires AllDigits(a) && AllDigits(b)
    ensures AllDigits(a + b)
  {
    assert forall i :: 0 <= i < |a| ==> (a + b)[i] == a[i];
    assert forall i :: |a| <= i < |a + b| ==> (a + b)[i] == b[i - |a|];
  }

  /** Appending a digit to `b` multiplies the place value of `a` by ten. */
  lemma ShiftDigit(va: nat, p: nat, vb: nat, d: int)
    ensures 10 * (va * p + vb) + d == va * (10 * p) + (10 * vb + d)
  {
  }

  lemma {:induction false} DigitsValueConcat(a: string, b: string)
    requires AllDigits(a) && AllDigits(b)
    ensures AllDigits(a + b)
    ensures DigitsValue(a + b) == DigitsValue(a) * Pow10(|b|) + DigitsValue(b)
    decreases |b|
  {
    AllDigitsConcat(a, b);
    if b == [] {
      assert a + b == a;
    } else {
      var b' := b[..|b| - 1];
      var last := b[|b| - 1] as int - '0' as int;
      DigitsValueConcat(a, b');
      var va, vb' := DigitsValue(a), DigitsValue(b');
      var p' := Pow10(|b'|);
      assert DigitsValue(a + b) == 10 * DigitsValue(a + b') + last by {
        assert (a + b)[..|a + b| - 1] == a + b';
        assert (a + b)[|a + b| - 1] == b[|b| - 1];
      }
      assert DigitsValue(b) == 10 * vb' + last;
      assert Pow10(|b|) == 10 * p';
      ShiftDigit(va, p', vb', last);
    }
  }

  lemma {:induction false} DigitsValueZeros(k: nat, d: string)
    requires AllDigits(d)
    ensures AllDigits(Zeros(k) + d) && DigitsValue(Zeros(k) + d) == DigitsValue(d)
  {
    DigitsValueConcat(Zeros(k), d);
    DigitsValueOfZeros(k);
  }

  lemma {:induction false} DigitsValueOfZeros(k: nat)
    ensures DigitsValue(Zeros(k)) == 0
  {
    if k > 0 {
      var z := Zeros(k);
      assert z[..|z| - 1] == Zeros(k - 1) by {
        assert z == "0" + Zeros(k - 1);
        ZerosSnoc(k - 1);
      }
      DigitsValueOfZeros(k - 1);
    }
  }

  lemma {:induction false} ZerosSnoc(k: nat)
    ensures Zeros(k) + "0" == "0" + Zeros(k)
  {
    if k > 0 {
      ZerosSnoc(k - 1);
      assert Zeros(k) + "0" == "0" + (Zeros(k - 1) + "0");
    }
  }

  lemma PadNatValue(n: nat, width: nat)
    ensures DigitsValue(PadNat(n, width)) == n
  {
    var d := NatToString(n);
    DigitsValueOfNatToString(n);
    PadDigitsValue(d, width);
  }

  /** Left-padding digits with zeros keeps their value. */
  lemma PadDigitsValue(d: string, width: nat)
    requires AllDigits(d)
    ensures var p := if |d| >= width then d else Zeros(width - |d|) + d;
      AllDigits(p) && DigitsValue(p) == DigitsValue(d)
  {
    if |d| < width {
      DigitsValueZeros(width - |d|, d);
    }
  }

  lemma {:induction false} DigitRunAll(s: string)
    requires AllDigits(s)
    ensures DigitRun(s) == |s|
  {
    if s != [] {
      DigitRunAll(s[1..]);
    }
  }

  lemma {:induction false} DigitRunBeforeDot(a: string, b: string)
    requires AllDigits(a)
    ensures DigitRun(a + "." + b) == |a|
  {
    if a != [] {
      assert (a + "." + b)[1..] == a[1..] + "." + b;
      DigitRunBeforeDot(a[1..], b);
    }
  }

  /** How `ScanUnsigned` reads a run of digits, a '.' and two digits. */
  lemma ScanUnsignedOfFixed(a: string, b: string)
    requires |a| >= 1 && AllDigits(a) && |b| == 2 && AllDigits(b)
    ensures ScanUnsigned(a + "." + b) == Some(Scan(Decimal(DigitsValue(a), DigitsValue(b), 2), |a| + 3))
  {
    var t := a + "." + b;
    DigitRunBeforeDot(a, b);
    assert t[..|a|] == a;
    assert t[|a|] == '.';
    assert t[|a| + 1..] == b;
    DigitRunAll(b);
    assert DigitRun(t[|a| + 1..]) == 2;
    assert t[|a| + 1..|a| + 1 + 2] == b;
  }

  lemma DecimalHundredths(v: nat, w: nat)
    ensures Decimal(v, w, 2) == v as real + w as real / 100.0
  {
    assert Tenths(2) == 0.01;
  }

  /** How `ScanDecimal` reads an optional '-', a run of digits, a '.' and
      two digits. */
  lemma ScanOfFixed(neg: bool, a: string, b: string)
    requires |a| >= 1 && AllDigits(a) && |b| == 2 && AllDigits(b)
    ensures var s := if neg then "-" + (a + "." + b) else a + "." + b;
      var mag := Decimal(DigitsValue(a), DigitsValue(b), 2);
      ScanDecimal(s) == Some(Scan(if neg then -mag else mag, |s|))
  {
    var t := a + "." + b;
    ScanUnsignedOfFixed(a, b);
    if neg {
      var s := "-" + t;
      assert s[1..] == t;
    } else {
      assert t[0] == a[0];
      assert t[0..] == t;
    }
  }

  /** The `toFixed(2)` digits of a number of hundredths, split at the point. */
  lemma FixedParts(n: nat) returns (a: string, b: string)
    ensures var m := PadNat(n, 3); m[..|m| - 2] == a && m[|m| - 2..] == b
    ensures |a| >= 1 && AllDigits(a) && |b| == 2 && AllDigits(b)
    ensures DigitsValue(a) * 100 + DigitsValue(b) == n
  {
    var m := PadNat(n, 3);
    a, b := m[..|m| - 2], m[|m| - 2..];
    assert m == a + b;
    assert forall i :: 0 <= i < |a| ==> a[i] == m[i];
    assert forall i :: 0 <= i < |b| ==> b[i] == m[|m| - 2 + i];
    PadNatValue(n, 3);
    DigitsValueConcat(a, b);
    assert Pow10(|b|) == 100;
  }

  lemma Fixed2AbsParts(x: real) returns (a: string, b: string)
    requires x >= 0.0
    ensures Fixed2Abs(x) == a + "." + b
    ensures |a| >= 1 && AllDigits(a) && |b| == 2 && AllDigits(b)
    ensures DigitsValue(a) * 100 + DigitsValue(b) == Cents(x)
  {
    a, b := FixedParts(Cents(x));
  }

  lemma CentsValue(va: nat, vb: nat, n: nat)
    requires va * 100 + vb == n
    ensures va as real + vb as real / 100.0 == n as real / 100.0
  {
  }

  /** The value `toFixed(2)` prints for `x`, given the digits it prints for
      `|x|`. */
  lemma Round2Value(x: real, va: nat, vb: nat)
    requires va * 100 + vb == Cents(AbsReal(x))
    ensures var mag := Decimal(va, vb, 2);
      Round2(x) == if x < 0.0 then -mag else mag
  {
    CentsValue(va, vb, Cents(AbsReal(x)));
    DecimalHundredths(va, vb);
  }

  lemma ToFixed2Parts(x: real) returns (a: string, b: string)
    ensures ToFixed2(Fin(x)) == if x < 0.0 then "-" + (a + "." + b) else a + "." + b
    ensures |a| >= 1 && AllDigits(a) && |b| == 2 && AllDigits(b)
    ensures DigitsValue(a) * 100 + DigitsValue(b) == Cents(AbsReal(x))
  {
    if x < 0.0 {
      a, b := Fixed2AbsParts(-x);
    } else {
      a, b := Fixed2AbsParts(x);
    }
  }

  lemma ScanOfToFixed2(x: real)
    ensures var s := ToFixed2(Fin(x)); ScanDecimal(s) == Some(Scan(Round2(x), |s|))
  {
    var a, b := ToFixed2Parts(x);
    Round2Value(x, DigitsValue(a), DigitsValue(b));
    ScanOfFixed(x < 0.0, a, b);
  }

  /** The `toFixed(2)` text has no whitespace at either end. */
  lemma ToFixed2Unpadded(x: real)
    ensures var s := ToFixed2(Fin(x)); !IsSpace(s[0]) && !IsSpace(s[|s| - 1])
  {
    var a, b := ToFixed2Parts(x);
    var s := ToFixed2(Fin(x));
    assert s[|s| - 1] == b[1];
    assert IsDigit(s[0]) || s[0] == '-';
  }

  /** The `toFixed(2)` text of a finite value consists of digits, '.' and
      '-'. */
  lemma ToFixed2Chars(x: real)
    ensures var s := ToFixed2(Fin(x));
      forall i :: 0 <= i < |s| ==> IsDigit(s[i]) || s[i] == '.' || s[i] == '-'
  {
    var a, b := ToFixed2Parts(x);
    var t := a + "." + b;
    assert forall i :: 0 <= i < |t| ==> IsDigit(t[i]) || t[i] == '.' by {
      assert forall i :: 0 <= i < |a| ==> t[i] == a[i];
      assert forall i :: |a| < i < |t| ==> t[i] == b[i - |a| - 1];
    }
    if x < 0.0 {
      var s := "-" + t;
      assert forall i :: 1 <= i < |s| ==> s[i] == t[i - 1];
    }
  }

  /** Reading back the digits `toFixed(2)` printed gives the rounded
      value. */
  lemma ParseFloatOfToFixed2(x: real)
    ensures ParseFloat(ToFixed2(Fin(x))) == Fin(Round2(x))
    ensures StringToNumber(ToFixed2(Fin(x))) == Fin(Round2(x))
  {
    var s := ToFixed2(Fin(x));
    ScanOfToFixed2(x);
    ToFixed2Unpadded(x);
    assert TrimStart(s) == s;
    TrimOfUnpadded(s);
  }

  /** Decimal digits of a fraction in [0, 1), at most `k` of them, stopping
      once the expansion ends. */
  function FractionDigits(f: real, k: nat): string
    requires 0.0 <= f < 1.0
    decreases k
  {
    if f == 0.0 || k == 0 then ""
    else
      var d := (10.0 * f).Floor;
      [DigitChar(d)] + FractionDigits(10.0 * f - d as real, k - 1)
  }

  /** `String(n)` for magnitudes from 1e-6 up to 1e21, where JavaScript
      prints plain digits: integers in decimal, other values with the
      digits of their decimal expansion (up to 20 of them); NaN prints
      "NaN". Outside that range the engine uses an exponent, which this
      does not. */
  function NumToString(n: Num): string {
    match n
    case NaN => "NaN"
    case Fin(x) =>
      var ax := AbsReal(x);
      var whole := ax.Floor;
      var sign := if x < 0.0 then "-" else "";
      if ax == whole as real then sign + NatToString(whole)
      else sign + NatToString(whole) + "." + FractionDigits(ax - whole as real, 20)
  }
}
