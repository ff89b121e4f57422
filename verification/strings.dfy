/** The JavaScript and Python string operations the ledger code relies on:
    whitespace, trimming, splitting on a separator, joining, case folding
    of ASCII letters, suffix tests and decimal rendering of naturals. */
module Strings {
  import opened Seqs

  predicate IsDigit(c: char) { '0' <= c <= '9' }

  predicate AllDigits(s: string) { forall i :: 0 <= i < |s| ==> IsDigit(s[i]) }

  /** JavaScript's WhiteSpace and LineTerminator code points: the set that
      `trim()` removes and that the regular expression class `\s` matches. */
  predicate IsSpace(c: char) {
    var n := c as int;
    n == 0x09 || n == 0x0A || n == 0x0B || n == 0x0C || n == 0x0D || n == 0x20 ||
    n == 0xA0 || n == 0x1680 || (0x2000 <= n <= 0x200A) || n == 0x2028 ||
    n == 0x2029 || n == 0x202F || n == 0x205F || n == 0x3000 || n == 0xFEFF
  }

  /** Drops leading whitespace. */
  function TrimStart(s: string): (r: string)
    ensures |r| <= |s| && r == s[|s| - |r|..]
    ensures r == [] || !IsSpace(r[0])
    ensures forall i :: 0 <= i < |s| - |r| ==> IsSpace(s[i])
  {
    if s != [] && IsSpace(s[0]) then TrimStart(s[1..]) else s
  }

  /** Drops trailing whitespace. */
  function TrimEnd(s: string): (r: string)
    ensures |r| <= |s| && r == s[..|r|]
    ensures r == [] || !IsSpace(r[|r| - 1])
    ensures forall i :: |r| <= i < |s| ==> IsSpace(s[i])
  {
    if s != [] && IsSpace(s[|s| - 1]) then TrimEnd(s[..|s| - 1]) else s
  }

  /** `String.prototype.trim`. */
  function Trim(s: string): (r: string)
    ensures |r| <= |s|
    ensures r == [] || (!IsSpace(r[0]) && !IsSpace(r[|r| - 1]))
  {
    TrimEnd(TrimStart(s))
  }

  lemma TrimOfUnpadded(s: string)
    requires s == [] || (!IsSpace(s[0]) && !IsSpace(s[|s| - 1]))
    ensures Trim(s) == s
  {
  }

  /** Index of the first occurrence of `c` in `s`. */
  function IndexOf(s: string, c: char): (i: nat)
    requires c in s
    ensures i < |s| && s[i] == c && c !in s[..i]
  {
    if s[0] == c then 0 else 1 + IndexOf(s[1..], c)
  }

  /** `s.split(c)` for a one-character separator, or `s.split(/[..]/)` for a
      class of separator characters: the maximal runs between separators,
      always at least one (the empty string splits into `[""]`). */
  function Split(s: string, seps: set<char>): (parts: seq<string>)
    ensures |parts| >= 1
    ensures forall i, j :: 0 <= i < |parts| && 0 <= j < |parts[i]| ==> parts[i][j] !in seps
    decreases |s|
  {
    if forall i :: 0 <= i < |s| ==> s[i] !in seps then [s]
    else
      var i := FirstIn(s, seps);
      [s[..i]] + Split(s[i + 1..], seps)
  }

  function FirstIn(s: string, seps: set<char>): (i: nat)
    requires exists i :: 0 <= i < |s| && s[i] in seps
    ensures i < |s| && s[i] in seps
    ensures forall j :: 0 <= j < i ==> s[j] !in seps
    ensures forall c :: c in seps ==> c !in s[..i]
  {
    if s[0] in seps then 0 else 1 + FirstIn(s[1..], seps)
  }

  /** `parts.join(sep)`. */
  function Join(parts: seq<string>, sep: string): string {
    if |parts| == 0 then ""
    else if |parts| == 1 then parts[0]
    else parts[0] + sep + Join(parts[1..], sep)
  }

  /** Splitting on one character and joining with it gives back the text. */
  lemma {:induction false} JoinSplit(s: string, c: char)
    ensures Join(Split(s, {c}), [c]) == s
    decreases |s|
  {
    if c in s {
      var i := FirstIn(s, {c});
      var head, tail := s[..i], s[i + 1..];
      var rest := Split(tail, {c});
      assert Split(s, {c}) == [head] + rest by {
        assert s[i] in {c};
      }
      JoinSplit(tail, c);
      assert Join([head] + rest, [c]) == head + [c] + Join(rest, [c]) by {
        assert ([head] + rest)[0] == head && ([head] + rest)[1..] == rest;
      }
      SplitAround(s, i);
    } else {
      assert forall j :: 0 <= j < |s| ==> s[j] !in {c};
    }
  }

  /** A text is its part before position i, its character there, and the
      rest. */
  lemma SplitAround(s: string, i: nat)
    requires i < |s|
    ensures s == s[..i] + [s[i]] + s[i + 1..]
  {
    assert s[i..] == [s[i]] + s[i + 1..];
    assert s == s[..i] + s[i..];
  }

  /** Joining pieces that do not contain the separator and splitting again
      gives back the pieces. */
  lemma {:induction false} SplitJoin(parts: seq<string>, c: char)
    requires |parts| >= 1
    requires forall i :: 0 <= i < |parts| ==> c !in parts[i]
    ensures Split(Join(parts, [c]), {c}) == parts
  {
    if |parts| == 1 {
      assert forall i :: 0 <= i < |parts[0]| ==> parts[0][i] !in {c};
      SplitNone(parts[0], {c});
    } else {
      var rest := parts[1..];
      assert forall i :: 0 <= i < |rest| ==> c !in rest[i] by {
        assert forall i :: 0 <= i < |rest| ==> rest[i] == parts[i + 1];
      }
      SplitJoin(rest, c);
      SplitJoinStep(parts, c);
      ConsTail(parts);
    }
  }

  lemma SplitJoinStep(parts: seq<string>, c: char)
    requires |parts| >= 2 && c !in parts[0]
    ensures Split(Join(parts, [c]), {c}) == [parts[0]] + Split(Join(parts[1..], [c]), {c})
  {
    JoinCons(parts, [c]);
    SplitAtChar(parts[0], c, Join(parts[1..], [c]));
  }

  /** A text without `c`, then `c`, then the rest, splits at that `c`. */
  lemma SplitAtChar(head: string, c: char, tail: string)
    requires c !in head
    ensures Split(head + [c] + tail, {c}) == [head] + Split(tail, {c})
  {
    assert forall i :: 0 <= i < |head| ==> head[i] !in {c};
    SplitCons(head, c, tail, {c});
  }

  lemma JoinCons(parts: seq<string>, sep: string)
    requires |parts| >= 2
    ensures Join(parts, sep) == parts[0] + sep + Join(parts[1..], sep)
  {
  }

  /** Appends `s` to every element of `lines` and concatenates. */
  function Terminated(lines: seq<string>, term: string): string {
    if lines == [] then "" else lines[0] + term + Terminated(lines[1..], term)
  }

  lemma {:induction false} TerminatedSnoc(lines: seq<string>, line: string, term: string)
    ensures Terminated(lines + [line], term) == Terminated(lines, term) + line + term
  {
    if lines != [] {
      assert (lines + [line])[1..] == lines[1..] + [line];
      TerminatedSnoc(lines[1..], line, term);
    } else {
      assert [line][1..] == [];
    }
  }

  /** Lower-cases the ASCII letters A-Z. */
  function ToLowerAscii(s: string): (r: string)
    ensures |r| == |s|
    ensures forall i :: 0 <= i < |s| ==>
      r[i] == if 'A' <= s[i] <= 'Z' then (s[i] as int + 32) as char else s[i]
  {
    if s == [] then []
    else [if 'A' <= s[0] <= 'Z' then (s[0] as int + 32) as char else s[0]] + ToLowerAscii(s[1..])
  }

  predicate EndsWith(s: string, suffix: string) {
    |suffix| <= |s| && s[|s| - |suffix|..] == suffix
  }

  predicate StartsWith(s: string, prefix: string) {
    |prefix| <= |s| && s[..|prefix|] == prefix
  }

  function DigitChar(d: nat): (c: char)
    requires d < 10
    ensures IsDigit(c) && c as int - '0' as int == d
  {
    ('0' as int + d) as char
  }

  /** Decimal rendering of a natural number, without leading zeros. */
  function NatToString(n: nat): (s: string)
    ensures |s| >= 1 && AllDigits(s)
    ensures |s| > 1 ==> s[0] != '0'
    decreases n
  {
    if n < 10 then [DigitChar(n)] else NatToString(n / 10) + [DigitChar(n % 10)]
  }

  /** Decimal rendering of an integer, with a leading '-' when negative. */
  function IntToString(n: int): string {
    if n < 0 then "-" + NatToString(-n) else NatToString(n)
  }

  /** The value of a string of decimal digits. */
  function DigitsValue(s: string): nat
    requires AllDigits(s)
  {
    if s == [] then 0 else 10 * DigitsValue(s[..|s| - 1]) + (s[|s| - 1] as int - '0' as int)
  }

  lemma {:induction false} DigitsValueOfNatToString(n: nat)
    ensures DigitsValue(NatToString(n)) == n
    decreases n
  {
    if n >= 10 {
      var s := NatToString(n / 10) + [DigitChar(n % 10)];
      assert s[..|s| - 1] == NatToString(n / 10);
      DigitsValueOfNatToString(n / 10);
    }
  }

  /** `String(n).padStart(width, '0')` for a natural number. */
  function PadNat(n: nat, width: nat): (s: string)
    ensures |s| >= width && AllDigits(s)
  {
    var d := NatToString(n);
    if |d| >= width then d else Zeros(width - |d|) + d
  }

  function Zeros(k: nat): (s: string)
    ensures |s| == k && AllDigits(s)
    ensures forall i :: 0 <= i < k ==> s[i] == '0'
  {
    if k == 0 then "" else "0" + Zeros(k - 1)
  }

  /** Removes every character satisfying `drop`. */
  function RemoveWhere(s: string, drop: char -> bool): (r: string)
    ensures |r| <= |s|
    ensures forall i :: 0 <= i < |r| ==> !drop(r[i]) && r[i] in s
    ensures (forall i :: 0 <= i < |s| ==> !drop(s[i])) ==> r == s
  {
    if s == [] then []
    else (if drop(s[0]) then [] else [s[0]]) + RemoveWhere(s[1..], drop)
  }

  lemma {:induction false} RemoveWhereConcat(a: string, b: string, drop: char -> bool)
    ensures RemoveWhere(a + b, drop) == RemoveWhere(a, drop) + RemoveWhere(b, drop)
  {
    if a == [] {
      assert a + b == b;
    } else {
      var c, t := a[0], a[1..];
      assert a == [c] + t;
      assert a + b == [c] + (t + b);
      RemoveWhereCons(c, t + b, drop);
      RemoveWhereCons(c, t, drop);
      RemoveWhereConcat(t, b, drop);
      ConcatAssoc(if drop(c) then [] else [c], RemoveWhere(t, drop), RemoveWhere(b, drop));
    }
  }

  lemma RemoveWhereCons(c: char, t: string, drop: char -> bool)
    ensures RemoveWhere([c] + t, drop) == (if drop(c) then [] else [c]) + RemoveWhere(t, drop)
  {
    assert ([c] + t)[0] == c && ([c] + t)[1..] == t;
  }

  /** Removing a dropped character from the middle changes nothing else. */
  lemma RemoveWhereDropped(a: string, c: char, b: string, drop: char -> bool)
    requires drop(c)
    ensures RemoveWhere(a + [c] + b, drop) == RemoveWhere(a + b, drop)
  {
    RemoveWhereConcat(a + [c], b, drop);
    RemoveWhereConcat(a, [c], drop);
    RemoveWhereConcat(a, b, drop);
    assert [c][1..] == [];
    assert RemoveWhere([c], drop) == [];
    assert RemoveWhere(a + [c], drop) == RemoveWhere(a, drop);
  }

  /** Text without a separator is a single piece. */
  lemma SplitNone(s: string, seps: set<char>)
    requires forall i :: 0 <= i < |s| ==> s[i] !in seps
    ensures Split(s, seps) == [s]
  {
  }

  /** Text up to its first separator is the first piece. */
  lemma SplitCons(a: string, c: char, b: string, seps: set<char>)
    requires c in seps && forall i :: 0 <= i < |a| ==> a[i] !in seps
    ensures Split(a + [c] + b, seps) == [a] + Split(b, seps)
  {
    var s := a + [c] + b;
    assert s[|a|] == c;
    assert forall j :: 0 <= j < |a| ==> s[j] == a[j];
    var i := FirstIn(s, seps);
    assert i == |a|;
    assert s[..i] == a;
    assert s[i + 1..] == b;
  }

  /** Trimming removes characters but adds none. */
  lemma TrimKeeps(s: string, c: char)
    requires c !in s
    ensures c !in Trim(s)
  {
    var t := TrimStart(s);
    assert t == s[|s| - |t|..];
    assert Trim(s) == t[..|Trim(s)|];
  }

  /** Text of the shape YYYY-MM-DD (the regular expression
      `^\d{4}-\d{2}-\d{2}$`): exactly ten characters, digits around two
      dashes at positions 4 and 7. */
  predicate IsoDateText(s: string) {
    |s| == 10 && s[4] == '-' && s[7] == '-' &&
    forall i :: 0 <= i < 10 && i != 4 && i != 7 ==> IsDigit(s[i])
  }

  /** Lines each followed by a terminator are the lines joined by it, plus
      one terminator at the end. */
  lemma {:induction false} JoinTerminated(lines: seq<string>, term: string)
    requires |lines| >= 1
    ensures Terminated(lines, term) == Join(lines, term) + term
  {
    if |lines| == 1 {
      assert lines[1..] == [];
    } else {
      JoinTerminated(lines[1..], term);
    }
  }
}
