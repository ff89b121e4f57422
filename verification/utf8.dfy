/** UTF-8, as Python's `str.encode()` writes it, and a decoder that reads it
    back. A `char` is a Unicode scalar value. */
module Utf8 {
  import opened Results

  type byte = x: int | 0 <= x < 256

  /** A continuation byte: 10xxxxxx. */
  predicate Continuation(b: byte) { 0x80 <= b < 0xC0 }

  /** The bytes of one scalar value: one byte below U+0080, then two, three
      and four below U+0800, U+10000 and above. */
  function EncodeChar(c: char): (r: seq<byte>)
    ensures 1 <= |r| <= 4
    ensures |r| == 1 <==> c as int < 0x80
    ensures forall i :: 1 <= i < |r| ==> Continuation(r[i])
  {
    var n := c as int;
    if n < 0x80 then [n]
    else if n < 0x800 then [0xC0 + n / 64, 0x80 + n % 64]
    else if n < 0x10000 then [0xE0 + n / 4096, 0x80 + (n / 64) % 64, 0x80 + n % 64]
    else [0xF0 + n / 262144, 0x80 + (n / 4096) % 64, 0x80 + (n / 64) % 64, 0x80 + n % 64]
  }

  /** `s.encode()` */
  function Encode(s: string): (r: seq<byte>)
    ensures |r| >= |s|
  {
    if s == [] then [] else EncodeChar(s[0]) + Encode(s[1..])
  }

  predicate Scalar(n: int) {
    0 <= n < 0xD800 || 0xE000 <= n < 0x110000
  }

  /** A decoded value and the bytes after it. */
  datatype Step = Step(c: char, rest: seq<byte>)

  /** The scalar value at the front of `b`, read from its lead byte and
      continuation bytes. An overlong form, one using more bytes than the
      value needs, is refused, as Python's UTF-8 codec refuses it. */
  function DecodeChar(b: seq<byte>): (r: Option<Step>)
    requires b != []
    ensures r.Some? ==> |r.value.rest| < |b|
  {
    var b0 := b[0] as int;
    if b0 < 0x80 then Some(Step(b0 as char, b[1..]))
    else if 0xC0 <= b0 < 0xE0 && |b| >= 2 && Continuation(b[1]) then
      var n := (b0 - 0xC0) * 64 + (b[1] as int - 0x80);
      if 0x80 <= n && Scalar(n) then Some(Step(n as char, b[2..])) else None
    else if 0xE0 <= b0 < 0xF0 && |b| >= 3 && Continuation(b[1]) && Continuation(b[2]) then
      var n := (b0 - 0xE0) * 4096 + (b[1] as int - 0x80) * 64 + (b[2] as int - 0x80);
      if 0x800 <= n && Scalar(n) then Some(Step(n as char, b[3..])) else None
    else if 0xF0 <= b0 < 0xF8 && |b| >= 4 && Continuation(b[1]) && Continuation(b[2]) && Continuation(b[3]) then
      var n := (b0 - 0xF0) * 262144 + (b[1] as int - 0x80) * 4096 + (b[2] as int - 0x80) * 64 + (b[3] as int - 0x80);
      if 0x10000 <= n && Scalar(n) then Some(Step(n as char, b[4..])) else None
    else None
  }

  /** `b.decode()`: None on a malformed lead or continuation byte, an
      overlong form, a surrogate or a value above U+10FFFF. */
  function Decode(b: seq<byte>): (r: Option<string>)
    decreases |b|
  {
    if b == [] then Some("")
    else match DecodeChar(b)
      case None => None
      case Some(st) =>
        match Decode(st.rest)
        case None => None
        case Some(t) => Some([st.c] + t)
  }

  lemma DivBy64(n: int, q: int, r: int)
    requires n == q * 64 + r && 0 <= r < 64
    ensures n / 64 == q && n % 64 == r
  {
  }

  /** The 6-bit groups of a value, most significant first. */
  lemma Sextets(n: nat)
    ensures n % 64 < 64 && (n / 64) % 64 < 64 && (n / 4096) % 64 < 64
    ensures n == (n / 64) * 64 + n % 64
    ensures n == (n / 4096) * 4096 + ((n / 64) % 64) * 64 + n % 64
    ensures n == (n / 262144) * 262144 + ((n / 4096) % 64) * 4096 + ((n / 64) % 64) * 64 + n % 64
  {
    var q1, r1 := n / 64, n % 64;
    var q2, r2 := q1 / 64, q1 % 64;
    var q3, r3 := q2 / 64, q2 % 64;
    DivBy64(n, q1, r1);
    DivBy64(q1, q2, r2);
    DivBy64(q2, q3, r3);
    assert n == q2 * 4096 + r2 * 64 + r1;
    assert n / 4096 == q2;
    assert n == q3 * 262144 + r3 * 4096 + r2 * 64 + r1;
    assert n / 262144 == q3;
  }

  lemma DecodeTwo(c: char, rest: seq<byte>)
    requires 0x80 <= c as int < 0x800
    ensures DecodeChar(EncodeChar(c) + rest) == Some(Step(c, rest))
  {
    var n := c as int;
    Sextets(n);
    var b := EncodeChar(c) + rest;
    assert b[0] as int == 0xC0 + n / 64 && b[1] as int == 0x80 + n % 64 && b[2..] == rest;
  }

  lemma DecodeThree(c: char, rest: seq<byte>)
    requires 0x800 <= c as int < 0x10000
    ensures DecodeChar(EncodeChar(c) + rest) == Some(Step(c, rest))
  {
    var n := c as int;
    Sextets(n);
    var b := EncodeChar(c) + rest;
    assert b[0] as int == 0xE0 + n / 4096 && b[1] as int == 0x80 + (n / 64) % 64;
    assert b[2] as int == 0x80 + n % 64 && b[3..] == rest;
  }

  lemma DecodeFour(c: char, rest: seq<byte>)
    requires 0x10000 <= c as int
    ensures DecodeChar(EncodeChar(c) + rest) == Some(Step(c, rest))
  {
    var n := c as int;
    Sextets(n);
    var b := EncodeChar(c) + rest;
    assert b[0] as int == 0xF0 + n / 262144 && b[1] as int == 0x80 + (n / 4096) % 64;
    assert b[2] as int == 0x80 + (n / 64) % 64 && b[3] as int == 0x80 + n % 64 && b[4..] == rest;
  }

  /** Each scalar value's bytes read back as that value, whatever follows. */
  lemma DecodeEncodeChar(c: char, rest: seq<byte>)
    ensures DecodeChar(EncodeChar(c) + rest) == Some(Step(c, rest))
  {
    var n := c as int;
    if n < 0x80 {
      assert (EncodeChar(c) + rest)[1..] == rest;
    } else if n < 0x800 {
      DecodeTwo(c, rest);
    } else if n < 0x10000 {
      DecodeThree(c, rest);
    } else {
      DecodeFour(c, rest);
    }
  }

  /** Decoding the encoding of a text gives the text back. */
  lemma {:induction false} DecodeEncode(s: string)
    ensures Decode(Encode(s)) == Some(s)
  {
    if s != [] {
      DecodeEncodeChar(s[0], Encode(s[1..]));
      DecodeEncode(s[1..]);
      assert [s[0]] + s[1..] == s;
    }
  }

  /** Two texts with the same encoding are the same text. */
  lemma EncodeInjective(s: string, t: string)
    requires Encode(s) == Encode(t)
    ensures s == t
  {
    DecodeEncode(s);
    DecodeEncode(t);
  }

  /** ASCII text is encoded one byte per character, as its code. */
  lemma {:induction false} EncodeAscii(s: string)
    requires forall i :: 0 <= i < |s| ==> s[i] as int < 0x80
    ensures |Encode(s)| == |s|
    ensures forall i :: 0 <= i < |s| ==> Encode(s)[i] == s[i] as int
  {
    if s != [] {
      EncodeAscii(s[1..]);
    }
  }
}
