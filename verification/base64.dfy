/** Base64 as section 4 of RFC 4648 defines it: `base64.b64encode`, and a
    strict decoder for its output. */
module Base64 {
  import opened Results
  import opened Utf8

  /** The character of a 6-bit value: A-Z, a-z, 0-9, '+', '/'. */
  function Letter(v: nat): (c: char)
    requires v < 64
    ensures c != '='
  {
    if v < 26 then ('A' as int + v) as char
    else if v < 52 then ('a' as int + (v - 26)) as char
    else if v < 62 then ('0' as int + (v - 52)) as char
    else if v == 62 then '+' else '/'
  }

  /** The 6-bit value of an alphabet character. */
  function Value(c: char): (r: Option<nat>)
    ensures r.Some? ==> r.value < 64
  {
    if 'A' <= c <= 'Z' then Some(c as int - 'A' as int)
    else if 'a' <= c <= 'z' then Some(c as int - 'a' as int + 26)
    else if '0' <= c <= '9' then Some(c as int - '0' as int + 52)
    else if c == '+' then Some(62)
    else if c == '/' then Some(63)
    else None
  }

  /** Every value's character is read back as that value. */
  lemma ValueOfLetter(v: nat)
    requires v < 64
    ensures Value(Letter(v)) == Some(v)
  {
  }

  /** Three bytes as four characters. */
  function Quad(b0: byte, b1: byte, b2: byte): (r: string)
    ensures |r| == 4 && '=' !in r
  {
    [Letter(b0 / 4), Letter((b0 % 4) * 16 + b1 / 16), Letter((b1 % 16) * 4 + b2 / 64), Letter(b2 % 64)]
  }

  /** `base64.b64encode(b)`: whole groups of three bytes, then the last one
      or two bytes padded with '='. */
  function Encode(b: seq<byte>): (r: string)
    ensures |r| == 4 * ((|b| + 2) / 3)
  {
    if |b| >= 3 then Quad(b[0], b[1], b[2]) + Encode(b[3..])
    else if |b| == 2 then [Letter(b[0] / 4), Letter((b[0] % 4) * 16 + b[1] / 16), Letter((b[1] % 16) * 4), '=']
    else if |b| == 1 then [Letter(b[0] / 4), Letter((b[0] % 4) * 16), '=', '=']
    else ""
  }

  /** The bytes of four characters: three, or two or one when the group
      ends in one or two '='. */
  function DecodeQuad(q: string): (r: Option<seq<byte>>)
    requires |q| == 4
  {
    var v0, v1 := Value(q[0]), Value(q[1]);
    if v0.None? || v1.None? then None
    else
      var a, b := v0.value, v1.value;
      if q[2] == '=' && q[3] == '=' then Some([a * 4 + b / 16])
      else
        var v2 := Value(q[2]);
        if v2.None? then None
        else
          var c := v2.value;
          if q[3] == '=' then Some([a * 4 + b / 16, (b % 16) * 16 + c / 4])
          else
            var v3 := Value(q[3]);
            if v3.None? then None
            else Some([a * 4 + b / 16, (b % 16) * 16 + c / 4, (c % 4) * 64 + v3.value])
  }

  /** `base64.b64decode(s, validate=True)`: groups of four characters,
      padding only in the last. */
  function Decode(s: string): (r: Option<seq<byte>>)
    decreases |s|
  {
    if s == [] then Some([])
    else if |s| < 4 then None
    else if |s| == 4 then DecodeQuad(s)
    else if '=' in s[..4] then None
    else match DecodeQuad(s[..4])
      case None => None
      case Some(h) =>
        match Decode(s[4..])
        case None => None
        case Some(t) => Some(h + t)
  }

  lemma DivBy16(n: int, q: int, r: int)
    requires n == q * 16 + r && 0 <= r < 16
    ensures n / 16 == q && n % 16 == r
  {
  }

  lemma DivBy4(n: int, q: int, r: int)
    requires n == q * 4 + r && 0 <= r < 4
    ensures n / 4 == q && n % 4 == r
  {
  }

  /** Regrouping three bytes into four sextets and back. */
  lemma Regroup(b0: byte, b1: byte, b2: byte)
    ensures var c1, c2 := (b0 % 4) * 16 + b1 / 16, (b1 % 16) * 4 + b2 / 64;
      c1 < 64 && c2 < 64 &&
      (b0 / 4) * 4 + c1 / 16 == b0 && (c1 % 16) * 16 + c2 / 4 == b1 && (c2 % 4) * 64 + b2 % 64 == b2
  {
    var c1, c2 := (b0 % 4) * 16 + b1 / 16, (b1 % 16) * 4 + b2 / 64;
    DivBy16(c1, b0 % 4, b1 / 16);
    DivBy4(c2, b1 % 16, b2 / 64);
  }

  /** Four alphabet characters without padding decode to three bytes. */
  lemma DecodeLetters(c0: nat, c1: nat, c2: nat, c3: nat)
    requires c0 < 64 && c1 < 64 && c2 < 64 && c3 < 64
    ensures DecodeQuad([Letter(c0), Letter(c1), Letter(c2), Letter(c3)]) ==
      Some([c0 * 4 + c1 / 16, (c1 % 16) * 16 + c2 / 4, (c2 % 4) * 64 + c3])
  {
    ValueOfLetter(c0);
    ValueOfLetter(c1);
    ValueOfLetter(c2);
    ValueOfLetter(c3);
  }

  lemma DecodeOfQuad(b0: byte, b1: byte, b2: byte)
    ensures DecodeQuad(Quad(b0, b1, b2)) == Some([b0, b1, b2])
  {
    var c0, c1, c2, c3 := b0 / 4, (b0 % 4) * 16 + b1 / 16, (b1 % 16) * 4 + b2 / 64, b2 % 64;
    Regroup(b0, b1, b2);
    assert Quad(b0, b1, b2) == [Letter(c0), Letter(c1), Letter(c2), Letter(c3)];
    DecodeLetters(c0, c1, c2, c3);
    assert c0 * 4 + c1 / 16 == b0 && (c1 % 16) * 16 + c2 / 4 == b1 && (c2 % 4) * 64 + c3 == b2;
  }

  lemma DecodeOfPair(b0: byte, b1: byte)
    ensures Decode(Encode([b0, b1])) == Some([b0, b1])
  {
    Regroup(b0, b1, 0);
    var c0, c1, c2 := b0 / 4, (b0 % 4) * 16 + b1 / 16, (b1 % 16) * 4;
    ValueOfLetter(c0);
    ValueOfLetter(c1);
    ValueOfLetter(c2);
    assert Encode([b0, b1]) == [Letter(c0), Letter(c1), Letter(c2), '='];
  }

  lemma DecodeOfSingle(b0: byte)
    ensures Decode(Encode([b0])) == Some([b0])
  {
    Regroup(b0, 0, 0);
    var c0, c1 := b0 / 4, (b0 % 4) * 16;
    ValueOfLetter(c0);
    ValueOfLetter(c1);
    assert Encode([b0]) == [Letter(c0), Letter(c1), '=', '='];
  }

  /** Decoding the encoding of any bytes gives the bytes back. */
  lemma {:induction false} DecodeEncode(b: seq<byte>)
    ensures Decode(Encode(b)) == Some(b)
    decreases |b|
  {
    if |b| >= 3 {
      var q := Quad(b[0], b[1], b[2]);
      var s := Encode(b);
      assert s == q + Encode(b[3..]);
      DecodeOfQuad(b[0], b[1], b[2]);
      DecodeEncode(b[3..]);
      if |b| == 3 {
        assert s == q && [b[0], b[1], b[2]] == b;
      } else {
        assert s[..4] == q && s[4..] == Encode(b[3..]);
        assert [b[0], b[1], b[2]] + b[3..] == b;
      }
    } else if |b| == 2 {
      DecodeOfPair(b[0], b[1]);
      assert [b[0], b[1]] == b;
    } else if |b| == 1 {
      DecodeOfSingle(b[0]);
      assert [b[0]] == b;
    }
  }

  /** Two byte strings with the same encoding are the same. */
  lemma EncodeInjective(a: seq<byte>, b: seq<byte>)
    requires Encode(a) == Encode(b)
    ensures a == b
  {
    DecodeEncode(a);
    DecodeEncode(b);
  }
}
