/** The two library encodings behind Basic authentication:
    String.getBytes(UTF_8) and Base64.getEncoder().encodeToString, the
    padded base 64 encoding of section 4 of RFC 4648. Each comes with its
    decoder so that the round trip can be stated. */
module Base64 {
  import opened Wrappers

  type Byte = b: int | 0 <= b < 256

  // ---------------------------------------------------------------- UTF-8

  /** The UTF-8 encoding of one Unicode scalar value (RFC 3629, section 3). */
  function EncodeChar(c: char): (r: seq<Byte>)
    ensures 1 <= |r| <= 4
    ensures c as int < 0x80 ==> r == [c as int]
  {
    var cp := c as int;
    if cp < 0x80 then [cp]
    else if cp < 0x800 then [0xC0 + cp / 64, 0x80 + cp % 64]
    else if cp < 0x10000 then [0xE0 + cp / 4096, 0x80 + (cp / 64) % 64, 0x80 + cp % 64]
    else [0xF0 + cp / 262144, 0x80 + (cp / 4096) % 64, 0x80 + (cp / 64) % 64, 0x80 + cp % 64]
  }

  /** String.getBytes(StandardCharsets.UTF_8). */
  function Utf8Encode(s: string): (r: seq<Byte>)
    ensures |s| <= |r| <= 4 * |s|
  {
    if s == [] then [] else EncodeChar(s[0]) + Utf8Encode(s[1..])
  }

  predicate IsContinuation(b: Byte) {
    0x80 <= b < 0xC0
  }

  /** The six payload bits of a continuation byte. */
  function Low6(b: Byte): int {
    b as int - 0x80
  }

  predicate IsScalar(cp: int) {
    (0 <= cp < 0xD800) || (0xE000 <= cp < 0x11_0000)
  }

  /** Decodes the char that starts `b` and says how many bytes it used. */
  function DecodeChar(b: seq<Byte>): (r: Option<(char, nat)>)
    requires |b| > 0
    ensures r.Some? ==> 1 <= r.value.1 <= |b|
  {
    var b0: int := b[0];
    if b0 < 0x80 then Some((b0 as char, 1))
    else if 0xC0 <= b0 < 0xE0 && |b| >= 2 && IsContinuation(b[1]) then
      var cp := (b0 - 0xC0) * 64 + Low6(b[1]);
      if IsScalar(cp) then Some((cp as char, 2)) else None
    else if 0xE0 <= b0 < 0xF0 && |b| >= 3 && IsContinuation(b[1]) && IsContinuation(b[2]) then
      var cp := (b0 - 0xE0) * 4096 + Low6(b[1]) * 64 + Low6(b[2]);
      if IsScalar(cp) then Some((cp as char, 3)) else None
    else if 0xF0 <= b0 < 0xF8 && |b| >= 4 && IsContinuation(b[1]) && IsContinuation(b[2]) && IsContinuation(b[3]) then
      var cp := (b0 - 0xF0) * 262144 + Low6(b[1]) * 4096 + Low6(b[2]) * 64 + Low6(b[3]);
      if IsScalar(cp) then Some((cp as char, 4)) else None
    else None
  }

  function Utf8Decode(b: seq<Byte>): Option<string>
    decreases |b|
  {
    if b == [] then Some("")
    else match DecodeChar(b)
      case None => None
      case Some((c, n)) =>
        match Utf8Decode(b[n..])
        case None => None
        case Some(rest) => Some([c] + rest)
  }

  /** The bytes of one encoded char decode back to that char, whatever
      follows them. */
  lemma DecodeEncodedChar(c: char, rest: seq<Byte>)
    ensures DecodeChar(EncodeChar(c) + rest) == Some((c, |EncodeChar(c)|))
  {
    var cp := c as int;
    if cp < 0x80 {
    } else if cp < 0x800 {
      DecodeTwo(c, rest);
    } else if cp < 0x10000 {
      DecodeThree(c, rest);
    } else {
      DecodeFour(c, rest);
    }
  }

  lemma DecodeTwo(c: char, rest: seq<Byte>)
    requires 0x80 <= c as int < 0x800
    ensures DecodeChar(EncodeChar(c) + rest) == Some((c, 2))
  {
    var cp := c as int;
    var hi, lo := cp / 64, cp % 64;
    assert cp == hi * 64 + lo;
    var b := EncodeChar(c) + rest;
    assert b[0] == 0xC0 + hi && b[1] == 0x80 + lo;
    assert Low6(b[1]) == lo;
  }

  lemma DecodeThree(c: char, rest: seq<Byte>)
    requires 0x800 <= c as int < 0x10000
    ensures DecodeChar(EncodeChar(c) + rest) == Some((c, 3))
  {
    var cp := c as int;
    var q, lo := cp / 64, cp % 64;
    var hi, mid := q / 64, q % 64;
    assert cp == q * 64 + lo && q == hi * 64 + mid;
    assert hi == cp / 4096;
    var b := EncodeChar(c) + rest;
    assert b[0] == 0xE0 + hi && b[1] == 0x80 + mid && b[2] == 0x80 + lo;
    assert Low6(b[1]) == mid && Low6(b[2]) == lo;
    assert hi * 4096 + mid * 64 + lo == cp;
  }

  lemma DecodeFour(c: char, rest: seq<Byte>)
    requires 0x10000 <= c as int
    ensures DecodeChar(EncodeChar(c) + rest) == Some((c, 4))
  {
    var cp := c as int;
    var q1, b3 := cp / 64, cp % 64;
    var q2, b2 := q1 / 64, q1 % 64;
    var hi, b1 := q2 / 64, q2 % 64;
    assert cp == q1 * 64 + b3 && q1 == q2 * 64 + b2 && q2 == hi * 64 + b1;
    assert q2 == cp / 4096 && hi == cp / 262144;
    var b := EncodeChar(c) + rest;
    assert b[0] == 0xF0 + hi && b[1] == 0x80 + b1 && b[2] == 0x80 + b2 && b[3] == 0x80 + b3;
    assert Low6(b[1]) == b1 && Low6(b[2]) == b2 && Low6(b[3]) == b3;
    assert hi * 262144 + b1 * 4096 + b2 * 64 + b3 == cp;
  }

  /** UTF-8 loses nothing: decoding the bytes of a string gives it back. */
  lemma {:induction false} Utf8RoundTrip(s: string)
    ensures Utf8Decode(Utf8Encode(s)) == Some(s)
    decreases |s|
  {
    if s != [] {
      var e := EncodeChar(s[0]);
      var rest := Utf8Encode(s[1..]);
      DecodeEncodedChar(s[0], rest);
      assert (e + rest)[|e|..] == rest;
      Utf8RoundTrip(s[1..]);
      assert [s[0]] + s[1..] == s;
    }
  }

  // -------------------------------------------------------------- Base 64

  /** Table 1 of RFC 4648: the value of each base 64 digit. */
  function Digit(i: int): (c: char)
    requires 0 <= i < 64
  {
    if i < 26 then ('A' as int + i) as char
    else if i < 52 then ('a' as int + (i - 26)) as char
    else if i < 62 then ('0' as int + (i - 52)) as char
    else if i == 62 then '+'
    else '/'
  }

  /** The inverse of Table 1; None for a char outside the alphabet. */
  function DigitValue(c: char): (r: Option<int>)
    ensures r.Some? ==> 0 <= r.value < 64 && Digit(r.value) == c
  {
    if 'A' <= c <= 'Z' then Some(c as int - 'A' as int)
    else if 'a' <= c <= 'z' then Some(c as int - 'a' as int + 26)
    else if '0' <= c <= '9' then Some(c as int - '0' as int + 52)
    else if c == '+' then Some(62)
    else if c == '/' then Some(63)
    else None
  }

  lemma DigitValueOfDigit(i: int)
    requires 0 <= i < 64
    ensures DigitValue(Digit(i)) == Some(i)
  {
  }

  const Pad := '='

  /** Three bytes, 24 bits, become four digits of six bits each. */
  function EncodeTriple(b0: Byte, b1: Byte, b2: Byte): seq<char> {
    [Digit(b0 / 4), Digit((b0 % 4) * 16 + b1 / 16), Digit((b1 % 16) * 4 + b2 / 64), Digit(b2 % 64)]
  }

  /** A final two bytes: three digits and one pad char (section 4 of RFC 4648, case 3). */
  function EncodePair(b0: Byte, b1: Byte): seq<char> {
    [Digit(b0 / 4), Digit((b0 % 4) * 16 + b1 / 16), Digit((b1 % 16) * 4), Pad]
  }

  /** A final single byte: two digits and two pad chars (section 4 of RFC 4648, case 2). */
  function EncodeSingle(b0: Byte): seq<char> {
    [Digit(b0 / 4), Digit((b0 % 4) * 16), Pad, Pad]
  }

  /** Base64.getEncoder().encodeToString: padded, no line breaks. */
  function Encode(b: seq<Byte>): (s: string)
    ensures |s| == (|b| + 2) / 3 * 4
  {
    if |b| == 0 then []
    else if |b| == 1 then EncodeSingle(b[0])
    else if |b| == 2 then EncodePair(b[0], b[1])
    else
      assert (|b| + 2) / 3 == (|b| - 3 + 2) / 3 + 1;
      EncodeTriple(b[0], b[1], b[2]) + Encode(b[3..])
  }

  /** Decodes one quantum of four chars; `last` says whether padding may
      appear in it. */
  function DecodeQuantum(q: string, last: bool): Option<seq<Byte>>
    requires |q| == 4
  {
    var d0, d1, d2, d3 := DigitValue(q[0]), DigitValue(q[1]), DigitValue(q[2]), DigitValue(q[3]);
    if d0.None? || d1.None? then None
    else if last && q[2] == Pad && q[3] == Pad then
      Some([d0.value * 4 + d1.value / 16])
    else if d2.None? then None
    else if last && q[3] == Pad then
      Some([d0.value * 4 + d1.value / 16, (d1.value % 16) * 16 + d2.value / 4])
    else if d3.None? then None
    else
      Some([d0.value * 4 + d1.value / 16, (d1.value % 16) * 16 + d2.value / 4, (d2.value % 4) * 64 + d3.value])
  }

  /** The decoder of section 4 of RFC 4648. */
  function Decode(s: string): Option<seq<Byte>>
    decreases |s|
  {
    if |s| == 0 then Some([])
    else if |s| < 4 then None
    else
      match DecodeQuantum(s[..4], |s| == 4)
      case None => None
      case Some(head) =>
        if |s| == 4 then Some(head)
        else match Decode(s[4..])
          case None => None
          case Some(rest) => Some(head + rest)
  }

  lemma DecodeTriple(b0: Byte, b1: Byte, b2: Byte, last: bool)
    ensures DecodeQuantum(EncodeTriple(b0, b1, b2), last) == Some([b0, b1, b2])
  {
    var i0, i1, i2, i3 := b0 / 4, (b0 % 4) * 16 + b1 / 16, (b1 % 16) * 4 + b2 / 64, b2 % 64;
    DigitValueOfDigit(i0); DigitValueOfDigit(i1); DigitValueOfDigit(i2); DigitValueOfDigit(i3);
    assert i1 / 16 == b0 % 4 && i1 % 16 == b1 / 16;
    assert i2 / 4 == b1 % 16 && i2 % 4 == b2 / 64;
  }

  lemma DecodePair(b0: Byte, b1: Byte)
    ensures DecodeQuantum(EncodePair(b0, b1), true) == Some([b0, b1])
  {
    var i0, i1, i2 := b0 / 4, (b0 % 4) * 16 + b1 / 16, (b1 % 16) * 4;
    DigitValueOfDigit(i0); DigitValueOfDigit(i1); DigitValueOfDigit(i2);
    assert i1 / 16 == b0 % 4 && i1 % 16 == b1 / 16;
    assert i2 / 4 == b1 % 16;
  }

  lemma DecodeSingle(b0: Byte)
    ensures DecodeQuantum(EncodeSingle(b0), true) == Some([b0])
  {
    var i0, i1 := b0 / 4, (b0 % 4) * 16;
    DigitValueOfDigit(i0); DigitValueOfDigit(i1);
    assert i1 / 16 == b0 % 4;
  }

  /** Base 64 loses nothing: decoding an encoding gives the bytes back. */
  lemma {:induction false} Base64RoundTrip(b: seq<Byte>)
    ensures Decode(Encode(b)) == Some(b)
    decreases |b|
  {
    if |b| == 1 {
      SingleRoundTrip(b);
    } else if |b| == 2 {
      PairRoundTrip(b);
    } else if |b| >= 3 {
      Base64RoundTrip(b[3..]);
      TripleRoundTrip(b);
    }
  }

  lemma SingleRoundTrip(b: seq<Byte>)
    requires |b| == 1
    ensures Decode(Encode(b)) == Some(b)
  {
    var q := EncodeSingle(b[0]);
    assert Encode(b) == q;
    DecodeSingle(b[0]);
    DecodeQuantumThenRest(q, [], [b[0]], []);
    assert q + [] == q;
    assert [b[0]] + [] == b;
  }

  lemma PairRoundTrip(b: seq<Byte>)
    requires |b| == 2
    ensures Decode(Encode(b)) == Some(b)
  {
    var q := EncodePair(b[0], b[1]);
    assert Encode(b) == q;
    DecodePair(b[0], b[1]);
    DecodeQuantumThenRest(q, [], [b[0], b[1]], []);
    assert q + [] == q;
    assert [b[0], b[1]] + [] == b;
  }

  /** A leading triple, given that the rest round-trips. */
  lemma TripleRoundTrip(b: seq<Byte>)
    requires |b| >= 3 && Decode(Encode(b[3..])) == Some(b[3..])
    ensures Decode(Encode(b)) == Some(b)
  {
    var tail := Encode(b[3..]);
    DecodeTriple(b[0], b[1], b[2], tail == []);
    DecodeQuantumThenRest(EncodeTriple(b[0], b[1], b[2]), tail, [b[0], b[1], b[2]], b[3..]);
    SplitTriple(b);
  }

  lemma SplitTriple(b: seq<Byte>)
    requires |b| >= 3
    ensures Encode(b) == EncodeTriple(b[0], b[1], b[2]) + Encode(b[3..])
    ensures [b[0], b[1], b[2]] + b[3..] == b
  {
    assert [b[0], b[1], b[2]] == b[..3];
  }

  /** Decoding a leading quantum and then the rest. */
  lemma DecodeQuantumThenRest(q: string, rest: string, h: seq<Byte>, t: seq<Byte>)
    requires |q| == 4 && DecodeQuantum(q, rest == []) == Some(h) && Decode(rest) == Some(t)
    ensures Decode(q + rest) == Some(h + t)
  {
    var s := q + rest;
    assert s[..4] == q && s[4..] == rest;
    if rest == [] {
      assert t == [] && h + t == h;
    }
  }
}
