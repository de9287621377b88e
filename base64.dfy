/**
 * The base64 encoding of section 4 of RFC 4648 (standard alphabet, '=' padding),
 * as Python's base64.b64encode produces it, and a strict decoder that accepts
 * exactly the canonical encodings (section 3.5 of RFC 4648).
 */
module Base64 {
  import opened Wrappers

  /** An octet of a bytes object. */
  type byte = x: int | 0 <= x < 256

  /** The padding character of section 3.2 of RFC 4648. */
  const Pad: char := '='

  /** The character that stands for a 6-bit value (Table 1 of RFC 4648). */
  function Symbol(v: int): char
    requires 0 <= v < 64
  {
    if v < 26 then ('A' as int + v) as char
    else if v < 52 then ('a' as int + (v - 26)) as char
    else if v < 62 then ('0' as int + (v - 52)) as char
    else if v == 62 then '+'
    else '/'
  }

  /** The 6-bit value of an alphabet character, or -1 for any other character, padding included. */
  function Value(c: char): (v: int)
    ensures -1 <= v < 64
    ensures 0 <= v ==> Symbol(v) == c
    ensures c == Pad ==> v == -1
  {
    if 'A' <= c <= 'Z' then c as int - 'A' as int
    else if 'a' <= c <= 'z' then c as int - 'a' as int + 26
    else if '0' <= c <= '9' then c as int - '0' as int + 52
    else if c == '+' then 62
    else if c == '/' then 63
    else -1
  }

  lemma ValueOfSymbol(v: int)
    requires 0 <= v < 64
    ensures Value(Symbol(v)) == v
  {
  }

  /** A character that may occur in an encoding: an alphabet character or the pad. */
  predicate IsEncodingChar(c: char) {
    Value(c) >= 0 || c == Pad
  }

  /** Three octets as four characters. */
  function EncodeQuantum(b0: byte, b1: byte, b2: byte): string {
    [Symbol(b0 / 4), Symbol(b0 % 4 * 16 + b1 / 16), Symbol(b1 % 16 * 4 + b2 / 64), Symbol(b2 % 64)]
  }

  /**
   * Encodes the octets three at a time, left to right; a final group of one
   * or two octets is padded with "==" or "=" (section 4 of RFC 4648).
   */
  function Encode(b: seq<byte>): (s: string)
    ensures |s| == (|b| + 2) / 3 * 4
    ensures forall i :: 0 <= i < |s| ==> IsEncodingChar(s[i])
    decreases |b|
  {
    if |b| == 0 then []
    else if |b| == 1 then [Symbol(b[0] / 4), Symbol(b[0] % 4 * 16), Pad, Pad]
    else if |b| == 2 then [Symbol(b[0] / 4), Symbol(b[0] % 4 * 16 + b[1] / 16), Symbol(b[1] % 16 * 4), Pad]
    else EncodeQuantum(b[0], b[1], b[2]) + Encode(b[3..])
  }

  /** Four alphabet characters as three octets; None if any is outside the alphabet. */
  function DecodeQuantum(c0: char, c1: char, c2: char, c3: char): Option<seq<byte>> {
    var v0, v1, v2, v3 := Value(c0), Value(c1), Value(c2), Value(c3);
    if v0 < 0 || v1 < 0 || v2 < 0 || v3 < 0 then None
    else Some([v0 * 4 + v1 / 16, v1 % 16 * 16 + v2 / 4, v2 % 4 * 64 + v3])
  }

  /**
   * The last group of four characters, which may end in one or two pads.
   * The bits that padding leaves unused must be zero (canonical encoding).
   */
  function DecodeFinal(c0: char, c1: char, c2: char, c3: char): Option<seq<byte>> {
    if c2 == Pad && c3 == Pad then
      var v0, v1 := Value(c0), Value(c1);
      if v0 < 0 || v1 < 0 || v1 % 16 != 0 then None
      else Some([v0 * 4 + v1 / 16])
    else if c3 == Pad then
      var v0, v1, v2 := Value(c0), Value(c1), Value(c2);
      if v0 < 0 || v1 < 0 || v2 < 0 || v2 % 4 != 0 then None
      else Some([v0 * 4 + v1 / 16, v1 % 16 * 16 + v2 / 4])
    else DecodeQuantum(c0, c1, c2, c3)
  }

  /** Decodes a canonical encoding; None for any other string. */
  function Decode(s: string): Option<seq<byte>>
    decreases |s|
  {
    if |s| == 0 then Some([])
    else if |s| < 4 then None
    else if |s| == 4 then DecodeFinal(s[0], s[1], s[2], s[3])
    else match DecodeQuantum(s[0], s[1], s[2], s[3])
      case None => None
      case Some(head) =>
        match Decode(s[4..])
        case None => None
        case Some(tail) => Some(head + tail)
  }

  lemma QuantumRoundTrip(b0: byte, b1: byte, b2: byte)
    ensures var q := EncodeQuantum(b0, b1, b2);
      DecodeQuantum(q[0], q[1], q[2], q[3]) == Some([b0, b1, b2])
  {
    var v0, v1, v2, v3 := b0 / 4, b0 % 4 * 16 + b1 / 16, b1 % 16 * 4 + b2 / 64, b2 % 64;
    ValueOfSymbol(v0); ValueOfSymbol(v1); ValueOfSymbol(v2); ValueOfSymbol(v3);
    assert v1 / 16 == b0 % 4 && v1 % 16 == b1 / 16;
    assert v2 / 4 == b1 % 16 && v2 % 4 == b2 / 64;
  }

  lemma OctetSplits(b0: byte, b1: byte)
    ensures (b0 % 4 * 16 + b1 / 16) / 16 == b0 % 4
    ensures (b0 % 4 * 16 + b1 / 16) % 16 == b1 / 16
    ensures b0 / 4 * 4 + b0 % 4 == b0
    ensures b0 % 16 * 16 + b1 / 16 <= 255
  {
  }

  lemma SingleRoundTrip(b0: byte)
    ensures Decode(Encode([b0])) == Some([b0])
  {
    var v0, v1 := b0 / 4, b0 % 4 * 16;
    ValueOfSymbol(v0); ValueOfSymbol(v1);
    OctetSplits(b0, 0);
  }

  lemma PairRoundTrip(b0: byte, b1: byte)
    ensures Decode(Encode([b0, b1])) == Some([b0, b1])
  {
    var v0, v1, v2 := b0 / 4, b0 % 4 * 16 + b1 / 16, b1 % 16 * 4;
    ValueOfSymbol(v0); ValueOfSymbol(v1); ValueOfSymbol(v2);
    OctetSplits(b0, b1);
    OctetSplits(b1, 0);
  }

  /** Decoding an encoding gives back the octets. */
  lemma {:induction false} DecodeEncode(b: seq<byte>)
    ensures Decode(Encode(b)) == Some(b)
    decreases |b|
  {
    if |b| == 0 {
    } else if |b| == 1 {
      SingleRoundTrip(b[0]);
      assert b == [b[0]];
    } else if |b| == 2 {
      PairRoundTrip(b[0], b[1]);
      assert b == [b[0], b[1]];
    } else {
      var q := EncodeQuantum(b[0], b[1], b[2]);
      var s := Encode(b);
      assert s == q + Encode(b[3..]);
      assert s[0] == q[0] && s[1] == q[1] && s[2] == q[2] && s[3] == q[3];
      QuantumRoundTrip(b[0], b[1], b[2]);
      if |b| == 3 {
        ValueOfSymbol(b[2] % 64);
        assert s[3] != Pad;
        assert b == [b[0], b[1], b[2]];
      } else {
        assert s[4..] == Encode(b[3..]);
        DecodeEncode(b[3..]);
        assert [b[0], b[1], b[2]] + b[3..] == b;
      }
    }
  }

  lemma QuantumCanonical(c0: char, c1: char, c2: char, c3: char)
    requires DecodeQuantum(c0, c1, c2, c3).Some?
    ensures var d := DecodeQuantum(c0, c1, c2, c3).value;
      |d| == 3 && EncodeQuantum(d[0], d[1], d[2]) == [c0, c1, c2, c3]
  {
    var v0, v1, v2, v3 := Value(c0), Value(c1), Value(c2), Value(c3);
    var b0, b1, b2 := v0 * 4 + v1 / 16, v1 % 16 * 16 + v2 / 4, v2 % 4 * 64 + v3;
    assert b0 / 4 == v0 && b0 % 4 == v1 / 16;
    assert b1 / 16 == v1 % 16 && b1 % 16 == v2 / 4;
    assert b2 / 64 == v2 % 4 && b2 % 64 == v3;
  }

  lemma TwoPadCanonical(c0: char, c1: char)
    requires Value(c0) >= 0 && Value(c1) >= 0 && Value(c1) % 16 == 0
    ensures Encode([Value(c0) * 4 + Value(c1) / 16]) == [c0, c1, Pad, Pad]
  {
    var v0, v1 := Value(c0), Value(c1);
    var b0 := v0 * 4 + v1 / 16;
    assert b0 / 4 == v0 && b0 % 4 * 16 == v1;
  }

  lemma OnePadCanonical(c0: char, c1: char, c2: char)
    requires Value(c0) >= 0 && Value(c1) >= 0 && Value(c2) >= 0 && Value(c2) % 4 == 0
    ensures var v0, v1, v2 := Value(c0), Value(c1), Value(c2);
      Encode([v0 * 4 + v1 / 16, v1 % 16 * 16 + v2 / 4]) == [c0, c1, c2, Pad]
  {
    var v0, v1, v2 := Value(c0), Value(c1), Value(c2);
    var b0, b1 := v0 * 4 + v1 / 16, v1 % 16 * 16 + v2 / 4;
    assert b0 / 4 == v0 && b0 % 4 == v1 / 16;
    assert b1 / 16 == v1 % 16 && b1 % 16 * 4 == v2;
  }

  lemma FinalCanonical(c0: char, c1: char, c2: char, c3: char)
    requires DecodeFinal(c0, c1, c2, c3).Some?
    ensures Encode(DecodeFinal(c0, c1, c2, c3).value) == [c0, c1, c2, c3]
  {
    if c2 == Pad && c3 == Pad {
      TwoPadCanonical(c0, c1);
    } else if c3 == Pad {
      OnePadCanonical(c0, c1, c2);
    } else {
      QuantumCanonical(c0, c1, c2, c3);
      var d := DecodeQuantum(c0, c1, c2, c3).value;
      assert Encode(d) == EncodeQuantum(d[0], d[1], d[2]) + Encode(d[3..]);
      assert d[3..] == [];
    }
  }

  /** A string that decodes is the encoding of what it decodes to: the decoder accepts nothing else. */
  lemma {:induction false} EncodeDecode(s: string)
    requires Decode(s).Some?
    ensures Encode(Decode(s).value) == s
    decreases |s|
  {
    if |s| == 0 {
    } else if |s| == 4 {
      FinalCanonical(s[0], s[1], s[2], s[3]);
      assert s == [s[0], s[1], s[2], s[3]];
    } else {
      var head := DecodeQuantum(s[0], s[1], s[2], s[3]).value;
      var tail := Decode(s[4..]).value;
      QuantumCanonical(s[0], s[1], s[2], s[3]);
      EncodeDecode(s[4..]);
      var b := head + tail;
      assert Decode(s).value == b;
      assert b[3..] == tail;
      assert Encode(b) == EncodeQuantum(b[0], b[1], b[2]) + Encode(tail);
      assert s == [s[0], s[1], s[2], s[3]] + s[4..];
    }
  }
}
