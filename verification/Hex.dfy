/** Lowercase hex text of a byte string. */
module Hex {
  import opened Common
  import opened Bytes

  const DIGITS := "0123456789abcdef"

  function HexDigit(n: nat): char
    requires n < 16
  {
    DIGITS[n]
  }

  function DigitValue(c: char): Option<nat> {
    if '0' <= c <= '9' then Some(c as int - '0' as int)
    else if 'a' <= c <= 'f' then Some(c as int - 'a' as int + 10)
    else None
  }

  function Encode(b: Bytes): (s: string)
    ensures |s| == 2 * |b|
  {
    if b == [] then "" else [HexDigit(b[0] / 16), HexDigit(b[0] % 16)] + Encode(b[1..])
  }

  function Decode(s: string): Option<Bytes> {
    if s == "" then Some([])
    else if |s| == 1 then None
    else
      match (DigitValue(s[0]), DigitValue(s[1]), Decode(s[2..]))
      case (Some(h), Some(l), Some(rest)) =>
        if h < 16 && l < 16 then
          var first: Byte := 16 * h + l;
          Some([first] + rest)
        else None
      case _ => None
  }

  lemma DigitRoundTrip(n: nat)
    requires n < 16
    ensures DigitValue(HexDigit(n)) == Some(n)
  {
    assert n == 0 || n == 1 || n == 2 || n == 3 || n == 4 || n == 5 || n == 6 || n == 7
        || n == 8 || n == 9 || n == 10 || n == 11 || n == 12 || n == 13 || n == 14 || n == 15;
  }

  /** Byte `i` is its two lowercase digits, the high half first. */
  lemma {:induction false} EncodeAt(b: Bytes, i: nat)
    requires i < |b|
    ensures Encode(b)[2 * i] == "0123456789abcdef"[b[i] / 16]
    ensures Encode(b)[2 * i + 1] == "0123456789abcdef"[b[i] % 16]
  {
    var digits := [HexDigit(b[0] / 16), HexDigit(b[0] % 16)];
    if i == 0 {
    } else {
      EncodeAt(b[1..], i - 1);
      assert Encode(b) == digits + Encode(b[1..]);
    }
  }

  lemma DecodePair(first: Byte, text: string, rest: Bytes)
    requires Decode(text) == Some(rest)
    ensures Decode([HexDigit(first / 16), HexDigit(first % 16)] + text) == Some([first] + rest)
  {
    var s := [HexDigit(first / 16), HexDigit(first % 16)] + text;
    DigitRoundTrip(first / 16);
    DigitRoundTrip(first % 16);
    assert s[2..] == text;
    assert 16 * (first / 16) + first % 16 == first;
  }

  /** Nothing is lost in the text column. */
  lemma {:induction false} DecodeEncode(b: Bytes)
    ensures Decode(Encode(b)) == Some(b)
  {
    if b == [] {
    } else {
      DecodeEncode(b[1..]);
      var rest := Encode(b[1..]);
      assert Encode(b) == [HexDigit(b[0] / 16), HexDigit(b[0] % 16)] + rest;
      DecodePair(b[0], rest, b[1..]);
      assert [b[0]] + b[1..] == b;
    }
  }

  lemma EncodeInjective(a: Bytes, b: Bytes)
    requires Encode(a) == Encode(b)
    ensures a == b
  {
    DecodeEncode(a);
    DecodeEncode(b);
  }
}
