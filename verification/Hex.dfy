/** Hex strings, as Buffer.toString('hex') writes them and Buffer.from(_, 'hex') reads them. */
module Hex {
  import opened Bytes

  function DigitChar(v: nat): (c: char)
    requires v < 16
    ensures IsHexDigit(c) && DigitValue(c) == v && !('A' <= c <= 'F')
  {
    if v < 10 then '0' + v as char else 'a' + (v - 10) as char
  }

  predicate IsHexDigit(c: char) {
    '0' <= c <= '9' || 'a' <= c <= 'f' || 'A' <= c <= 'F'
  }

  function DigitValue(c: char): (v: nat)
    requires IsHexDigit(c)
    ensures v < 16
  {
    if c <= '9' then (c - '0') as int
    else if c <= 'F' then (c - 'A') as int + 10
    else (c - 'a') as int + 10
  }

  const LOWER_DIGITS: string := "0123456789abcdef"
  const UPPER_DIGITS: string := "0123456789ABCDEF"

  /** The hex digits are the 22 characters of these two strings, and their values are their places in them. */
  lemma Digits(c: char)
    ensures IsHexDigit(c) <==> c in LOWER_DIGITS || c in UPPER_DIGITS
    ensures IsHexDigit(c) ==> LOWER_DIGITS[DigitValue(c)] == c || UPPER_DIGITS[DigitValue(c)] == c
  {
    if IsHexDigit(c) {
      DigitAtItsPlace(c);
    }
  }

  lemma DigitAtItsPlace(c: char)
    requires IsHexDigit(c)
    ensures LOWER_DIGITS[DigitValue(c)] == c || UPPER_DIGITS[DigitValue(c)] == c
  {
    var v := DigitValue(c);
    if v < 10 {
      assert LOWER_DIGITS[v] == '0' + v as char;
    } else if 'a' <= c {
      assert LOWER_DIGITS[v] == 'a' + (v - 10) as char;
    } else {
      assert UPPER_DIGITS[v] == 'A' + (v - 10) as char;
    }
  }

  function Encode(s: seq<byte>): (hex: string)
    ensures |hex| == 2 * |s|
  {
    if s == [] then "" else [DigitChar(s[0] / 16), DigitChar(s[0] % 16)] + Encode(s[1..])
  }

  /** Decoding stops at the first pair that is not two hex digits, and drops an odd last digit. */
  function Decode(hex: string): (s: seq<byte>)
    ensures 2 * |s| <= |hex|
  {
    if |hex| < 2 || !IsHexDigit(hex[0]) || !IsHexDigit(hex[1]) then []
    else [16 * DigitValue(hex[0]) + DigitValue(hex[1])] + Decode(hex[2..])
  }

  lemma {:induction false} DecodeEncode(s: seq<byte>)
    ensures Decode(Encode(s)) == s
  {
    if s != [] {
      DecodeEncode(s[1..]);
      assert Encode(s)[2..] == Encode(s[1..]);
    }
  }

  lemma DecodePair(pair: string, rest: string)
    requires |pair| == 2 && IsHexDigit(pair[0]) && IsHexDigit(pair[1])
    ensures Decode(pair + rest) == [16 * DigitValue(pair[0]) + DigitValue(pair[1])] + Decode(rest)
  {
    assert (pair + rest)[2..] == rest;
  }

  lemma DecodeNothing()
    ensures Decode("") == []
  {
  }

  lemma {:induction false} DecodeConcat(digits: string, tail: string)
    requires |digits| % 2 == 0 && forall k :: 0 <= k < |digits| ==> IsHexDigit(digits[k])
    ensures 2 * |Decode(digits)| == |digits|
    ensures Decode(digits + tail) == Decode(digits) + Decode(tail)
  {
    hide Decode, IsHexDigit, DigitValue;
    if digits == "" {
      assert digits + tail == tail;
      DecodeNothing();
    } else {
      var pair, rest := digits[..2], digits[2..];
      assert digits == pair + rest && digits + tail == pair + (rest + tail);
      DecodePair(pair, rest);
      DecodePair(pair, rest + tail);
      DecodeConcat(rest, tail);
      var head := [16 * DigitValue(pair[0]) + DigitValue(pair[1])];
      assert Decode(digits) == head + Decode(rest);
      assert head + (Decode(rest) + Decode(tail)) == head + Decode(rest) + Decode(tail);
    }
  }

  predicate HexPair(hex: string, k: nat) {
    2 * k + 2 <= |hex| && IsHexDigit(hex[2 * k]) && IsHexDigit(hex[2 * k + 1])
  }

  /** Decoding takes the pairs of digits at the front, high digit first, up to the first pair that is not one. */
  lemma {:induction false} DecodeMeans(hex: string)
    ensures forall k :: 0 <= k < |Decode(hex)| ==>
              HexPair(hex, k) && Decode(hex)[k] == 16 * DigitValue(hex[2 * k]) + DigitValue(hex[2 * k + 1])
    ensures !HexPair(hex, |Decode(hex)|)
  {
    hide IsHexDigit, DigitValue;
    if HexPair(hex, 0) {
      var rest := hex[2..];
      DecodeMeans(rest);
      forall k | 0 <= k < |Decode(hex)|
        ensures HexPair(hex, k) && Decode(hex)[k] == 16 * DigitValue(hex[2 * k]) + DigitValue(hex[2 * k + 1])
      {
        if k > 0 {
          assert HexPair(rest, k - 1) && Decode(hex)[k] == Decode(rest)[k - 1];
        }
      }
      assert !HexPair(rest, |Decode(rest)|);
    }
  }

  lemma {:induction false} DecodeDrop(hex: string, from: nat)
    requires 2 * |Decode(hex)| == |hex| && from <= |Decode(hex)|
    ensures Decode(hex[2 * from..]) == Decode(hex)[from..]
  {
    if from > 0 {
      DecodeDrop(hex[2..], from - 1);
      assert hex[2..][2 * (from - 1)..] == hex[2 * from..];
    } else {
      assert hex[0..] == hex;
    }
  }

  lemma {:induction false} DecodeTake(hex: string, to: nat)
    requires to <= |Decode(hex)|
    ensures Decode(hex[..2 * to]) == Decode(hex)[..to]
  {
    if to > 0 {
      DecodeTake(hex[2..], to - 1);
      assert hex[..2 * to][2..] == hex[2..][..2 * (to - 1)];
    }
  }

  /** Cutting a fully hexadecimal string at even places cuts the bytes it denotes. */
  lemma DecodeSlice(hex: string, from: nat, to: nat)
    requires 2 * |Decode(hex)| == |hex| && from <= to <= |Decode(hex)|
    ensures Decode(hex[2 * from..2 * to]) == Decode(hex)[from..to]
  {
    DecodeTake(hex, to);
    assert 2 * |Decode(hex[..2 * to])| == |hex[..2 * to]|;
    DecodeDrop(hex[..2 * to], from);
    assert hex[..2 * to][2 * from..] == hex[2 * from..2 * to];
    assert Decode(hex)[..to][from..] == Decode(hex)[from..to];
  }
}
