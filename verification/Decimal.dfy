/** Decimal notation as toString writes it and parseInt and BigInt read it. */
module Decimal {
  import opened Wrappers

  predicate IsDigit(c: char) {
    '0' <= c <= '9'
  }

  function Digits(n: nat): (s: string)
    ensures |s| > 0 && forall k :: 0 <= k < |s| ==> IsDigit(s[k])
  {
    var last := '0' + (n % 10) as char;
    if n < 10 then [last] else Digits(n / 10) + [last]
  }

  function ToString(n: int): string {
    if n < 0 then "-" + Digits(-n) else Digits(n)
  }

  function Value(s: string): nat
    requires forall k :: 0 <= k < |s| ==> IsDigit(s[k])
  {
    if s == "" then 0
    else
      assert IsDigit(s[|s| - 1]);
      10 * Value(s[..|s| - 1]) + (s[|s| - 1] - '0') as int
  }

  lemma {:induction false} ValueOfDigits(n: nat)
    ensures Value(Digits(n)) == n
  {
    var s := Digits(n);
    if n < 10 {
      assert s[..0] == "";
    } else {
      ValueOfDigits(n / 10);
      assert s[..|s| - 1] == Digits(n / 10);
    }
  }

  /** The digits at the front of a string. */
  function LeadingDigits(s: string): (d: string)
    ensures forall k :: 0 <= k < |d| ==> IsDigit(d[k])
    ensures d <= s
  {
    if s == "" || !IsDigit(s[0]) then "" else [s[0]] + LeadingDigits(s[1..])
  }

  lemma {:induction false} AllDigitsLead(s: string)
    requires forall k :: 0 <= k < |s| ==> IsDigit(s[k])
    ensures LeadingDigits(s) == s
  {
    if s != "" {
      AllDigitsLead(s[1..]);
    }
  }

  /** parseInt(s, 10) on an optional minus sign and digits, ignoring what follows; None is NaN. */
  function ParseInt(s: string): Option<int> {
    var negative := s != "" && s[0] == '-';
    var d := LeadingDigits(if negative then s[1..] else s);
    if d == "" then None else Some(if negative then 0 - Value(d) else Value(d))
  }

  /** BigInt(s) on decimal strings; None is the SyntaxError it throws. */
  function ParseBigInt(s: string): Option<int> {
    var negative := s != "" && s[0] == '-';
    var d := if negative then s[1..] else s;
    if d == "" || LeadingDigits(d) != d then None else Some(if negative then 0 - Value(d) else Value(d))
  }

  /** Printing an integer and reading it back, either way, gives the integer. */
  lemma PrintParse(n: int)
    ensures ParseInt(ToString(n)) == Some(n) && ParseBigInt(ToString(n)) == Some(n)
  {
    var d := Digits(if n < 0 then -n else n);
    ValueOfDigits(if n < 0 then -n else n);
    AllDigitsLead(d);
    if n < 0 {
      assert ToString(n)[1..] == d;
    }
  }

  /** The last digit is the remainder by ten, and the digits before it are those of the quotient. */
  lemma DigitsMean(n: nat, d: nat)
    requires d < 10
    ensures Digits(d) == ["0123456789"[d]]
    ensures n > 0 ==> Digits(10 * n + d) == Digits(n) + ["0123456789"[d]]
  {
    assert "0123456789"[d] == '0' + d as char;
  }

  /** Reading stops at the first character that is no digit, which parseInt ignores and BigInt does not. */
  lemma {:induction false} LeadingDigitsStop(d: string, tail: string)
    requires forall k :: 0 <= k < |d| ==> IsDigit(d[k])
    requires tail == "" || !IsDigit(tail[0])
    ensures LeadingDigits(d + tail) == d
  {
    if d == "" {
      assert d + tail == tail;
    } else {
      assert (d + tail)[0] == d[0] && (d + tail)[1..] == d[1..] + tail;
      LeadingDigitsStop(d[1..], tail);
    }
  }

  lemma ParseMeans(d: string, tail: string)
    requires d != "" && forall k :: 0 <= k < |d| ==> IsDigit(d[k])
    requires tail == "" || !IsDigit(tail[0])
    ensures ParseInt(d + tail) == Some(Value(d)) && ParseInt("-" + (d + tail)) == Some(0 - Value(d))
    ensures ParseBigInt(d + tail) == if tail == "" then Some(Value(d)) else None
  {
    hide LeadingDigits, Value, ParseInt, ParseBigInt;
    assert (d + tail)[0] == d[0] && IsDigit(d[0]);
    LeadingDigitsStop(d, tail);
    ParseFront(d + tail, d);
    assert d + tail == d <==> tail == "" by {
      assert tail == "" ==> d + tail == d;
      assert |d + tail| == |d| + |tail|;
    }
  }

  lemma ParseFront(s: string, d: string)
    requires s != "" && s[0] != '-' && LeadingDigits(s) == d != ""
    ensures ParseInt(s) == Some(Value(d)) && ParseInt("-" + s) == Some(0 - Value(d))
    ensures ParseBigInt(s) == if s == d then Some(Value(d)) else None
  {
    hide LeadingDigits, Value;
    assert ("-" + s)[1..] == s;
  }
}
