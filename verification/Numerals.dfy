/** Decimal text of integers: `std::from_chars`, and the `{}` format of an integer. */
module Numerals {
  import opened Core

  predicate IsDigit(c: char) { '0' <= c <= '9' }

  predicate AllDigits(s: string) { forall i :: 0 <= i < |s| ==> IsDigit(s[i]) }

  function DigitChar(n: int): (c: Byte)
    requires 0 <= n <= 9
    ensures IsDigit(c) && c as int - '0' as int == n
  {
    ('0' as int + n) as char
  }

  function DecimalValue(s: string): nat
    requires AllDigits(s)
  {
    if s == [] then 0
    else 10 * DecimalValue(s[..|s| - 1]) + (s[|s| - 1] as int - '0' as int)
  }

  /** `std::from_chars` for a signed integer that must use up the whole field. */
  function ReadInt(s: string): Option<int> {
    if AllDigits(s) && s != [] then Some(DecimalValue(s))
    else if |s| > 1 && s[0] == '-' && AllDigits(s[1..]) then Some(-(DecimalValue(s[1..]) as int))
    else None
  }

  lemma {:induction false} DigitsDetermined(a: string, b: string)
    requires AllDigits(a) && AllDigits(b) && |a| == |b| && DecimalValue(a) == DecimalValue(b)
    ensures a == b
  {
    if a == [] {
    } else {
      DigitsDetermined(a[..|a| - 1], b[..|b| - 1]);
      assert a == a[..|a| - 1] + [a[|a| - 1]] && b == b[..|b| - 1] + [b[|b| - 1]];
    }
  }

  /** `std::format("{}", n)`. */
  function DecimalText(n: int): (s: Bytes)
    ensures s != [] && (n >= 0 ==> AllDigits(s))
    ensures n < 0 ==> s[0] == '-' && |s| > 1 && AllDigits(s[1..])
    decreases n < 0, if n < 0 then -n else n
  {
    if n < 0 then
      var s: Bytes := "-" + DecimalText(-n);
      assert s[1..] == DecimalText(-n);
      s
    else if n < 10 then [DigitChar(n)]
    else DecimalText(n / 10) + [DigitChar(n % 10)]
  }

  lemma {:induction false} ValueOfDecimalText(n: nat)
    ensures DecimalValue(DecimalText(n)) == n
  {
    var s := DecimalText(n);
    if n < 10 {
      assert s[..0] == [];
    } else {
      ValueOfDecimalText(n / 10);
      assert s[..|s| - 1] == DecimalText(n / 10);
    }
  }

  /** Reading the decimal text of an integer gives the integer back. */
  lemma ReadOfDecimalText(n: int)
    ensures ReadInt(DecimalText(n)) == Some(n)
  {
    ValueOfDecimalText(if n < 0 then -n else n);
    if n < 0 {
      var s := DecimalText(n);
      assert s[1..] == DecimalText(-n);
      assert !IsDigit(s[0]);
    }
    hide DecimalText, DecimalValue;
  }

  /** Two samples: decimal, most significant digit first, no padding, a minus sign in front. */
  lemma Samples()
    ensures DecimalText(1024) == "1024" && DecimalText(-907) == "-907" && DecimalText(0) == "0"
    ensures AllDigits("0190") && DecimalValue("0190") == 190
  {
    assert DecimalText(10) == "10" && DecimalText(102) == "102" && DecimalText(90) == "90";
    assert "0190"[..3] == "019" && "019"[..2] == "01" && "01"[..1] == "0" && "0"[..0] == "";
    assert DecimalValue("0") == 0 && DecimalValue("01") == 1 && DecimalValue("019") == 19;
  }
}
