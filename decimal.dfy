/**
 * Decimal text of integers and of integer cents, as JavaScript prints them:
 * `n.toString()` for an integer n, `(c / 100).toFixed(2)` and `String(c / 100)`
 * for an integer number of cents c (the latter two for c >= 0, the only money
 * values in the application).
 */
module Decimal {
  import opened Wrappers

  predicate IsDigit(c: char) { '0' <= c <= '9' }

  predicate AllDigits(s: string) { forall i :: 0 <= i < |s| ==> IsDigit(s[i]) }

  function DigitChar(d: nat): (c: char)
    requires d < 10
    ensures IsDigit(c)
  {
    ('0' as int + d) as char
  }

  function DigitValue(c: char): (d: nat)
    requires IsDigit(c)
    ensures d < 10
  {
    c as int - '0' as int
  }

  /** The decimal text of a non-negative integer: no sign, no leading zero. */
  function NatToString(n: nat): (s: string)
    decreases n
  {
    if n < 10 then [DigitChar(n)] else NatToString(n / 10) + [DigitChar(n % 10)]
  }

  /** The value of a string of decimal digits, read most significant digit first. */
  function DigitsValue(s: string): nat
    requires AllDigits(s)
  {
    if s == [] then 0 else DigitsValue(s[..|s| - 1]) * 10 + DigitValue(s[|s| - 1])
  }

  lemma {:induction false} NatToStringShape(n: nat)
    ensures 1 <= |NatToString(n)|
    ensures AllDigits(NatToString(n))
    ensures NatToString(n)[0] == '0' <==> n == 0
    ensures n < 10 <==> |NatToString(n)| == 1
    ensures 10 <= n < 100 <==> |NatToString(n)| == 2
  {
    if n >= 10 {
      NatToStringShape(n / 10);
    }
  }

  function Pow10(k: nat): (r: nat)
    ensures r >= 1
  {
    if k == 0 then 1 else 10 * Pow10(k - 1)
  }

  /** A number has k + 1 digits exactly when it is below 10^(k+1) and, unless it is 0, at least 10^k. */
  lemma {:induction false} NatToStringLength(n: nat)
    ensures n < Pow10(|NatToString(n)|)
    ensures n == 0 || Pow10(|NatToString(n)| - 1) <= n
  {
    NatToStringShape(n);
    if n >= 10 {
      NatToStringLength(n / 10);
      NatToStringShape(n / 10);
      var k := |NatToString(n / 10)|;
      assert |NatToString(n)| == k + 1;
      assert Pow10(k + 1) == 10 * Pow10(k);
      assert n / 10 < Pow10(k);
      assert n < 10 * Pow10(k);
      assert Pow10(k - 1) <= n / 10;
      assert Pow10(k) == 10 * Pow10(k - 1);
    }
  }

  /** The digit count of n is its decimal magnitude: k + 1 digits iff n lies in [10^k, 10^(k+1)), or k = 0 and n = 0. */
  lemma NatToStringLengthIff(n: nat, k: nat)
    ensures |NatToString(n)| == k + 1 <==> (k == 0 || Pow10(k) <= n) && n < Pow10(k + 1)
  {
    NatToStringLength(n);
    NatToStringShape(n);
    var len := |NatToString(n)|;
    if |NatToString(n)| == k + 1 {
    } else if (k == 0 || Pow10(k) <= n) && n < Pow10(k + 1) {
      if len < k + 1 {
        Pow10Monotone(len, k);
      } else {
        Pow10Monotone(k + 1, len - 1);
      }
    }
  }

  lemma {:induction false} Pow10Monotone(i: nat, j: nat)
    requires i <= j
    ensures Pow10(i) <= Pow10(j)
  {
    if i < j {
      Pow10Monotone(i, j - 1);
    }
  }

  /** Reading back the printed digits gives the number printed. */
  lemma {:induction false} NatToStringRoundTrip(n: nat)
    ensures AllDigits(NatToString(n))
    ensures DigitsValue(NatToString(n)) == n
  {
    NatToStringShape(n);
    if n >= 10 {
      NatToStringRoundTrip(n / 10);
      var s := NatToString(n);
      assert s[..|s| - 1] == NatToString(n / 10);
    }
  }

  lemma NatToStringInjective(a: nat, b: nat)
    ensures NatToString(a) == NatToString(b) <==> a == b
  {
    NatToStringRoundTrip(a);
    NatToStringRoundTrip(b);
  }

  /** `i.toString()` for an integer i. */
  function IntToString(i: int): (s: string)
  {
    if i < 0 then "-" + NatToString(-i) else NatToString(i)
  }

  /** Reads an optional minus sign followed by one or more digits. */
  function ParseInt(s: string): (r: Option<int>)
  {
    if |s| > 0 && s[0] == '-' then
      (if |s| > 1 && AllDigits(s[1..]) then Some(0 - DigitsValue(s[1..]) as int) else None)
    else if |s| > 0 && AllDigits(s) then Some(DigitsValue(s))
    else None
  }

  lemma IntToStringRoundTrip(i: int)
    ensures ParseInt(IntToString(i)) == Some(i)
  {
    if i < 0 {
      NatToStringShape(-i);
      NatToStringRoundTrip(-i);
      assert IntToString(i)[1..] == NatToString(-i);
    } else {
      NatToStringShape(i);
      NatToStringRoundTrip(i);
    }
  }

  lemma IntToStringInjective(a: int, b: int)
    ensures IntToString(a) == IntToString(b) <==> a == b
  {
    IntToStringRoundTrip(a);
    IntToStringRoundTrip(b);
  }

  /** Two digits with a leading zero below ten. */
  function TwoDigits(n: nat): (s: string)
    requires n < 100
  {
    if n < 10 then "0" + NatToString(n) else NatToString(n)
  }

  lemma TwoDigitsShape(n: nat)
    requires n < 100
    ensures |TwoDigits(n)| == 2 && AllDigits(TwoDigits(n))
    ensures DigitsValue(TwoDigits(n)) == n
    ensures TwoDigits(n)[0] == '0' <==> n < 10
  {
    NatToStringShape(n);
    NatToStringRoundTrip(n);
    if n < 10 {
      assert TwoDigits(n) == ['0', DigitChar(n)];
      assert TwoDigits(n)[..1] == "0";
    }
  }

  /** `(c / 100).toFixed(2)` for c cents: whole units, a point, exactly two digits. */
  function ToFixed2(c: nat): (s: string)
  {
    NatToString(c / 100) + "." + TwoDigits(c % 100)
  }

  /** Reads `<digits>.<two digits>` back into cents. */
  function ParseFixed2(s: string): (r: Option<nat>)
  {
    if |s| >= 4 && s[|s| - 3] == '.' && AllDigits(s[..|s| - 3]) && AllDigits(s[|s| - 2..])
    then Some(DigitsValue(s[..|s| - 3]) * 100 + DigitsValue(s[|s| - 2..]))
    else None
  }

  /** The two-decimal display of cents reads back as the same number of cents. */
  lemma ToFixed2RoundTrip(c: nat)
    ensures ParseFixed2(ToFixed2(c)) == Some(c)
  {
    var w, f := NatToString(c / 100), TwoDigits(c % 100);
    NatToStringShape(c / 100);
    NatToStringRoundTrip(c / 100);
    TwoDigitsShape(c % 100);
    var s := ToFixed2(c);
    assert s[..|s| - 3] == w;
    assert s[|s| - 2..] == f;
  }

  lemma ToFixed2Injective(a: nat, b: nat)
    ensures ToFixed2(a) == ToFixed2(b) <==> a == b
  {
    ToFixed2RoundTrip(a);
    ToFixed2RoundTrip(b);
  }

  /**
   * `String(c / 100)` for c cents: the whole part, then, when c is not a whole
   * number of units, a point and the cents without a trailing zero.
   */
  function JsNumberText(c: nat): (s: string)
  {
    if c % 100 == 0 then NatToString(c / 100)
    else if c % 10 == 0 then NatToString(c / 100) + "." + [DigitChar(c % 100 / 10)]
    else NatToString(c / 100) + "." + TwoDigits(c % 100)
  }

  /** The printed value has a point exactly when the amount has cents. */
  lemma JsNumberTextHasPoint(c: nat)
    ensures '.' in JsNumberText(c) <==> c % 100 != 0
  {
    NatToStringShape(c / 100);
    if c % 100 == 0 {
      assert forall i :: 0 <= i < |JsNumberText(c)| ==> IsDigit(JsNumberText(c)[i]);
    } else {
      assert JsNumberText(c)[|NatToString(c / 100)|] == '.';
    }
  }

  /** Printing a whole number of units gives the same text as printing the integer. */
  lemma JsNumberTextWhole(n: nat)
    ensures JsNumberText(n * 100) == NatToString(n)
  {
    var c := n * 100;
    assert c == 100 * n + 0;
    assert c % 100 == 0 && c / 100 == n;
  }
}
