/** The numeric text and rounding rules of Python that the price services
    rely on, restricted to ASCII: `str.isdigit`, `str.replace(".", "", 1)`,
    `float(str)` and `int(str)` on plain decimal text, and `round()`. */
module Numeric {
  import opened Wrappers

  predicate IsDigit(c: char) {
    '0' <= c <= '9'
  }

  predicate AllDigits(s: string) {
    forall i :: 0 <= i < |s| ==> IsDigit(s[i])
  }

  /** `s.isdigit()`: non-empty and made of digits only. */
  predicate IsDigitText(s: string) {
    |s| > 0 && AllDigits(s)
  }

  /** `s.replace(c, "", 1)`: the text without its first occurrence of `c`. */
  function RemoveFirst(s: string, c: char): (r: string)
    ensures |r| == |s| || |r| == |s| - 1
  {
    if s == [] then []
    else if s[0] == c then s[1..]
    else [s[0]] + RemoveFirst(s[1..], c)
  }

  /** The test `value.replace('.', '', 1).isdigit()` that decides whether a
      bond description value is turned into a number. */
  predicate IsNumericText(s: string) {
    IsDigitText(RemoveFirst(s, '.'))
  }

  predicate DigitsAndDots(s: string) {
    forall i :: 0 <= i < |s| ==> IsDigit(s[i]) || s[i] == '.'
  }

  predicate AtMostOneDot(s: string) {
    forall i, j :: 0 <= i < j < |s| && s[i] == '.' ==> s[j] != '.'
  }

  predicate HasDigit(s: string) {
    exists i :: 0 <= i < |s| && IsDigit(s[i])
  }

  lemma {:induction false} RemoveFirstDotAllDigits(s: string)
    ensures AllDigits(RemoveFirst(s, '.')) <==> DigitsAndDots(s) && AtMostOneDot(s)
  {
    if s != [] {
      if s[0] == '.' {
        if AllDigits(s[1..]) {
          forall i | 0 <= i < |s| ensures IsDigit(s[i]) || s[i] == '.' {
            if i > 0 { assert s[i] == s[1..][i - 1]; }
          }
          forall i, j | 0 <= i < j < |s| && s[i] == '.' ensures s[j] != '.' {
            assert s[j] == s[1..][j - 1];
          }
        }
        if DigitsAndDots(s) && AtMostOneDot(s) {
          forall k | 0 <= k < |s[1..]| ensures IsDigit(s[1..][k]) {
            assert s[1..][k] == s[k + 1];
            assert s[k + 1] != '.';
          }
        }
      } else {
        RemoveFirstDotAllDigits(s[1..]);
        var r := RemoveFirst(s[1..], '.');
        assert RemoveFirst(s, '.') == [s[0]] + r;
        if AllDigits([s[0]] + r) {
          assert IsDigit(([s[0]] + r)[0]);
          forall k | 0 <= k < |r| ensures IsDigit(r[k]) {
            assert r[k] == ([s[0]] + r)[k + 1];
          }
          forall i | 0 <= i < |s| ensures IsDigit(s[i]) || s[i] == '.' {
            if i > 0 { assert s[i] == s[1..][i - 1]; }
          }
          forall i, j | 0 <= i < j < |s| && s[i] == '.' ensures s[j] != '.' {
            assert i > 0;
            assert s[i] == s[1..][i - 1] && s[j] == s[1..][j - 1];
          }
        }
        if DigitsAndDots(s) && AtMostOneDot(s) {
          forall k | 0 <= k < |s[1..]| ensures IsDigit(s[1..][k]) || s[1..][k] == '.' {
            assert s[1..][k] == s[k + 1];
          }
          forall i, j | 0 <= i < j < |s[1..]| && s[1..][i] == '.' ensures s[1..][j] != '.' {
            assert s[1..][i] == s[i + 1] && s[1..][j] == s[j + 1];
          }
          assert IsDigit(s[0]);
          forall k | 0 <= k < |[s[0]] + r| ensures IsDigit(([s[0]] + r)[k]) {
            if k > 0 { assert ([s[0]] + r)[k] == r[k - 1]; }
          }
        }
      }
    }
  }

  lemma {:induction false} RemoveFirstKeepsDigits(s: string, c: char)
    requires !IsDigit(c) && HasDigit(s)
    ensures RemoveFirst(s, c) != []
  {
    var i :| 0 <= i < |s| && IsDigit(s[i]);
    if s[0] == c {
      assert i > 0 && s[1..][i - 1] == s[i];
    }
  }

  /** A description value counts as numeric exactly when it consists of
      digits and at most one '.', with at least one digit. */
  lemma NumericTextIff(s: string)
    ensures IsNumericText(s) <==> DigitsAndDots(s) && AtMostOneDot(s) && HasDigit(s)
  {
    RemoveFirstDotAllDigits(s);
    var r := RemoveFirst(s, '.');
    if IsNumericText(s) {
      if s[0] == '.' {
        assert IsDigit(s[1]);
      } else {
        assert IsDigit(r[0]) && r[0] == s[0];
      }
    }
    if HasDigit(s) {
      RemoveFirstKeepsDigits(s, '.');
    }
  }

  function DigitValue(c: char): (d: nat)
    requires IsDigit(c)
    ensures d < 10
  {
    (c - '0') as nat
  }

  /** The value of a run of decimal digits, most significant first. */
  function DigitsValue(s: string): nat
    requires AllDigits(s)
  {
    if s == [] then 0 else DigitsValue(s[..|s| - 1]) * 10 + DigitValue(s[|s| - 1])
  }

  function Pow10(k: nat): (r: nat)
    ensures r >= 1
  {
    if k == 0 then 1 else 10 * Pow10(k - 1)
  }

  /** Index of the first occurrence of `c`, or |s| when there is none
      (`str.find` for the dot, `list.index` for a column name). */
  function IndexOf<T(==)>(s: seq<T>, c: T): (k: nat)
    ensures k <= |s|
    ensures forall i :: 0 <= i < k ==> s[i] != c
    ensures k < |s| ==> s[k] == c
  {
    if s == [] then 0 else if s[0] == c then 0 else 1 + IndexOf(s[1..], c)
  }

  /** `float(s)` for text that passed IsNumericText, computed exactly:
      the digits before the dot plus the digits after it scaled down. */
  function ParseDecimal(s: string): (x: real)
    requires IsNumericText(s)
    ensures x >= 0.0
  {
    NumericTextIff(s);
    var k := IndexOf(s, '.');
    var whole, fraction := s[..k], if k < |s| then s[k + 1..] else [];
    assert AllDigits(whole);
    assert AllDigits(fraction) by {
      forall i | 0 <= i < |fraction| ensures IsDigit(fraction[i]) {
        assert fraction[i] == s[k + 1 + i];
      }
    }
    DigitsValue(whole) as real + DigitsValue(fraction) as real / Pow10(|fraction|) as real
  }

  /** Plain digits parse to the integer they spell. */
  lemma ParseDecimalOfDigits(s: string)
    requires IsDigitText(s)
    ensures IsNumericText(s) && ParseDecimal(s) == DigitsValue(s) as real
  {
    DigitsHaveNoDot(s);
    var k := IndexOf(s, '.');
    var fraction: string := [];
    assert k == |s| && s[..k] == s;
    var w, f, p := DigitsValue(s) as real, DigitsValue(fraction) as real, Pow10(|fraction|) as real;
    assert ParseDecimal(s) == w + f / p;
    assert DigitsValue(fraction) == 0 && Pow10(|fraction|) == 1;
    NothingOver(f, p);
  }

  lemma NothingOver(f: real, p: real)
    requires f == 0.0 && p > 0.0
    ensures f / p == 0.0
  {
  }

  lemma DigitsHaveNoDot(s: string)
    requires IsDigitText(s)
    ensures IsNumericText(s) && IndexOf(s, '.') == |s|
  {
    assert DigitsAndDots(s) && AtMostOneDot(s) && IsDigit(s[0]);
    NumericTextIff(s);
  }

  /** `float(str(n)) == n`. */
  lemma ParseDecimalOfDecimalText(n: nat)
    ensures IsNumericText(DecimalText(n)) && ParseDecimal(DecimalText(n)) == n as real
  {
    ParseDecimalOfDigits(DecimalText(n));
    DigitsValueOfDecimalText(n);
  }

  /** Text with one dot, `whole.fraction`, is the whole part plus the
      fraction's digits scaled down by 10^|fraction|: "12.5" is 12 + 5/10. */
  lemma ParseDecimalValue(whole: string, fraction: string)
    requires AllDigits(whole) && AllDigits(fraction) && |whole| + |fraction| > 0
    ensures IsNumericText(whole + "." + fraction)
    ensures ParseDecimal(whole + "." + fraction)
         == DigitsValue(whole) as real + DigitsValue(fraction) as real / Pow10(|fraction|) as real
  {
    var s := whole + "." + fraction;
    DotAt(whole, fraction);
    assert s[..|whole|] == whole && s[|whole| + 1..] == fraction;
  }

  /** In `whole.fraction` the dot `float` splits at is the one written. */
  lemma DotAt(whole: string, fraction: string)
    requires AllDigits(whole) && AllDigits(fraction) && |whole| + |fraction| > 0
    ensures IsNumericText(whole + "." + fraction)
    ensures IndexOf(whole + "." + fraction, '.') == |whole|
  {
    DotShape(whole, fraction);
    NumericTextIff(whole + "." + fraction);
  }

  lemma DotShape(whole: string, fraction: string)
    requires AllDigits(whole) && AllDigits(fraction) && |whole| + |fraction| > 0
    ensures var s := whole + "." + fraction;
            && DigitsAndDots(s) && AtMostOneDot(s) && HasDigit(s)
            && s[|whole|] == '.' && forall i :: 0 <= i < |whole| ==> s[i] != '.'
  {
    var s := whole + "." + fraction;
    var n := |whole|;
    forall i | 0 <= i < |s| && i != n
      ensures IsDigit(s[i])
    {
      if i < n {
        assert s[i] == whole[i];
      } else {
        assert s[i] == fraction[i - n - 1];
      }
    }
    if n > 0 {
      assert IsDigit(s[0]);
    } else {
      assert IsDigit(s[1]);
    }
  }

  /** `float(s)` on text: decimal text with at most one dot, optionally after
      a sign; `None` where Python raises ValueError on such restricted text. */
  function ParseFloat(s: string): (r: Option<real>)
    ensures r.Some? <==> IsNumericText(s) || (|s| > 1 && (s[0] == '-' || s[0] == '+') && IsNumericText(s[1..]))
    ensures IsNumericText(s) ==> r == Some(ParseDecimal(s))
    ensures |s| > 1 && s[0] == '-' && IsNumericText(s[1..]) ==> r == Some(0.0 - ParseDecimal(s[1..]))
    ensures |s| > 1 && s[0] == '+' && IsNumericText(s[1..]) ==> r == Some(ParseDecimal(s[1..]))
  {
    if |s| > 0 && (s[0] == '-' || s[0] == '+') then
      SignedNotNumeric(s);
      if |s| > 1 && IsNumericText(s[1..]) then
        if s[0] == '-' then Some(0.0 - ParseDecimal(s[1..])) else Some(ParseDecimal(s[1..]))
      else None
    else if IsNumericText(s) then Some(ParseDecimal(s))
    else None
  }

  lemma SignedNotNumeric(s: string)
    requires |s| > 0 && (s[0] == '-' || s[0] == '+')
    ensures !IsNumericText(s)
  {
    assert !(IsDigit(s[0]) || s[0] == '.');
    NumericTextIff(s);
  }

  /** `float(str(n)) == n` for every integer, negative ones included. */
  lemma ParseFloatOfIntText(n: int)
    ensures n >= 0 ==> ParseFloat(DecimalText(n)) == Some(n as real)
    ensures n < 0 ==> ParseFloat("-" + DecimalText(-n)) == Some(n as real)
  {
    if n >= 0 {
      ParseDecimalOfDecimalText(n);
    } else {
      var t := DecimalText(-n);
      ParseDecimalOfDecimalText(-n);
      var u := "-" + t;
      assert u[1..] == t && u[0] == '-' && |u| > 1;
    }
  }

  /** `int(s)` for an optional sign followed by decimal digits; `None` where
      Python raises ValueError on such restricted text. */
  function ParseInt(s: string): (r: Option<int>)
    ensures r.Some? <==> IsDigitText(s) || (|s| > 1 && (s[0] == '-' || s[0] == '+') && IsDigitText(s[1..]))
    ensures r.Some? && IsDigitText(s) ==> r.value >= 0
  {
    if IsDigitText(s) then Some(DigitsValue(s))
    else if |s| > 1 && s[0] == '-' && IsDigitText(s[1..]) then Some(0 - DigitsValue(s[1..]))
    else if |s| > 1 && s[0] == '+' && IsDigitText(s[1..]) then Some(DigitsValue(s[1..]))
    else None
  }

  function DigitChar(d: nat): (c: char)
    requires d < 10
    ensures IsDigit(c) && DigitValue(c) == d
  {
    ('0' as int + d) as char
  }

  /** `str(n)` for a non-negative integer. */
  function DecimalText(n: nat): (s: string)
    ensures IsDigitText(s)
  {
    if n < 10 then [DigitChar(n)] else DecimalText(n / 10) + [DigitChar(n % 10)]
  }

  lemma {:induction false} DigitsValueOfDecimalText(n: nat)
    ensures DigitsValue(DecimalText(n)) == n
  {
    if n >= 10 {
      var s := DecimalText(n);
      assert s[..|s| - 1] == DecimalText(n / 10);
      DigitsValueOfDecimalText(n / 10);
    }
  }

  /** `int(str(n)) == n`. */
  lemma ParseIntOfDecimalText(n: nat)
    ensures ParseInt(DecimalText(n)) == Some(n)
  {
    DigitsValueOfDecimalText(n);
  }

  /** `int(str(n)) == n` for every integer, negative ones included. */
  lemma ParseIntOfIntText(n: int)
    ensures n >= 0 ==> ParseInt(DecimalText(n)) == Some(n)
    ensures n < 0 ==> ParseInt("-" + DecimalText(-n)) == Some(n)
  {
    if n >= 0 {
      DigitsValueOfDecimalText(n);
    } else {
      var t := DecimalText(-n);
      DigitsValueOfDecimalText(-n);
      var u := "-" + t;
      assert u[1..] == t && u[0] == '-' && |u| > 1;
      assert !IsDigitText(u) by { assert !IsDigit(u[0]); }
    }
  }

  /** Python's `round(x)` on a number: the nearest integer, ties to the even one. */
  function RoundHalfEven(x: real): (r: int)
    ensures r as real - 0.5 <= x <= r as real + 0.5
    ensures x == r as real - 0.5 || x == r as real + 0.5 ==> r % 2 == 0
  {
    var f := x.Floor;
    var d := x - f as real;
    if d < 0.5 then f
    else if d > 0.5 then f + 1
    else if f % 2 == 0 then f
    else f + 1
  }

  /** The two properties of RoundHalfEven determine it: no other integer has both. */
  lemma RoundHalfEvenUnique(x: real, r: int)
    requires r as real - 0.5 <= x <= r as real + 0.5
    requires x == r as real - 0.5 || x == r as real + 0.5 ==> r % 2 == 0
    ensures r == RoundHalfEven(x)
  {
  }
}
