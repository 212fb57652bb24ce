/** Option and Result values shared by every part of the model. */
module Common {
  datatype Option<+T> = None | Some(value: T)

  datatype Result<+T, +E> = Ok(value: T) | Err(error: E)
}

/** Sums of natural weights over the keys of a finite map. */
module Sums {
  ghost function Sum<K(!new)>(weights: map<K, nat>): (total: nat)
  {
    if weights == map[] then 0
    else
      var k :| k in weights;
      weights[k] + Sum(weights - {k})
  }

  /** The sum does not depend on which key is taken out first. */
  lemma {:induction false} SumSplit<K(!new)>(weights: map<K, nat>, k: K)
    requires k in weights
    ensures Sum(weights) == weights[k] + Sum(weights - {k})
    decreases |weights|
  {
    var first :| first in weights && Sum(weights) == weights[first] + Sum(weights - {first});
    if first != k {
      var rest := weights - {first};
      SumSplit(rest, k);
      SumSplit(weights - {k}, first);
      assert rest - {k} == weights - {k} - {first};
    }
  }

  lemma SumUpdate<K(!new)>(weights: map<K, nat>, k: K, w: nat)
    requires k in weights
    ensures Sum(weights[k := w]) + weights[k] == Sum(weights) + w
  {
    SumSplit(weights, k);
    SumSplit(weights[k := w], k);
    assert weights[k := w] - {k} == weights - {k};
  }

  lemma SumPositive<K(!new)>(weights: map<K, nat>, k: K)
    requires k in weights
    ensures weights[k] <= Sum(weights)
  {
    SumSplit(weights, k);
  }
}

/** Numbers as strconv and fmt print them. */
module Decimals {
  predicate IsDigit(c: char) { '0' <= c <= '9' }

  function DigitValue(c: char): nat
    requires IsDigit(c)
  {
    c as int - '0' as int
  }

  function DigitChar(d: nat): (c: char)
    requires d < 10
    ensures IsDigit(c) && DigitValue(c) == d
  {
    (d + '0' as int) as char
  }

  predicate AllDigits(s: string) { forall i :: 0 <= i < |s| ==> IsDigit(s[i]) }

  /** %d of a non-negative number. */
  function Decimal(n: nat): (s: string)
    ensures s != "" && AllDigits(s)
  {
    if n < 10 then [DigitChar(n)] else Decimal(n / 10) + [DigitChar(n % 10)]
  }

  function Value(digits: string): nat
    requires AllDigits(digits)
  {
    if digits == "" then 0 else Value(digits[..|digits| - 1]) * 10 + DigitValue(digits[|digits| - 1])
  }

  /** As %d prints a non-negative number: digits only, and no zero in front. */
  predicate Canonical(digits: string)
  {
    digits != "" && AllDigits(digits) && (digits[0] == '0' ==> |digits| == 1)
  }

  lemma {:induction false} ValueOfDecimal(n: nat)
    ensures Value(Decimal(n)) == n
    decreases n
  {
    var s := Decimal(n);
    if n < 10 {
      assert s[..0] == "";
    } else {
      assert s[..|s| - 1] == Decimal(n / 10);
      ValueOfDecimal(n / 10);
    }
  }

  /** Only zero starts with a zero. */
  lemma {:induction false} DecimalIsCanonical(n: nat)
    ensures Canonical(Decimal(n)) && (Decimal(n)[0] == '0' <==> n == 0)
    decreases n
  {
    if n >= 10 {
      DecimalIsCanonical(n / 10);
      assert Decimal(n)[0] == Decimal(n / 10)[0];
    }
  }

  lemma {:induction false} ValueIsPositive(digits: string)
    requires AllDigits(digits) && digits != "" && digits[0] != '0'
    ensures Value(digits) > 0
    decreases |digits|
  {
    var init := digits[..|digits| - 1];
    if init != "" {
      ValueIsPositive(init);
    } else {
      assert Value(init) == 0;
    }
  }

  lemma DecimalSnoc(n: nat, d: nat)
    requires n > 0 && d < 10
    ensures Decimal(10 * n + d) == Decimal(n) + [DigitChar(d)]
  {
    var m := 10 * n + d;
    assert m / 10 == n && m % 10 == d;
  }

  /** Canonical digits are the decimal of their value: the two fix each other. */
  lemma {:induction false} DecimalOfValue(digits: string)
    requires Canonical(digits)
    ensures Decimal(Value(digits)) == digits
    decreases |digits|
  {
    var init, c := digits[..|digits| - 1], digits[|digits| - 1];
    assert digits == init + [c] && IsDigit(c);
    assert DigitChar(DigitValue(c)) == c;
    if init == "" {
      assert Value(init) == 0 && Value(digits) == DigitValue(c);
    } else {
      assert init[0] == digits[0] && Canonical(init);
      ValueIsPositive(init);
      DecimalOfValue(init);
      DecimalSnoc(Value(init), DigitValue(c));
    }
  }
}
