/** Decimal notation of non-negative integers, as JavaScript writes an integer-valued
    number when it is turned into a string (`n + ""`, or a template `${n}`), together
    with its reading back as a number. */
module Digits {

  predicate IsDigit(c: char) {
    '0' <= c <= '9'
  }

  predicate AllDigits(s: string) {
    forall i | 0 <= i < |s| :: IsDigit(s[i])
  }

  function DigitChar(d: nat): (c: char)
    requires d < 10
    ensures IsDigit(c)
  {
    (('0' as int) + d) as char
  }

  function DigitValue(c: char): (d: nat)
    requires IsDigit(c)
    ensures d < 10
  {
    (c as int) - ('0' as int)
  }

  function Pow10(k: nat): (p: nat)
    ensures p >= 1
  {
    if k == 0 then 1 else 10 * Pow10(k - 1)
  }

  /** The decimal notation of `n`: at least one digit, and no leading zero unless the
      number is zero itself. */
  function ToDecimal(n: nat): (s: string)
    ensures |s| > 0 && AllDigits(s)
    ensures s[0] == '0' <==> n == 0
    decreases n
  {
    if n < 10 then [DigitChar(n)] else ToDecimal(n / 10) + [DigitChar(n % 10)]
  }

  /** The number a string of digits denotes, read most significant digit first. */
  function Value(s: string): nat
    requires AllDigits(s)
  {
    if |s| == 0 then 0 else Value(s[..|s| - 1]) * 10 + DigitValue(s[|s| - 1])
  }

  /** The last `k` characters of `s`, or all of `s` when it is shorter. This is
      `s.slice(-k)` for `k > 0`. */
  function Last(s: string, k: nat): (r: string)
    ensures |r| == if |s| <= k then |s| else k
    ensures r == s[|s| - |r|..]
  {
    if |s| <= k then s else s[|s| - k..]
  }

  lemma ValueSnoc(s: string, c: char)
    requires AllDigits(s) && IsDigit(c)
    ensures AllDigits(s + [c])
    ensures Value(s + [c]) == Value(s) * 10 + DigitValue(c)
  {
  }

  /** Euclidean division is unique: a decomposition `n == m * a + c` with
      `0 <= c < m` is the quotient and remainder. */
  lemma DivModUnique(n: int, m: int, a: int, c: int)
    requires m > 0 && 0 <= c < m && n == m * a + c
    ensures n / m == a && n % m == c
  {
    var q, r := n / m, n % m;
    var d := a - q;
    assert m * d == r - c by {
      assert m * a == m * q + m * d;
    }
    if d >= 1 {
      assert false;
    } else if d <= -1 {
      assert false;
    }
  }

  /** Dropping the last decimal digit and then taking the remainder modulo `p` is
      the remainder modulo `10 * p` with that digit removed. */
  lemma ModShift(n: nat, p: nat)
    requires p > 0
    ensures ((n / 10) % p) * 10 + n % 10 == n % (10 * p)
  {
    var q, r := n / 10, n % 10;
    var a, b := q / p, q % p;
    assert n == 10 * q + r;
    assert q == p * a + b;
    assert n == (10 * p) * a + (10 * b + r) by {
      assert 10 * q == 10 * (p * a) + 10 * b;
      assert 10 * (p * a) == (10 * p) * a;
    }
    assert 10 * b + r < 10 * p by {
      assert b <= p - 1;
      assert 10 * b <= 10 * (p - 1);
    }
    DivModUnique(n, 10 * p, a, 10 * b + r);
  }

  /** Reading the decimal notation back gives the number. */
  lemma {:induction false} ValueOfDecimal(n: nat)
    ensures Value(ToDecimal(n)) == n
    decreases n
  {
    if n >= 10 {
      ValueOfDecimal(n / 10);
      ValueSnoc(ToDecimal(n / 10), DigitChar(n % 10));
    }
  }

  /** The last `k` digits of the decimal notation of `n` denote `n` modulo `10^k`. */
  lemma {:induction false} ValueOfLastDigits(n: nat, k: nat)
    requires k <= |ToDecimal(n)|
    ensures AllDigits(Last(ToDecimal(n), k))
    ensures Value(Last(ToDecimal(n), k)) == n % Pow10(k)
    decreases n
  {
    var s := ToDecimal(n);
    if k == 0 {
      assert Last(s, k) == [];
    } else if n < 10 {
      assert Last(s, k) == s;
      ValueSnoc([], s[0]);
      assert s == [] + [s[0]];
    } else {
      var t := ToDecimal(n / 10);
      var c := DigitChar(n % 10);
      assert s == t + [c];
      LastSnoc(t, c, k);
      ValueOfLastDigits(n / 10, k - 1);
      ValueSnoc(Last(t, k - 1), c);
      ModShift(n, Pow10(k - 1));
    }
  }

  lemma LastSnoc(t: string, c: char, k: nat)
    requires 1 <= k <= |t| + 1
    ensures Last(t + [c], k) == Last(t, k - 1) + [c]
  {
  }

  /** Decimal notation grows with the number: every `n >= 10^k` takes more than `k` digits. */
  lemma {:induction false} DecimalLengthBelow(n: nat, k: nat)
    requires n >= Pow10(k)
    ensures |ToDecimal(n)| > k
    decreases k
  {
    if k > 0 {
      assert n / 10 >= Pow10(k - 1);
      DecimalLengthBelow(n / 10, k - 1);
    }
  }

  /** Two digit strings of the same length that denote the same number are equal. */
  lemma {:induction false} ValueInjective(a: string, b: string)
    requires |a| == |b| && AllDigits(a) && AllDigits(b)
    requires Value(a) == Value(b)
    ensures a == b
    decreases |a|
  {
    if |a| > 0 {
      var n := |a| - 1;
      DivModUnique(Value(a), 10, Value(a[..n]), DigitValue(a[n]));
      DivModUnique(Value(b), 10, Value(b[..n]), DigitValue(b[n]));
      ValueInjective(a[..n], b[..n]);
      assert a == a[..n] + [a[n]];
      assert b == b[..n] + [b[n]];
    }
  }
}
