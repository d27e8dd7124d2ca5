// Integer multiplication and division facts the solver needs in small steps.
module Arithmetic {

  lemma MulSign(a: int, b: int)
    ensures a >= 0 && b >= 0 ==> a * b >= 0
    ensures a >= 1 && b >= 1 ==> a * b >= 1
  {
  }

  lemma MulMono(a: int, b: int, m: int)
    requires a <= b && m >= 0
    ensures a * m <= b * m
  {
    MulSign(b - a, m);
    assert (b - a) * m == b * m - a * m;
  }

  lemma MulGap(a: int, b: int, m: int)
    requires m >= 0
    ensures a < b ==> a * m + m <= b * m
  {
    if a < b {
      MulMono(a + 1, b, m);
      assert (a + 1) * m == a * m + m;
    }
  }

  lemma MulCancel(a: int, b: int, m: int)
    ensures m >= 0 && a * m < b * m ==> a < b
  {
    if m >= 0 && b <= a {
      MulMono(b, a, m);
    }
  }

  // A quotient is found by exhibiting it.
  lemma DivMod(q: int, r: int, m: int)
    requires 0 <= r < m
    ensures (q * m + r) / m == q && (q * m + r) % m == r
  {
    var n := q * m + r;
    var d := n / m;
    assert n == d * m + n % m;
    MulGap(d, q, m);
    MulGap(q, d, m);
  }

  lemma DivDiv(n: int, a: int, b: int)
    requires a > 0 && b > 0
    ensures a * b > 0 && n / (a * b) == (n / a) / b
  {
    var p := n / a;
    var q := p / b;
    var e := p % b;
    assert n == p * a + n % a && p == q * b + e;
    assert p * a == q * b * a + e * a;
    assert q * b * a == q * (a * b);
    MulSign(a, b);
    MulSign(e, a);
    MulMono(e, b - 1, a);
    assert (b - 1) * a == a * b - a;
    DivMod(q, e * a + n % a, a * b);
  }
}
