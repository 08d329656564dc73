/** The few facts about products, quotients and remainders that the solver needs spelled out. */
module Arithmetic {
  type byte = b: nat | b < 256

  function Pow(b: nat, e: nat): nat {
    if e == 0 then 1 else b * Pow(b, e - 1)
  }

  lemma {:induction false} PowMonotone(b: nat, e: nat, f: nat)
    requires b >= 1 && e <= f
    ensures 1 <= Pow(b, e) <= Pow(b, f)
    decreases f
  {
    if f > 0 {
      PowMonotone(b, if e < f then e else f - 1, f - 1);
      MulAtLeast(b, Pow(b, f - 1));
      if e == f {
        PowMonotone(b, f - 1, f - 1);
      }
    }
  }

  lemma {:induction false} PowAdd(b: nat, d: nat, e: nat)
    ensures Pow(b, d + e) == Pow(b, d) * Pow(b, e)
    decreases d
  {
    if d > 0 {
      PowAdd(b, d - 1, e);
      MulAssociates(b, Pow(b, d - 1), Pow(b, e));
    }
  }

  lemma MulAtLeast(k: int, c: nat)
    requires k >= 1
    ensures k * c >= c
  {
    assert k * c == (k - 1) * c + c;
  }

  lemma MulAssociates(a: int, b: int, c: int)
    ensures a * (b * c) == (a * b) * c
  {
  }

  lemma MulMonotone(a: nat, b: nat, c: nat)
    requires a <= b
    ensures a * c <= b * c
  {
    assert b * c == a * c + (b - a) * c;
  }

  /** Quotient and remainder are unique. */
  lemma DivModUnique(a: nat, q: nat, c: nat, r: nat)
    requires c > 0 && r < c && a == q * c + r
    ensures a / c == q && a % c == r
  {
    var q', r' := a / c, a % c;
    assert (q' - q) * c == r - r';
    assert (q - q') * c == r' - r;
    if q' > q {
      MulAtLeast(q' - q, c);
    } else if q' < q {
      MulAtLeast(q - q', c);
    }
  }

  lemma DivAtLeast(a: nat, q: nat, c: nat)
    requires c > 0 && q * c <= a
    ensures q <= a / c
  {
    var q' := a / c;
    assert a == q' * c + a % c;
    if q > q' {
      assert (q - q') * c <= a % c;
      MulAtLeast(q - q', c);
    }
  }

  /** Different multiples of `i` are at least `i` apart. */
  lemma MultiplesApart(j: nat, k: nat, i: nat)
    requires i > 0 && j < k && j % i == 0 && k % i == 0
    ensures k - j >= i
  {
    var a, b := j / i, k / i;
    assert j == a * i && k == b * i;
    assert k - j == (b - a) * i;
    if b > a {
      MulAtLeast(b - a, i);
    } else {
      MulMonotone(b, a, i);
    }
  }
}
