/** Integer facts the patch and window index maps rest on. */
module Arith {

  /** A quotient and a remainder below the divisor are recovered exactly by / and %. */
  lemma DivModOf(q: int, r: int, b: int)
    requires b > 0 && 0 <= r < b
    ensures (q * b + r) / b == q && (q * b + r) % b == r
  {
    var n := q * b + r;
    var d, m := n / b, n % b;
    assert d * b + m == n;
    Distribute(d, q, b);
    assert (d - q) * b == r - m;
    if d > q {
      AtLeastOnce(d - q, b);
    } else if d < q {
      AtLeastOnce(q - d, b);
    }
  }

  lemma Distribute(d: int, q: int, b: int)
    ensures (d - q) * b == d * b - q * b
    ensures (d + q) * b == d * b + q * b
  {
  }

  lemma AtLeastOnce(x: int, b: int)
    requires x >= 1 && b > 0
    ensures x * b >= b
  {
  }

  /** One past j completes a block of b exactly when b divides j + 1. */
  lemma NextDiv(j: int, b: int)
    requires j >= 0 && b > 0
    ensures (j + 1) / b == j / b + (if (j + 1) % b == 0 then 1 else 0)
  {
    var q, r := j / b, j % b;
    if r + 1 < b {
      assert j + 1 == q * b + (r + 1);
      DivModOf(q, r + 1, b);
    } else {
      Distribute(q, 1, b);
      assert j + 1 == (q + 1) * b + 0;
      DivModOf(q + 1, 0, b);
    }
  }

  /** Stepping back from x, when b does not divide x, lowers the remainder by one. */
  lemma PrevMod(x: int, b: int)
    requires b > 0 && x % b != 0
    ensures (x - 1) % b == x % b - 1
  {
    var q, r := x / b, x % b;
    assert x - 1 == q * b + (r - 1);
    DivModOf(q, r - 1, b);
  }

  /** int(n ** .5) on integers: the largest r with r * r <= n. */
  function Isqrt(n: nat): (r: nat)
    ensures r * r <= n < (r + 1) * (r + 1)
  {
    IsqrtFrom(n, 0)
  }

  function IsqrtFrom(n: nat, r: nat): (s: nat)
    requires r * r <= n
    ensures s * s <= n < (s + 1) * (s + 1)
    decreases n - r
  {
    if (r + 1) * (r + 1) > n then r
    else
      assert r < r + 1 <= (r + 1) * (r + 1);
      IsqrtFrom(n, r + 1)
  }

  /** The square root of a perfect square is its side. */
  lemma IsqrtOfSquare(h: nat)
    ensures Isqrt(h * h) == h
  {
    var r := Isqrt(h * h);
    SquareMono(r + 1, h);
    SquareMono(h + 1, r);
  }

  /** int(sqrt) is monotone: a smaller count never has a larger root. */
  lemma IsqrtMono(a: nat, b: nat)
    requires a <= b
    ensures Isqrt(a) <= Isqrt(b)
  {
    SquareMono(Isqrt(b) + 1, Isqrt(a));
  }

  lemma SquareMono(a: nat, b: nat)
    ensures a <= b ==> a * a <= b * b
  {
    if a <= b {
      assert a * a <= a * b <= b * b;
    }
  }

  /** Block i of n blocks of w ends within the n * w elements. */
  lemma BlockEnd(i: nat, w: nat, n: nat)
    requires i < n
    ensures i * w + w <= n * w
  {
    assert i * w + w == (i + 1) * w;
    assert (i + 1) * w <= n * w;
  }
}
