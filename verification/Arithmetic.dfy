/** Bytes, whole multiples, rounding and powers of two. */
module Arithmetic {

  type byte = x: int | 0 <= x < 256

  const TWO_64: nat := 0x1_0000_0000_0000_0000
  const MB: nat := 0x10_0000

  /** A number of bytes that makes whole blocks. */
  predicate Whole(n: int, b: nat)
    requires b > 0
  {
    n % b == 0
  }

  lemma ModUnique(n: int, b: nat, q: int, r: int)
    requires b > 0 && n == b * q + r && 0 <= r < b
    ensures n % b == r && n / b == q
  {
    var d := n / b - q;
    assert b * d == r - n % b;
    assert d >= 1 ==> b * d >= b;
    assert d <= -1 ==> b * -d >= b;
  }

  lemma WholeSum(a: int, c: int, b: nat)
    requires b > 0 && Whole(a, b)
    ensures Whole(a + c, b) <==> Whole(c, b)
    ensures Whole(0, b) && Whole(b, b)
  {
    assert a == b * (a / b);
    assert c == b * (c / b) + c % b;
    ModUnique(a + c, b, a / b + c / b, c % b);
    ModUnique(b, b, 1, 0);
  }

  lemma WholeFirst(n: nat, b: nat)
    requires b > 0 && n > 0 && Whole(n, b)
    ensures n >= b && Whole(n - b, b)
  {
    if n >= b { WholeSum(b, n - b, b); }
  }

  lemma WholeSize(n: nat, b: nat)
    requires b > 0
    ensures n / b * b <= n < n / b * b + b && Whole(n / b * b, b)
  {
    ModUnique(n / b * b, b, n / b, 0);
  }

  lemma Distribute(a: int, b: int, u: int, v: int)
    ensures a * (b * u + v) == (a * b) * u + a * v
  {
    assert a * (b * u) == (a * b) * u;
  }

  lemma WholeOfWhole(n: nat, b: nat, c: nat)
    requires b > 0 && c > 0 && Whole(n, b) && Whole(b, c)
    ensures Whole(n, c)
  {
    assert n == b * (n / b) && b == c * (b / c);
    var q, r := n / b, b / c;
    assert n == (c * r) * q == c * (r * q);
    ModUnique(n, c, r * q, 0);
  }

  /** `n` rounded down to whole sectors. */
  function RoundDown(n: nat, sector: nat): (r: nat)
    requires sector > 0
  {
    n / sector * sector
  }

  lemma RoundDownIs(n: nat, sector: nat)
    requires sector > 0
    ensures RoundDown(n, sector) <= n < RoundDown(n, sector) + sector && Whole(RoundDown(n, sector), sector)
  {
    WholeSize(n, sector);
  }

  /** `n` rounded up to whole sectors. */
  function RoundUp(n: nat, sector: nat): (r: nat)
    requires sector > 0
  {
    (n + sector - 1) / sector * sector
  }

  lemma RoundUpIs(n: nat, sector: nat)
    requires sector > 0
    ensures n <= RoundUp(n, sector) < n + sector && Whole(RoundUp(n, sector), sector)
    ensures Whole(n, sector) ==> RoundUp(n, sector) == n
  {
    WholeSize(n + sector - 1, sector);
    if Whole(n, sector) {
      assert n == sector * (n / sector);
      ModUnique(n + sector - 1, sector, n / sector, sector - 1);
    }
  }

  /** Two whole numbers of sectors less than a sector apart are in order. */
  lemma WholeGap(r: nat, w: nat, sector: nat)
    requires sector > 0 && Whole(r, sector) && Whole(w, sector) && r < w + sector
    ensures r <= w
  {
    if r > w {
      WholeSum(w, r - w, sector);
      ModUnique(r - w, sector, 0, r - w);
    }
  }

  lemma RoundUpLeast(n: nat, sector: nat, w: nat)
    requires sector > 0 && Whole(w, sector) && n <= w
    ensures RoundUp(n, sector) <= w
  {
    RoundUpIs(n, sector);
    WholeGap(RoundUp(n, sector), w, sector);
  }

  lemma {:induction false} WholeTimes(a: nat, k: nat, b: nat)
    requires b > 0 && Whole(a, b)
    ensures Whole(a * k, b)
  {
    assert a == b * (a / b);
    assert (b * (a / b)) * k == b * ((a / b) * k);
    ModUnique(a * k, b, (a / b) * k, 0);
  }

  lemma ProductGrows(b: nat, d: nat, s: nat)
    requires d > 0 && s > 0
    ensures (b + d) * s == b * s + d * s > b * s
  {
    assert d * s > 0;
  }

  lemma OrderedProduct(a: nat, b: nat, s: nat)
    requires s > 0 && a * s <= b * s
    ensures a <= b
  {
    if a > b { ProductGrows(b, a - b, s); }
  }

  lemma OrderedTimes(a: nat, b: nat, s: nat)
    requires a <= b
    ensures a * s <= b * s
  {
    assert (b - a) * s >= 0;
    assert b * s == a * s + (b - a) * s;
  }

  lemma SameProduct(a: nat, b: nat, s: nat)
    requires s > 0 && a * s == b * s
    ensures a == b
  {
    OrderedProduct(a, b, s);
    OrderedProduct(b, a, s);
  }

  function Pow2(n: nat): (r: nat)
    ensures r > 0
  {
    if n == 0 then 1 else 2 * Pow2(n - 1)
  }

  lemma HalfBoth(m: nat, s: nat, q: nat, t: nat)
    requires 2 * m == s * q && s == 2 * t
    ensures m == t * q
  {
    assert (2 * t) * q == 2 * (t * q);
  }

  lemma OddDivides(s: nat, q: nat, m: nat)
    requires s > 0 && s % 2 == 1 && 2 * m == s * q
    ensures Whole(m, s)
  {
    var h := s / 2;
    assert s == 2 * h + 1;
    assert (2 * h + 1) * q == 2 * (h * q) + q;
    var r := m - h * q;
    assert q == 2 * r;
    assert 2 * m == s * (2 * r) == 2 * (s * r);
    ModUnique(m, s, r, 0);
  }

  /** A divisor of a power of two is a power of two. */
  lemma {:induction false} DivisorOfPow2(s: nat, k: nat) returns (j: nat)
    requires s > 0 && Whole(Pow2(k), s)
    ensures j <= k && s == Pow2(j)
  {
    if k == 0 {
      j := 0;
      assert s <= 1;
    } else if s == 1 {
      j := 0;
    } else {
      var m, q := Pow2(k - 1), Pow2(k) / s;
      assert 2 * m == s * q;
      if s % 2 == 0 {
        var t := s / 2;
        assert s == 2 * t && m == t * q by { HalfBoth(m, s, q, t); }
        ModUnique(m, t, q, 0);
        j := DivisorOfPow2(t, k - 1);
        j := j + 1;
      } else {
        OddDivides(s, q, m);
        j := DivisorOfPow2(s, k - 1);
      }
    }
  }

  lemma {:induction false} Pow2Divides(i: nat, j: nat)
    requires i <= j
    ensures Whole(Pow2(j), Pow2(i))
    decreases j - i
  {
    if i == j {
      ModUnique(Pow2(j), Pow2(i), 1, 0);
    } else {
      Pow2Divides(i, j - 1);
      WholeSum(Pow2(j - 1), Pow2(j - 1), Pow2(i));
    }
  }

  lemma PowersHere()
    ensures Pow2(11) == 2048 && Pow2(15) == 32768 && Pow2(20) == 0x10_0000
  {
  }
}
