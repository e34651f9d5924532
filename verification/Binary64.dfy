// The whole numbers of IEEE 754 binary64, and the conversion of an integer to it: to the
// nearest, ties to even. Magnitudes are far below the largest finite double.
module Binary64 {
  const MANTISSA: nat := 0x20_0000_0000_0000

  /** The distance between neighbouring doubles at n. */
  function Unit(n: nat): (u: nat)
    ensures u > 0
  {
    if n < MANTISSA then 1 else 2 * Unit(n / 2)
  }

  predicate Representable(n: nat) {
    n % Unit(n) == 0
  }

  function Round(n: nat): nat {
    var u := Unit(n);
    var q, r := n / u, n % u;
    if 2 * r < u || (2 * r == u && q % 2 == 0) then q * u else (q + 1) * u
  }

  // ---- Arithmetic ----

  lemma Halves(m: nat, v: nat)
    requires v > 0
    ensures (m / 2) / v == m / (2 * v)
  {
    var q, r := m / (2 * v), m % (2 * v);
    assert m == 2 * v * q + r;
    var h := r / 2;
    assert m / 2 == v * q + h by {
      assert m == 2 * (v * q) + r;
    }
    assert h < v;
    DivideSum(q, v, h);
  }

  lemma OnlyMultiple(v: int, d: int)
    requires v > 0 && -v < v * d < v
    ensures d == 0
  {
    if d >= 1 {
      assert v * d == v * (d - 1) + v;
      NotNegative(v, d - 1);
    } else if d <= -1 {
      assert v * d == -(v * (-d - 1)) - v;
      NotNegative(v, -d - 1);
    }
  }

  lemma NotNegative(a: int, b: int)
    requires a >= 0 && b >= 0
    ensures a * b >= 0
  {
  }

  lemma DivideSum(q: nat, v: nat, h: nat)
    requires h < v
    ensures (v * q + h) / v == q && (v * q + h) % v == h
  {
    var m := v * q + h;
    assert m == v * (m / v) + m % v;
    assert v * (q - m / v) == v * q - v * (m / v);
    OnlyMultiple(v, q - m / v);
  }

  // n between two neighbouring multiples of its unit.
  lemma Between(n: nat, u: nat)
    requires u > 0
    ensures n == (n / u) * u + n % u && n % u < u && (n / u + 1) * u == (n / u) * u + u
  {
  }

  lemma {:induction false} QuotientBounds(n: nat)
    requires n >= MANTISSA
    ensures MANTISSA / 2 <= n / Unit(n) < MANTISSA && Unit(n) % 2 == 0
  {
    var v := Unit(n / 2);
    Halves(n, v);
    if n / 2 >= MANTISSA {
      QuotientBounds(n / 2);
    } else {
      assert v == 1;
    }
  }

  /** Numbers in one binade have one unit. */
  lemma {:induction false} SameUnit(m: nat, n: nat)
    requires MANTISSA <= n && m / Unit(n) == n / Unit(n)
    ensures Unit(m) == Unit(n)
  {
    var v := Unit(n / 2);
    Halves(n, v);
    Halves(m, v);
    QuotientBounds(n);
    if n / 2 >= MANTISSA {
      SameUnit(m / 2, n / 2);
      QuotientBounds(n / 2);
      UnitAtLeast(m / 2, n / 2);
    } else {
      assert v == 1 && m / 2 == n / 2;
    }
  }

  lemma UnitAtLeast(m: nat, n: nat)
    requires n >= MANTISSA && Unit(m) == Unit(n)
    ensures m >= MANTISSA
  {
    QuotientBounds(n);
  }

  // ---- What rounding does ----

  /** Exactly the representable numbers are kept. */
  lemma RoundKeepsRepresentable(n: nat)
    ensures Round(n) == n <==> Representable(n)
  {
    Between(n, Unit(n));
  }

  lemma SmallIsExact(n: nat)
    requires n <= MANTISSA
    ensures Representable(n) && Round(n) == n
  {
    if n < MANTISSA {
      assert Unit(n) == 1;
    } else {
      assert Unit(n / 2) == 1;
    }
    RoundKeepsRepresentable(n);
  }

  // Where Round goes, with the products named: `low` is the multiple of the unit below n.
  lemma RoundGoes(n: nat) returns (u: nat, low: nat)
    ensures u == Unit(n) && low == (n / u) * u && low <= n < low + u
    ensures Round(n) == low || Round(n) == low + u
    ensures Round(n) == low ==> 2 * (n - low) <= u
    ensures Round(n) == low + u ==> 2 * (n - low) >= u
  {
    u := Unit(n);
    low := (n / u) * u;
    Between(n, u);
  }

  /** Rounding moves a number by at most half its unit. */
  lemma RoundingError(n: nat)
    ensures 2 * (n - Round(n)) <= Unit(n) && 2 * (Round(n) - n) <= Unit(n)
  {
    var u, low := RoundGoes(n);
  }

  lemma OffTheGrid(m: nat, n: nat)
    requires m / Unit(n) == n / Unit(n) && m % Unit(n) != 0
    ensures !Representable(m)
  {
    if n >= MANTISSA {
      SameUnit(m, n);
    }
  }

  lemma JustAbove(m: nat, q: nat, u: nat)
    requires q * u < m < q * u + u
    ensures m / u == q && m % u != 0
  {
    assert q * u == u * q;
    DivideSum(q, u, m - q * u);
  }

  /** No representable number lies strictly between a number's two neighbours. */
  lemma Neighbours(m: nat, n: nat, u: nat, low: nat)
    requires Representable(m) && u == Unit(n) && low == (n / u) * u
    ensures m <= low || m >= low + u
  {
    if low < m < low + u {
      JustAbove(m, n / u, u);
      OffTheGrid(m, n);
    }
  }

  /** Rounding goes to a nearest representable number. */
  lemma RoundIsNearest(n: nat, m: nat)
    requires Representable(m)
    ensures var d, e := if Round(n) >= n then Round(n) - n else n - Round(n), if m >= n then m - n else n - m; d <= e
  {
    var u, low := RoundGoes(n);
    Neighbours(m, n, u, low);
  }

  // ---- The result is a double ----

  function Pow2(j: nat): (p: nat)
    ensures p > 0
  {
    if j == 0 then 1 else 2 * Pow2(j - 1)
  }

  lemma {:induction false} UnitIsAPower(n: nat) returns (j: nat)
    ensures Unit(n) == Pow2(j)
  {
    if n < MANTISSA {
      j := 0;
    } else {
      j := UnitIsAPower(n / 2);
      j := j + 1;
    }
  }

  lemma HalveProduct(q: nat, p: nat)
    ensures q * (2 * p) / 2 == q * p
  {
    assert q * (2 * p) == 2 * (q * p);
  }

  lemma ProductAtLeast(q: nat, p: nat)
    requires p >= 2 && q >= MANTISSA / 2
    ensures q * p >= MANTISSA
  {
    assert q * p == q * 2 + q * (p - 2);
    NotNegative(q, p - 2);
  }

  /** A mantissa in range, scaled by a power of two, has that power as its unit. */
  lemma {:induction false} UnitOfScaled(q: nat, j: nat)
    requires MANTISSA / 2 <= q < MANTISSA
    ensures Unit(q * Pow2(j)) == Pow2(j)
  {
    if j > 0 {
      UnitOfScaled(q, j - 1);
      HalveProduct(q, Pow2(j - 1));
      ProductAtLeast(q, Pow2(j));
    }
  }

  lemma ScaledIsRepresentable(q: nat, j: nat)
    requires MANTISSA / 2 <= q < MANTISSA
    ensures Representable(q * Pow2(j))
  {
    UnitOfScaled(q, j);
    DivideSum(q, Pow2(j), 0);
  }

  lemma RoundIsRepresentable(n: nat)
    ensures Representable(Round(n))
  {
    if n < MANTISSA {
      SmallIsExact(n);
    } else {
      var j := UnitIsAPower(n);
      var q := n / Unit(n);
      QuotientBounds(n);
      ScaledIsRepresentable(q, j);
      if q + 1 < MANTISSA {
        ScaledIsRepresentable(q + 1, j);
      } else {
        ScaledIsRepresentable(MANTISSA / 2, j + 1);
        assert (q + 1) * Pow2(j) == MANTISSA / 2 * Pow2(j + 1);
      }
    }
  }

  /** Half way between two doubles, the one with the even mantissa is taken. */
  lemma TiesToEven(n: nat)
    requires 2 * (n % Unit(n)) == Unit(n)
    ensures Round(n) % (2 * Unit(n)) == 0
  {
    var u, q := Unit(n), n / Unit(n);
    var even := if q % 2 == 0 then q else q + 1;
    assert even * u == (2 * u) * (even / 2) by {
      assert even == 2 * (even / 2);
    }
    DivideSum(even / 2, 2 * u, 0);
  }
}
