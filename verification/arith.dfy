/** Integer facts about Euclidean division and powers of two that the index tables rely on. */
module Arith {

  /** `2 ** n` for a natural exponent. */
  function Pow2(n: nat): (r: nat)
    ensures r >= 1
  {
    if n == 0 then 1 else 2 * Pow2(n - 1)
  }

  lemma {:induction false} Pow2Add(a: nat, b: nat)
    ensures Pow2(a + b) == Pow2(a) * Pow2(b)
  {
    if a > 0 {
      Pow2Add(a - 1, b);
      assert Pow2(a + b) == 2 * Pow2(a - 1 + b);
    }
  }

  lemma {:induction false} Pow2Monotone(a: nat, b: nat)
    requires a <= b
    ensures Pow2(a) <= Pow2(b)
  {
    if a < b {
      Pow2Monotone(a, b - 1);
    }
  }

  lemma MulAtLeast(d: int, a: int)
    requires d > 0 && a >= 1
    ensures d * a >= d
  {
    if a > 1 {
      MulAtLeast(d, a - 1);
      assert d * a == d * (a - 1) + d;
    }
  }

  /** Quotient and remainder are the unique pair with x == d * q + r and 0 <= r < d. */
  lemma DivMod(x: int, d: int, q: int, r: int)
    requires d > 0 && 0 <= r < d && x == d * q + r
    ensures x / d == q && x % d == r
  {
    var q', r' := x / d, x % d;
    assert x == d * q' + r' && 0 <= r' < d;
    if q' > q {
      MulAtLeast(d, q' - q);
    } else if q' < q {
      MulAtLeast(d, q - q');
    }
  }

  /** Dividing by a and then by b is dividing by a * b. */
  lemma DivDiv(x: nat, a: nat, b: nat)
    requires a > 0 && b > 0
    ensures x / a / b == x / (a * b)
  {
    var q1, r1 := x / a, x % a;
    var q2, r2 := q1 / b, q1 % b;
    assert x == a * (b * q2 + r2) + r1;
    assert x == (a * b) * q2 + (a * r2 + r1);
    MulAtLeast(a, b - r2);
    assert a * (b - r2) == a * b - a * r2;
    DivMod(x, a * b, q2, a * r2 + r1);
  }

  /** x + d * c shifts the quotient by c and keeps the remainder. */
  lemma DivShift(x: nat, d: nat, c: nat)
    requires d > 0
    ensures (x + d * c) / d == x / d + c && (x + d * c) % d == x % d
  {
    DivMod(x + d * c, d, x / d + c, x % d);
  }

  /**
   * The quotient of two naturals is a natural.  Stated apart because the
   * solver does not find it unaided where a `nat` result needs it.
   */
  lemma DivNonNegative(x: nat, d: nat)
    requires d > 0
    ensures x / d >= 0
  {
  }

  /** A value below d * n has its quotient by d below n. */
  lemma DivBelow(x: nat, d: nat, n: nat)
    requires d > 0 && x < d * n
    ensures x / d < n
  {
  }

  /**
   * The offset of row b in a row-major table whose rows have the given width:
   * `np.arange(0, width * rows, width)[b]`.
   */
  function RowStart(b: nat, width: nat): nat {
    if b == 0 then 0 else RowStart(b - 1, width) + width
  }

  lemma {:induction false} RowStartIsProduct(b: nat, width: nat)
    ensures RowStart(b, width) == b * width
  {
    if b > 0 {
      RowStartIsProduct(b - 1, width);
    }
  }

  /** Column c < width of row b < rows lies before the end of the table. */
  lemma {:induction false} RowStartBelow(b: nat, c: nat, width: nat, rows: nat)
    requires b < rows && c < width
    ensures RowStart(b, width) + c < RowStart(rows, width)
    ensures RowStart(b + 1, width) <= RowStart(rows, width)
  {
    if b + 1 < rows {
      RowStartBelow(b, c, width, rows - 1);
    }
  }

  /** Row starts grow with the row number. */
  lemma {:induction false} RowStartMonotone(a: nat, b: nat, width: nat)
    requires a <= b
    ensures RowStart(a, width) <= RowStart(b, width)
  {
    if a < b {
      RowStartMonotone(a, b - 1, width);
    }
  }
}
