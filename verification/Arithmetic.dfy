/** Division facts that the solver does not find alone. */
module Arithmetic {
  lemma MulMono(a: int, b: int, c: nat)
    requires a <= b
    ensures a * c <= b * c
  {
    assert (b - a) * c >= 0;
  }

  lemma DivFloor(n: nat, b: nat)
    requires b > 0
    ensures n == (n / b) * b + n % b && 0 <= n % b < b
  {
  }

  /** Quotient and remainder are the only way to split a number into blocks. */
  lemma DivUnique(n: nat, b: nat, q: nat, r: nat)
    requires r < b && n == q * b + r
    ensures n / b == q && n % b == r
  {
    DivFloor(n, b);
    if n / b < q {
      MulMono(n / b + 1, q, b);
    } else if q < n / b {
      MulMono(q + 1, n / b, b);
    }
  }

  lemma DivBelow(n: nat, b: nat, q: nat)
    requires b > 0
    ensures n < q * b <==> n / b < q
  {
    DivFloor(n, b);
    if n / b < q {
      MulMono(n / b + 1, q, b);
    } else {
      MulMono(q, n / b, b);
    }
  }

  function CeilDiv(a: nat, b: nat): nat
    requires b > 0
  {
    (a + b - 1) / b
  }

  // Quotient and remainder by repeated subtraction, for proofs that must stay linear.

  function Quot(n: nat, b: nat): nat
    requires b > 0
  {
    if n < b then 0 else 1 + Quot(n - b, b)
  }

  function Rem(n: nat, b: nat): (r: nat)
    requires b > 0
    ensures r < b
  {
    if n < b then n else Rem(n - b, b)
  }

  lemma {:induction false} QuotRem(n: nat, b: nat)
    requires b > 0
    ensures Quot(n, b) == n / b && Rem(n, b) == n % b && n == Quot(n, b) * b + Rem(n, b)
    decreases n
  {
    if n < b {
      DivUnique(n, b, 0, n);
    } else {
      QuotRem(n - b, b);
      var q, r := Quot(n - b, b), Rem(n - b, b);
      assert (1 + q) * b == b + q * b;
      DivUnique(n, b, 1 + q, r);
    }
  }

  /** CeilDiv without a division: one block more than the block of the last element. */
  function BlocksFor(a: nat, b: nat): nat
    requires b > 0
  {
    if a == 0 then 0 else 1 + Quot(a - 1, b)
  }

  lemma BlocksForIsCeil(a: nat, b: nat)
    requires b > 0
    ensures BlocksFor(a, b) == CeilDiv(a, b)
  {
    if a == 0 {
      DivUnique(b - 1, b, 0, b - 1);
    } else {
      QuotRem(a - 1, b);
      var q, r := Quot(a - 1, b), Rem(a - 1, b);
      assert (q + 1) * b == q * b + b;
      DivUnique(a + b - 1, b, q + 1, r);
    }
  }

  lemma {:induction false} QuotMono(i: nat, j: nat, b: nat)
    requires b > 0 && i <= j
    ensures Quot(i, b) <= Quot(j, b)
    decreases i
  {
    if b <= i { QuotMono(i - b, j - b, b); }
  }
}

/** The same for real numbers. */
module Reals {
  lemma Grows(y: real, d: real)
    requires d > 1.0 && y * d > 0.0
    ensures y < y * d
  {
    assert y * (d - 1.0) > 0.0;
  }

  lemma Shrinks(x: real, d: real)
    requires d > 1.0 && x > 0.0
    ensures x / d < x
  {
    var y := x / d;
    assert y * d == x;
    Grows(y, d);
  }

  lemma Sinks(x: real, d: real)
    requires d > 1.0 && x < 0.0
    ensures x * d < x
  {
    assert x * (d - 1.0) < 0.0;
  }

  /** The repetition penalty: what is negative is multiplied, anything else divided. */
  function Penalise(x: real, d: real): real
    requires d > 0.0
  {
    if x < 0.0 then x * d else x / d
  }

  /** A penalty of one changes nothing, and one above it never gains. */
  lemma Penalised(x: real, d: real)
    requires d > 0.0
    ensures x >= 0.0 ==> Penalise(x, d) * d == x
    ensures x < 0.0 ==> Penalise(x, d) == x * d
    ensures d == 1.0 ==> Penalise(x, d) == x
    ensures d > 1.0 ==> Penalise(x, d) <= x && (x != 0.0 ==> Penalise(x, d) < x)
  {
    if d > 1.0 && x > 0.0 { Shrinks(x, d); }
    if d > 1.0 && x < 0.0 { Sinks(x, d); }
    if x == 0.0 { OneQuotient(Penalise(x, d), 0.0, d); }
  }

  lemma QuotientOrder(a: real, b: real, d: real)
    requires d > 0.0
    ensures a / d < b / d <==> a < b
  {
    var x, y := a / d, b / d;
    assert x * d == a && y * d == b;
    if x < y { assert (y - x) * d > 0.0; } else { assert (x - y) * d >= 0.0; }
  }

  lemma OneQuotient(a: real, b: real, d: real)
    requires d > 0.0 && a * d == b * d
    ensures a == b
  {
    assert (a - b) * d == 0.0;
  }
}
