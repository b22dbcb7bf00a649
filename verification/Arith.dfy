/** Extremes, and facts about division by a symbolic positive divisor. */
module Arith {

  function Min(a: int, b: int): int {
    if a <= b then a else b
  }

  function Max(a: real, b: real): real {
    if a < b then b else a
  }

  lemma DivBounds(x: int, d: int)
    requires d > 0
    ensures x / d * d <= x < (x / d + 1) * d
    ensures x >= 0 ==> x / d >= 0
  {
    assert x == x / d * d + x % d;
    if x / d < 0 {
      MulMonotone(x / d + 1, 0, d);
    }
  }

  lemma DivUnique(x: int, d: int, q: int)
    requires d > 0
    requires q * d <= x < (q + 1) * d
    ensures x / d == q
  {
    DivBounds(x, d);
    if x / d < q {
      MulMonotone(x / d + 1, q, d);
    } else if x / d > q {
      MulMonotone(q + 1, x / d, d);
    }
  }

  lemma MulMonotone(a: int, b: int, d: int)
    requires a <= b && d >= 0
    ensures a * d <= b * d
  {
    assert b * d - a * d == (b - a) * d;
  }

  /** Every finite set of numbers has one above it. */
  lemma {:induction false} AboveAll(s: set<nat>) returns (n: nat)
    ensures forall x :: x in s ==> x < n
    decreases s
  {
    n := 0;
    if s != {} {
      var x :| x in s;
      var m := AboveAll(s - {x});
      assert forall y :: y in s ==> y == x || y in s - {x};
      n := if m <= x then x + 1 else m;
    }
  }

  lemma MultipleOf(q: nat, d: nat)
    requires d > 0
    ensures q * d >= q && (q * d) % d == 0
  {
    MulMonotone(1, d, q);
    DivUnique(q * d, d, q);
  }

  /** Row-major coordinates are unique. */
  lemma FlatUnique(a: nat, i: nat, b: nat, j: nat, w: nat)
    requires i < w && j < w && a * w + i == b * w + j
    ensures a == b && i == j
  {
    DivUnique(a * w + i, w, a);
    DivUnique(b * w + j, w, b);
  }
}
