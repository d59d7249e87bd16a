/** Division and remainder facts used by the range arithmetic. */
module Arithmetic {
  lemma MulOrder(a: nat, b: nat, d: nat)
    requires a <= b
    ensures a * d <= b * d
  {
  }

  lemma DivDef(x: nat, d: nat)
    requires d > 0
    ensures x == (x / d) * d + x % d
  {
  }

  lemma DivUnique(x: nat, d: nat, q: nat)
    requires d > 0 && q * d <= x < q * d + d
    ensures x / d == q && x % d == x - q * d
  {
    DivDef(x, d);
    if x / d < q {
      MulOrder(x / d + 1, q, d);
    } else if x / d > q {
      MulOrder(q + 1, x / d, d);
    }
  }

  lemma DivOrder(a: nat, b: nat, d: nat)
    requires d > 0 && a <= b
    ensures a / d <= b / d
  {
    DivDef(a, d);
    DivDef(b, d);
    if b / d < a / d {
      MulOrder(b / d + 1, a / d, d);
    }
  }

  lemma DivStep(x: nat, d: nat)
    requires d > 0
    ensures (x + d) / d == x / d + 1 && (x + d) % d == x % d
  {
    DivDef(x, d);
    assert (x / d + 1) * d == (x / d) * d + d;
    DivUnique(x + d, d, x / d + 1);
  }

  lemma MulDiv(x: nat, d: nat)
    requires d > 0
    ensures x * d / d == x
  {
    DivUnique(x * d, d, x);
  }

  lemma SmallMod(x: nat, d: nat)
    requires x < d
    ensures x / d == 0 && x % d == x
  {
  }
}
