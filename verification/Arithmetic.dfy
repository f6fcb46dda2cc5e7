/** Small facts about products and quotients, kept apart from everything else. */
module Arithmetic {

  lemma ProductStep(count: nat, size: nat)
    requires count > 0
    ensures count * size == (count - 1) * size + size
    ensures (count - 1) * size >= 0
  {
  }

  lemma ProductIsMonotone(a: nat, b: nat, c: nat)
    ensures a <= b ==> a * c <= b * c
  {
  }

  lemma QuotientIsUnique(x: nat, b: nat, q: nat, r: nat)
    requires r < b && x == q * b + r
    ensures x / b == q && x % b == r
  {
    var q' := x / b;
    assert x == q' * b + x % b;
    assert (q' + 1) * b == q' * b + b;
    assert (q + 1) * b == q * b + b;
    ProductIsMonotone(q' + 1, q, b);
    ProductIsMonotone(q + 1, q', b);
  }

  lemma QuotientOfProduct(n: nat, m: nat)
    requires n > 0
    ensures n * m / n == m && n * m % n == 0
  {
    assert n * m == m * n;
    ExactQuotient(m, n);
  }

  lemma ExactQuotient(q: nat, b: nat)
    requires b > 0
    ensures q * b / b == q && (q * b) % b == 0
  {
    QuotientIsUnique(q * b, b, q, 0);
  }

  function Product(a: nat, b: nat): nat {
    a * b
  }

  lemma ProductGrows(a: nat, b: nat)
    requires a > 0
    ensures Product(a, b) == Product(a - 1, b) + b
  {
  }

  function Quotient(a: nat, b: nat): nat
    requires b > 0
  {
    a / b
  }

  lemma ProductAssociates(a: nat, b: nat, c: nat)
    ensures a * b * c == a * (b * c)
  {
  }

  lemma FirstFactorLast(a: nat, b: nat, c: nat)
    ensures a * b * c == (b * c) * a
  {
    ProductAssociates(a, b, c);
  }

  lemma FactorOut(groups: nat, perKv: nat, headDim: nat)
    ensures groups * (headDim * perKv + headDim + headDim) == groups * headDim * (perKv + 2)
  {
    ProductAssociates(groups, headDim, perKv + 2);
    assert headDim * (perKv + 2) == headDim * perKv + headDim + headDim;
  }

  lemma DivisorFactors(a: nat, b: nat)
    requires b > 0 && a % b == 0
    ensures a == b * (a / b)
    ensures a > 0 ==> a / b > 0
  {
  }

  lemma QuotientBounds(a: nat, b: nat)
    requires b > 0
    ensures Quotient(a, b) * b <= a < (Quotient(a, b) + 1) * b
  {
    assert a == Quotient(a, b) * b + a % b;
  }

  lemma QuotientBelow(a: nat, b: nat, count: nat)
    requires b > 0 && a < count * b
    ensures Quotient(a, b) < count
  {
    QuotientBounds(a, b);
    ProductIsMonotone(count, Quotient(a, b), b);
  }

  lemma SplitPosition(a: nat, b: nat, count: nat) returns (q: nat, r: nat)
    requires a < Product(count, b)
    ensures q < count && r < b && a == q * b + r
  {
    QuotientBounds(a, b);
    QuotientBelow(a, b, count);
    q := Quotient(a, b);
    r := a - q * b;
    assert (q + 1) * b == q * b + b;
  }

  /** The quotient rounded up. */
  function CeilQuotient(a: nat, b: nat): nat
    requires b > 0
  {
    Quotient(a + b - 1, b)
  }

  lemma CeilQuotientBounds(a: nat, b: nat)
    requires b > 0
    ensures a <= CeilQuotient(a, b) * b < a + b
  {
    QuotientBounds(a + b - 1, b);
    var q := CeilQuotient(a, b);
    assert (q + 1) * b == q * b + b;
  }

  lemma DropOneFactor(s: nat, n: nat)
    requires n > 0
    ensures s * n == s * (n - 1) + s
  {
  }

  lemma RemainderOfSmall(a: nat, b: nat)
    requires a < b
    ensures a % b == a
  {
  }

  lemma RemainderStep(a: nat, b: nat)
    requires 0 < b <= a
    ensures (a - b) % b == a % b
  {
    var q, r := Quotient(a - b, b), (a - b) % b;
    assert a - b == q * b + r;
    QuotientIsUnique(a, b, q + 1, r);
  }
}
