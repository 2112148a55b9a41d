/** The stride with which the route checker walks the pinned addresses. */
module Stride {
  import opened Modulo

  function Gcd(a: nat, b: nat): nat
    decreases b
  {
    if b == 0 then a else Gcd(b, a % b)
  }

  ghost predicate Divides(d: int, n: int) { exists k :: n == k * d }

  /** Bezout's coefficients. */
  ghost function Bezout(a: nat, b: nat): (c: (int, int))
    ensures a * c.0 + b * c.1 == Gcd(a, b)
    decreases b
  {
    if b == 0 then (1, 0)
    else
      var c := Bezout(b, a % b);
      BezoutStep(a, b, c.0, c.1);
      (c.1, c.0 - (a / b) * c.1)
  }

  lemma BezoutStep(a: nat, b: nat, x: int, y: int)
    requires b > 0
    ensures a * y + b * (x - (a / b) * y) == b * x + (a % b) * y
  {
    var q, r := a / b, a % b;
    assert a == b * q + r;
    calc {
      a * y + b * (x - q * y);
      (b * q + r) * y + b * x - b * (q * y);
      b * x + r * y;
    }
  }

  lemma {:induction false} GcdDivides(a: nat, b: nat)
    ensures Divides(Gcd(a, b), a) && Divides(Gcd(a, b), b)
    decreases b
  {
    if b == 0 {
      assert a == 1 * a && b == 0 * a;
    } else {
      var g := Gcd(b, a % b);
      GcdDivides(b, a % b);
      var k :| b == k * g;
      var l :| a % b == l * g;
      var q := a / b;
      assert a == (q * k + l) * g by {
        assert (q * k + l) * g == q * (k * g) + l * g;
      }
    }
  }

  /** A common divisor divides the gcd: it is the greatest. */
  lemma CommonDividesGcd(d: int, a: nat, b: nat)
    requires Divides(d, a) && Divides(d, b)
    ensures Divides(d, Gcd(a, b))
  {
    var k :| a == k * d;
    var l :| b == l * d;
    var c := Bezout(a, b);
    Distribute(k, l, d, c.0, c.1);
  }

  lemma Distribute(k: int, l: int, d: int, x: int, y: int)
    ensures (k * x + l * y) * d == (k * d) * x + (l * d) * y
  {
  }

  ghost predicate Coprime(a: nat, b: nat) {
    forall d: int | Divides(d, a) && Divides(d, b) :: d == 1 || d == -1
  }

  lemma GcdOneIffCoprime(a: nat, b: nat)
    requires a > 0
    ensures Gcd(a, b) == 1 <==> Coprime(a, b)
  {
    GcdDivides(a, b);
    if Gcd(a, b) == 1 {
      forall d: int | Divides(d, a) && Divides(d, b) ensures d == 1 || d == -1 {
        CommonDividesGcd(d, a, b);
        var k :| 1 == k * d;
        UnitDivisor(k, d);
      }
    }
  }

  lemma UnitDivisor(k: int, d: int)
    requires k * d == 1
    ensures d == 1 || d == -1
  {
    var n := if d < 0 then -d else d;
    if n > 1 { SmallMultiple(k, n); }
  }

  lemma NeighboursAreCoprime(count: nat)
    requires count >= 2
    ensures Gcd(count - 1, count) == 1
  {
    var g := Gcd(count - 1, count);
    GcdDivides(count - 1, count);
    var k :| count - 1 == k * g;
    var l :| count == l * g;
    assert 1 == (l - k) * g;
    UnitDivisor(l - k, g);
  }

  method LaneAddressStride(count: int) returns (stride: int)
    ensures count >= 1 ==> VisitsAll(stride, count)
    ensures count <= 2 ==> stride == 1
    ensures count >= 3 ==> 2 <= stride < count && forall s | 2 <= s < stride :: !VisitsAll(s, count)
  {
    if count <= 2 {
      if count >= 1 { VisitsAllIffCoprime(1, count); }
      return 1;
    }
    stride := 2;
    NeighboursAreCoprime(count);
    while stride < count
      invariant 2 <= stride < count
      invariant forall s | 2 <= s < stride :: !VisitsAll(s, count)
    {
      VisitsAllIffCoprime(stride, count);
      if Gcd(stride, count) == 1 { return stride; }
      stride := stride + 1;
    }
    return 1;
  }

  // ------------------------------------------------------------ walking the addresses

  /** The `i`-th address visited. */
  ghost function Visit(i: nat, stride: int, count: int): int
    requires count > 0
  {
    i * stride % count
  }

  ghost predicate Reached(t: int, stride: int, count: int)
    requires count > 0
  {
    exists i: nat :: i < count && Visit(i, stride, count) == t
  }

  /** The first `count` visits are to `count` different addresses, and miss none. */
  ghost predicate VisitsAll(stride: int, count: int)
    requires count > 0
  {
    && (forall i: nat, j: nat | i < count && j < count && Visit(i, stride, count) == Visit(j, stride, count) :: i == j)
    && (forall t | 0 <= t < count :: Reached(t, stride, count))
  }

  /** A stride walks through all the addresses exactly when it has no factor in common
      with their number. */
  lemma VisitsAllIffCoprime(stride: nat, count: nat)
    requires stride > 0 && count > 0
    ensures VisitsAll(stride, count) <==> Gcd(stride, count) == 1
  {
    hide Gcd;
    if Gcd(stride, count) == 1 {
      forall i: nat, j: nat | i < count && j < count && Visit(i, stride, count) == Visit(j, stride, count)
        ensures i == j
      {
        NeverTwice(i, j, stride, count);
      }
      forall t | 0 <= t < count ensures Reached(t, stride, count) {
        Reaches(t, stride, count);
      }
    } else {
      ReturnsEarly(stride, count);
    }
  }

  lemma Cancel(d: int, stride: int, e: int, count: int, x: int, y: int)
    requires d * stride == e * count && stride * x + count * y == 1
    ensures d == (e * x + d * y) * count
  {
    calc {
      d;
      d * (stride * x + count * y);
      (d * stride) * x + d * (count * y);
      (e * count) * x + d * (count * y);
      (e * x + d * y) * count;
    }
  }

  lemma NeverTwice(i: nat, j: nat, stride: nat, count: nat)
    requires i < count && j < count && Gcd(stride, count) == 1
    requires Visit(i, stride, count) == Visit(j, stride, count)
    ensures i == j
  {
    hide Gcd;
    var c := Bezout(stride, count);
    SameRemainder(i * stride, j * stride, count);
    var e :| i * stride - j * stride == e * count;
    assert (i - j) * stride == e * count;
    Cancel(i - j, stride, e, count, c.0, c.1);
    SmallMultiple(e * c.0 + (i - j) * c.1, count);
  }

  lemma Unfold(t: int, x: int, y: int, stride: int, count: int, q: int, i: int)
    requires stride * x + count * y == 1 && t * x == q * count + i
    ensures i * stride == (-(t * y) - q * stride) * count + t
  {
    calc {
      i * stride;
      (t * x - q * count) * stride;
      t * (stride * x) - (q * count) * stride;
      t * (1 - count * y) - (q * count) * stride;
      (-(t * y) - q * stride) * count + t;
    }
  }

  lemma Reaches(t: nat, stride: nat, count: nat)
    requires t < count && Gcd(stride, count) == 1
    ensures Reached(t, stride, count)
  {
    hide Gcd;
    var c := Bezout(stride, count);
    var a := t * c.0;
    var q, i := a / count, a % count;
    Unfold(t, c.0, c.1, stride, count, q, i);
    ModIs(i * stride, count, -(t * c.1) - q * stride, t);
    assert Visit(i, stride, count) == t;
  }

  lemma ReturnsEarly(stride: nat, count: nat)
    requires stride > 0 && count > 0 && Gcd(stride, count) != 1
    ensures !VisitsAll(stride, count)
  {
    var g := Gcd(stride, count);
    GcdDivides(stride, count);
    hide Gcd;
    var k :| stride == k * g;
    var l :| count == l * g;
    Quotient(l, g);
    Swap(l, k, g);
    ModIs(l * stride, count, k, 0);
    ModIs(0 * stride, count, 0, 0);
    assert Visit(0, stride, count) == Visit(l, stride, count);
  }

  lemma Quotient(l: int, g: nat)
    requires l * g > 0 && g != 1
    ensures 0 < l < l * g
  {
    assert l * g == l * (g - 2) + l + l;
    assert g != 0;
    assert l * (g - 2) >= 0;
  }

  lemma Swap(l: int, k: int, g: int)
    ensures l * (k * g) == k * (l * g)
  {
  }
}
