/** Arithmetic modulo n, and the two loops the credential scheme computes with (src/blind.js:91-114). */
module Modular {
  import opened Common

  function Power(b: int, e: nat): int { if e == 0 then 1 else b * Power(b, e - 1) }

  // ------------------------------------------------------------- remainders

  /** Quotient and remainder are unique. */
  lemma RemainderIs(y: int, n: nat, q: int, r: int)
    requires n > 0 && y == n * q + r && 0 <= r < n
    ensures y % n == r
  {
    var k := y / n - q;
    assert n * k == n * (y / n) - n * q == r - y % n;
    assert k >= 1 ==> n * k >= n;
    assert k <= -1 ==> n * k + n <= 0;
  }

  lemma ModAddMultiple(x: int, k: int, n: nat)
    requires n > 0
    ensures (x + n * k) % n == x % n
  {
    assert n * (x / n + k) == n * (x / n) + n * k;
    RemainderIs(x + n * k, n, x / n + k, x % n);
  }

  /** A factor may be reduced before multiplying. */
  lemma ModMul(a: int, b: int, n: nat)
    requires n > 0
    ensures ((a % n) * b) % n == (a * b) % n
    ensures (b * (a % n)) % n == (b * a) % n
  {
    var q := a / n;
    assert a == n * q + a % n;
    assert a * b == (a % n) * b + n * (q * b);
    ModAddMultiple((a % n) * b, q * b, n);
  }

  lemma SameFactor(a: int, a': int, b: int, n: nat)
    requires n > 0 && a % n == a' % n
    ensures (a * b) % n == (a' * b) % n && (b * a) % n == (b * a') % n
  {
    ModMul(a, b, n);
    ModMul(a', b, n);
  }

  lemma {:induction false} PowerMod(b: int, e: nat, n: nat)
    requires n > 0
    ensures Power(b % n, e) % n == Power(b, e) % n
  {
    if e > 0 {
      PowerMod(b, e - 1, n);
      SameFactor(Power(b % n, e - 1), Power(b, e - 1), b % n, n);
      ModMul(b, Power(b, e - 1), n);
    }
  }

  lemma {:induction false} PowerNonNegative(b: nat, e: nat)
    ensures Power(b, e) >= 0
  {
    if e > 0 { PowerNonNegative(b, e - 1); }
  }

  lemma {:induction false} PowerProduct(a: int, b: int, e: nat)
    ensures Power(a * b, e) == Power(a, e) * Power(b, e)
  {
    if e > 0 {
      PowerProduct(a, b, e - 1);
      Rearrange(a, b, Power(a, e - 1), Power(b, e - 1));
    }
  }

  lemma Rearrange(a: int, b: int, c: int, d: int)
    ensures a * b * (c * d) == a * c * (b * d)
  {
  }

  lemma {:induction false} PowerSum(b: int, d: nat, e: nat)
    ensures Power(b, d + e) == Power(b, d) * Power(b, e)
  {
    if d > 0 {
      PowerSum(b, d - 1, e);
      assert b * (Power(b, d - 1) * Power(b, e)) == b * Power(b, d - 1) * Power(b, e);
    }
  }

  lemma {:induction false} PowerPower(b: int, d: nat, e: nat)
    ensures Power(Power(b, d), e) == Power(b, d * e)
  {
    if e > 0 {
      PowerPower(b, d, e - 1);
      assert d * e == d + d * (e - 1);
      PowerSum(b, d, d * (e - 1));
    } else {
      assert d * e == 0;
    }
  }

  lemma SquareHalves(b: int, e: nat)
    requires e % 2 == 0
    ensures Power(b, e) == Power(b * b, e / 2)
  {
    PowerProduct(b, b, e / 2);
    PowerSum(b, e / 2, e / 2);
  }

  // ------------------------------------------------------------- greatest common divisors

  function Gcd(a: nat, b: nat): nat
    decreases b
  {
    if b == 0 then a else Gcd(b, a % b)
  }

  predicate Divides(d: nat, x: int)
    requires d > 0
  {
    x % d == 0
  }

  lemma DividesCombination(d: nat, x: int, y: int, k: int)
    requires d > 0 && Divides(d, x) && Divides(d, y)
    ensures Divides(d, x + k * y)
  {
    assert y == d * (y / d);
    assert k * y == d * (k * (y / d));
    ModAddMultiple(x, k * (y / d), d);
  }

  /** The greatest common divisor divides both. */
  lemma {:induction false} GcdDivides(a: nat, b: nat)
    requires a > 0 || b > 0
    ensures Gcd(a, b) > 0 && Divides(Gcd(a, b), a) && Divides(Gcd(a, b), b)
    decreases b
  {
    if b > 0 {
      GcdDivides(b, a % b);
      DividesCombination(Gcd(a, b), a % b, b, a / b);
      DivisionOf(a, b);
    } else {
      RemainderIs(a, a, 1, 0);
      RemainderIs(0, a, 0, 0);
    }
  }

  lemma DivisionOf(a: int, b: nat)
    requires b > 0
    ensures a == a % b + a / b * b && a % b == a + (-(a / b)) * b
  {
  }

  /** Every common divisor divides the greatest. */
  lemma {:induction false} GcdIsGreatest(a: nat, b: nat, d: nat)
    requires d > 0 && Divides(d, a) && Divides(d, b)
    ensures Divides(d, Gcd(a, b))
    decreases b
  {
    if b > 0 {
      DivisionOf(a, b);
      DividesCombination(d, a, b, -(a / b));
      GcdIsGreatest(b, a % b, d);
    }
  }

  ghost predicate Coprime(a: int, n: nat) {
    forall d: nat :: d > 0 && Divides(d, a) && Divides(d, n) ==> d == 1
  }

  lemma GcdOneIsCoprime(a: int, n: nat)
    requires n > 0
    ensures Gcd(a % n, n) == 1 <==> Coprime(a, n)
  {
    var r, q := a % n, a / n;
    assert a == r + q * n;
    GcdDivides(r, n);
    if Coprime(a, n) {
      DividesCombination(Gcd(r, n), r, n, q);
    }
    forall d: nat | Gcd(r, n) == 1 && d > 0 && Divides(d, a) && Divides(d, n)
      ensures d == 1
    {
      DividesCombination(d, a, n, -q);
      DivisionOf(a, n);
      GcdIsGreatest(r, n, d);
      OnlyOneDividesOne(d);
    }
  }

  /** The greatest common divisor is a combination of the two. */
  lemma {:induction false} Bezout(a: nat, b: nat) returns (s: int, u: int)
    ensures s * a + u * b == Gcd(a, b)
    decreases b
  {
    if b == 0 {
      s, u := 1, 0;
    } else {
      var s', u' := Bezout(b, a % b);
      s, u := u', s' - u' * (a / b);
      Regroup(s', u', a, b, a / b, a % b);
    }
  }

  lemma Regroup(s: int, u: int, a: int, b: int, q: int, r: int)
    requires a == b * q + r
    ensures u * a + (s - u * q) * b == s * b + u * r
  {
    assert u * a == u * (b * q) + u * r;
    assert (s - u * q) * b == s * b - u * q * b;
    assert u * (b * q) == u * q * b;
  }

  /** What shares no factor with the modulus has an inverse. */
  lemma {:induction false} CoprimeHasInverse(a: nat, n: nat) returns (x: nat)
    requires n > 1 && Coprime(a, n)
    ensures x < n && (a * x) % n == 1
  {
    hide Coprime, Gcd;
    GcdOneIsCoprime(a, n);
    var s, u := Bezout(a % n, n);
    ModAddMultiple(s * (a % n), u, n);
    assert u * n == n * u;
    x := s % n;
    SmallIsItself(1, n);
    ModMul(a, s, n);
    ModMul(s, a, n);
  }

  /** And only what shares none has one. */
  lemma {:induction false} InverseMeansCoprime(a: nat, x: int, n: nat)
    requires n > 1 && (a * x) % n == 1
    ensures Coprime(a, n)
  {
    forall g: nat | g > 0 && Divides(g, a) && Divides(g, n)
      ensures g == 1
    {
      var q := (a * x) / n;
      DivisionOf(a * x, n);
      RemainderIs(0, g, 0, 0);
      DividesCombination(g, 0, a, x);
      assert 0 + x * a == a * x;
      DividesCombination(g, a * x, n, -q);
      OnlyOneDividesOne(g);
    }
  }

  lemma OnlyOneDividesOne(d: nat)
    requires d > 0 && Divides(d, 1)
    ensures d == 1
  {
    var k := 1 / d;
    assert d * k == 1;
    assert k >= 1 ==> d * k >= d;
  }

  // ------------------------------------------------------------- the loops

  lemma OddStep(result: nat, b: nat, e: nat, m: nat)
    requires m > 0 && e > 0
    ensures (((result * b) % m) * Power(b, e - 1)) % m == (result * Power(b, e)) % m
  {
    assert result * Power(b, e) == result * b * Power(b, e - 1);
    ModMul(result * b, Power(b, e - 1), m);
  }

  lemma EvenStep(result: nat, b: nat, e: nat, m: nat)
    requires m > 0 && e % 2 == 0
    ensures (result * Power((b * b) % m, e / 2)) % m == (result * Power(b, e)) % m
  {
    SquareHalves(b, e);
    PowerMod(b * b, e / 2, m);
    SameFactor(Power((b * b) % m, e / 2), Power(b * b, e / 2), result, m);
  }

  /** Square and multiply. The one result that is not the power is 1 for exponent 0 modulo 1. */
  method ModPow(base: nat, exponent: nat, modulus: nat) returns (result: nat)
    requires modulus > 0
    ensures result == Power(base, exponent) % modulus <==> !(exponent == 0 && modulus == 1)
    ensures exponent == 0 ==> result == 1
  {
    result := 1;
    var b: nat, e: nat := base % modulus, exponent;
    PowerMod(base, exponent, modulus);
    while e > 0
      invariant exponent == 0 ==> e == 0 && result == 1
      invariant result < modulus || (result == 1 && (e > 0 || exponent == 0))
      invariant (result * Power(b, e)) % modulus == Power(base, exponent) % modulus
    {
      if e % 2 == 1 {
        OddStep(result, b, e, modulus);
        result := (result * b) % modulus;
        e := e - 1;
      }
      EvenStep(result, b, e, modulus);
      b := (b * b) % modulus;
      e := e / 2;
    }
    PowerZero(b);
    PowerZero(base);
    SmallIsItself(result, modulus);
  }

  lemma PowerZero(b: int)
    ensures Power(b, 0) == 1
  {
  }

  lemma SmallIsItself(x: nat, n: nat)
    requires n > 0
    ensures x < n ==> x % n == x
    ensures n == 1 ==> x % n == 0
  {
  }

  /** JavaScript's remainder takes the sign of the dividend. */
  function Rem(a: int, m: nat): int
    requires m > 0
  {
    if a >= 0 then a % m else -((-a) % m)
  }

  /** The idiom that makes it a true residue. */
  lemma Residue(a: int, m: nat)
    requires m > 0
    ensures (Rem(a, m) + m) % m == a % m && Rem(a, m) + m >= 0
  {
    if a >= 0 {
      ModAddMultiple(a % m, 1, m);
      RemainderIs(a % m, m, 0, a % m);
    } else {
      var q := (-a) / m;
      assert a == -((-a) % m) + m * (-q);
      ModAddMultiple(-((-a) % m), -q, m);
      ModAddMultiple(-((-a) % m), 1, m);
    }
  }

  lemma EuclidStep(a: int, m: nat, oldR: nat, r: nat, oldS: int, s: int)
    requires m > 0 && r > 0 && (oldS * a) % m == oldR % m && (s * a) % m == r % m
    ensures ((oldS - oldR / r * s) * a) % m == (oldR - oldR / r * r) % m
  {
    var q := oldR / r;
    var k, l := (oldS * a) / m - oldR / m, (s * a) / m - r / m;
    assert oldS * a == oldR + m * k;
    assert s * a == r + m * l;
    assert (oldS - q * s) * a == oldS * a - q * (s * a);
    assert q * (r + m * l) == q * r + m * (q * l);
    assert (oldS - q * s) * a == (oldR - q * r) + m * (k - q * l);
    ModAddMultiple(oldR - q * r, k - q * l, m);
  }

  /** Extended Euclid: it succeeds exactly on what shares no factor with the modulus, and inverts it. */
  method ModInverse(a: int, m: nat) returns (inverse: Option<nat>)
    requires m > 0
    ensures inverse.Some? <==> Coprime(a, m)
    ensures inverse.Some? ==> inverse.value < m && (a * inverse.value) % m == 1 % m
  {
    Residue(a, m);
    var oldR: nat, r: nat := (Rem(a, m) + m) % m, m;
    var oldS, s := 1, 0;
    ghost var x := a % m;
    ModAddMultiple(0, 1, m);
    while r != 0
      invariant Gcd(oldR, r) == Gcd(x, m)
      invariant (oldS * x) % m == oldR % m && (s * x) % m == r % m
      decreases r
    {
      var q := oldR / r;
      DivisionOf(oldR, r);
      EuclidStep(x, m, oldR, r, oldS, s);
      oldR, r := r, oldR - q * r;
      oldS, s := s, oldS - q * s;
    }
    GcdOneIsCoprime(a, m);
    if oldR != 1 { return None; }
    Residue(oldS, m);
    ModMul(oldS, x, m);
    ModMul(a, oldS % m, m);
    return Some((Rem(oldS, m) + m) % m);
  }
}
