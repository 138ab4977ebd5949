/**
 * Blind RSA credentials (src/blind.js:118-219): the signature and verification primitives are RSASP1 and RSAVP1
 * of sections 5.2.1 and 5.2.2 of RFC 8017. The private key enters only as an exponent `d` that undoes `e`.
 */
module Blind {
  import opened Common
  import opened Types
  import opened Modular

  /** What makes (e, d) a key pair modulo n. */
  ghost predicate KeyPair(n: nat, e: nat, d: nat) {
    n > 2 && e > 0 && forall x: nat :: Undone(n, e, d, x)
  }

  ghost predicate Undone(n: nat, e: nat, d: nat, x: nat)
    requires n > 0
  {
    Power(x, e * d) % n == x % n
  }

  /** Raising to e and then to d, or the other way round, comes to the same and gives x back. */
  lemma RoundPower(n: nat, e: nat, d: nat, x: nat)
    requires KeyPair(n, e, d)
    ensures Power(Power(x, e), d) % n == x % n
    ensures Power(Power(x, d), e) % n == x % n
  {
    assert Undone(n, e, d, x);
    PowerPower(x, e, d);
    PowerPower(x, d, e);
    assert e * d == d * e;
  }

  // ------------------------------------------------------------- full-domain hash

  /** Big-endian bytes as a number. */
  function BytesToBig(bs: seq<Byte>): nat {
    if bs == [] then 0 else BytesToBig(bs[..|bs| - 1]) * 256 + bs[|bs| - 1]
  }

  /** Each byte counts 256 times what the next one does: a number written in base 256, highest digit first. */
  lemma {:induction false} BytesAreDigits(a: seq<Byte>, b: seq<Byte>)
    ensures BytesToBig(a + b) == BytesToBig(a) * Power(256, |b|) + BytesToBig(b)
    ensures BytesToBig(b) < Power(256, |b|)
    ensures |b| == 1 ==> BytesToBig(b) == b[0]
    decreases |b|
  {
    if b == [] {
      assert a + b == a;
    } else {
      var n := |b| - 1;
      assert (a + b)[..|a + b| - 1] == a + b[..n];
      BytesAreDigits(a, b[..n]);
      OneDigitMore(BytesToBig(a), n);
    }
  }

  lemma OneDigitMore(x: nat, n: nat)
    ensures x * Power(256, n + 1) == 256 * (x * Power(256, n)) && Power(256, n + 1) == 256 * Power(256, n)
  {
    var p := Power(256, n);
    assert x * (256 * p) == 256 * (x * p);
  }

  /** The first `k` digest blocks of a message. */
  function Expand<M>(sha: (nat, M) -> seq<Byte>, message: M, k: nat): seq<Byte> {
    if k == 0 then [] else Expand(sha, message, k - 1) + sha(k - 1, message)
  }

  /** Reduced, and kept off the two fixed points 0 and 1. */
  function Fold(wide: nat, n: nat): (m: nat)
    requires n > 2
    ensures 2 <= m < n
  {
    if wide % n < 2 then 2 else wide % n
  }

  /** The folded value is the residue, but for the two residues it is kept off. */
  lemma FoldIsResidue(wide: nat, n: nat)
    requires n > 2
    ensures Fold(wide, n) == if wide % n == 0 || wide % n == 1 then 2 else wide % n
  {
  }

  /** Block `i` of an expansion is the digest of the message with counter `i`. */
  lemma {:induction false} ExpandAt<M>(sha: (nat, M) -> seq<Byte>, message: M, k: nat, i: nat)
    requires i < k && forall j: nat :: |sha(j, message)| == 32
    ensures |Expand(sha, message, k)| == 32 * k
    ensures Expand(sha, message, k)[32 * i..32 * i + 32] == sha(i, message)
  {
    ExpandLength(sha, message, k);
    ExpandLength(sha, message, k - 1);
    if i < k - 1 {
      ExpandAt(sha, message, k - 1, i);
    } else {
      assert sha(i, message)[..] == sha(i, message);
    }
  }

  lemma {:induction false} ExpandLength<M>(sha: (nat, M) -> seq<Byte>, message: M, k: nat)
    requires forall i: nat :: |sha(i, message)| == 32
    ensures |Expand(sha, message, k)| == 32 * k
  {
    if k > 0 { ExpandLength(sha, message, k - 1); }
  }

  /** fullDomainHash: eight bytes more than the modulus are expanded before reducing; the result is in [2, n). */
  method FullDomainHash<M>(sha: (nat, M) -> seq<Byte>, message: M, n: nat, bytes: nat) returns (m: nat)
    requires n > 2 && forall i: nat :: |sha(i, message)| == 32
    ensures exists k: nat :: WideEnough(bytes, k) && |Expand(sha, message, k)| == 32 * k &&
              m == Fold(BytesToBig(Expand(sha, message, k)[..bytes + 8]), n)
    ensures 2 <= m < n
  {
    var wanted := bytes + 8;
    var chunks: seq<Byte>, counter: nat := [], 0;
    while counter * 32 < wanted
      invariant chunks == Expand(sha, message, counter)
      invariant |chunks| == 32 * counter
      invariant counter > 0 ==> 32 * (counter - 1) < wanted
    {
      chunks := chunks + sha(counter, message);
      counter := counter + 1;
    }
    var wide := BytesToBig(chunks[..wanted]);
    var reduced := wide % n;
    assert WideEnough(bytes, counter);
    m := if reduced < 2 then 2 else reduced;
  }

  /** The number of 32-byte blocks that just covers the modulus and eight bytes. */
  predicate WideEnough(bytes: nat, k: nat) { 32 * (k - 1) < bytes + 8 <= 32 * k }

  // ------------------------------------------------------------- the three steps, as values

  function Blinded(m: nat, r: nat, e: nat, n: nat): int
    requires n > 0
  {
    (m * Power(r, e)) % n
  }

  function Signed(x: int, d: nat, n: nat): int
    requires n > 0
  {
    Power(x, d) % n
  }

  function Unblinded(signature: int, unblinder: nat, n: nat): int
    requires n > 0
  {
    (signature * unblinder) % n
  }

  ghost predicate Verifies(signature: int, m: nat, e: nat, n: nat) {
    0 < signature < n && Power(signature, e) % n == m
  }

  /** One congruent factor and its inverse leave the other factor. */
  lemma CancelFactor(md: int, red: int, r: int, rInv: int, n: nat)
    requires n > 1 && red % n == r % n && (r * rInv) % n == 1
    ensures (((md * red) % n) * rInv) % n == md % n
  {
    ModMul(md * red, rInv, n);
    assert md * red * rInv == md * (red * rInv);
    SameFactor(red, r, rInv, n);
    SameFactor(red * rInv, 1, md, n);
  }

  /** Signing a blinded hash and unblinding is signing the hash: the factor cancels. */
  lemma UnblindingCancels(n: nat, e: nat, d: nat, m: nat, r: nat, rInv: nat)
    requires KeyPair(n, e, d) && (r * rInv) % n == 1
    ensures Unblinded(Signed(Blinded(m, r, e, n), d, n), rInv, n) == Power(m, d) % n
  {
    RoundPower(n, e, d, r);
    SignedProduct(n, d, m, Power(r, e));
    CancelFactor(Power(m, d), Power(Power(r, e), d), r, rInv, n);
  }

  lemma SignedProduct(n: nat, d: nat, m: int, x: int)
    requires n > 0
    ensures Signed((m * x) % n, d, n) == (Power(m, d) * Power(x, d)) % n
  {
    PowerMod(m * x, d, n);
    PowerProduct(m, x, d);
  }

  /** A signature made with the private exponent verifies, and is never zero. */
  lemma SignatureVerifies(n: nat, e: nat, d: nat, m: nat)
    requires KeyPair(n, e, d) && 2 <= m < n
    ensures Verifies(Power(m, d) % n, m, e, n)
  {
    PowerMod(Power(m, d), e, n);
    RoundPower(n, e, d, m);
    ZeroPower(e);
    Modular.SmallIsItself(m, n);
  }

  lemma ZeroPower(e: nat)
    requires e > 0
    ensures Power(0, e) == 0
  {
  }

  /** And it is the only one: exactly one value in range verifies for a hash. */
  lemma {:induction false} OnlyOneSignature(n: nat, e: nat, d: nat, m: nat, s: int)
    requires KeyPair(n, e, d) && 2 <= m < n
    ensures Verifies(s, m, e, n) <==> s == Power(m, d) % n
  {
    hide KeyPair;
    SignatureVerifies(n, e, d, m);
    if Verifies(s, m, e, n) { SignatureIsPower(n, e, d, m, s); }
  }

  lemma SignatureIsPower(n: nat, e: nat, d: nat, m: nat, s: nat)
    requires KeyPair(n, e, d) && s < n && Power(s, e) % n == m
    ensures s == Power(m, d) % n
  {
    RoundPower(n, e, d, s);
    PowerMod(Power(s, e), d, n);
    Modular.SmallIsItself(s, n);
  }

  /** Blind, sign, unblind: the result always verifies against the serial's hash. */
  lemma BlindSignVerifies(n: nat, e: nat, d: nat, m: nat, r: nat, rInv: nat)
    requires KeyPair(n, e, d) && 2 <= m < n && (r * rInv) % n == 1
    ensures Verifies(Unblinded(Signed(Blinded(m, r, e, n), d, n), rInv, n), m, e, n)
  {
    UnblindingCancels(n, e, d, m, r, rInv);
    SignatureVerifies(n, e, d, m);
  }

  // ------------------------------------------------------------- perfect blinding

  /** The factor that carries hash m to blinded value b. */
  function FactorFor(m: nat, mInv: nat, b: nat, d: nat, n: nat): nat
    requires n > 0
  {
    PowerNonNegative(b * mInv, d);
    Power(b * mInv, d) % n
  }

  lemma FactorCarries(n: nat, e: nat, d: nat, m: nat, mInv: nat, b: nat)
    requires KeyPair(n, e, d) && (m * mInv) % n == 1 && b < n
    ensures Blinded(m, FactorFor(m, mInv, b, d, n), e, n) == b
  {
    var x := b * mInv;
    PowerMod(Power(x, d), e, n);
    RoundPower(n, e, d, x);
    var re := Power(FactorFor(m, mInv, b, d, n), e);
    MeetsTarget(m, mInv, b, re, n);
  }

  lemma MeetsTarget(m: int, mInv: int, b: nat, re: int, n: nat)
    requires n > 1 && (m * mInv) % n == 1 && b < n && re % n == (b * mInv) % n
    ensures (m * re) % n == b
  {
    Swap(m, b, mInv);
    Meets(m, b * mInv, m * mInv, b, re, n);
  }

  lemma Meets(m: int, x: int, u: int, b: nat, re: int, n: nat)
    requires n > 1 && u % n == 1 && b < n && re % n == x % n && m * x == b * u
    ensures (m * re) % n == b
  {
    SameFactor(re, x, m, n);
    TimesOne(m * x, b, u, n);
  }

  lemma TimesOne(p: int, b: nat, u: int, n: nat)
    requires n > 1 && u % n == 1 && b < n && p == b * u
    ensures p % n == b
  {
    ModMul(u, b, n);
    Modular.SmallIsItself(b, n);
  }

  /** Products may be regrouped. */
  lemma Swap(a: int, b: int, c: int)
    ensures a * (b * c) == b * (a * c)
  {
  }

  lemma FactorIsOnly(n: nat, e: nat, d: nat, m: nat, mInv: nat, b: nat, r: nat)
    requires KeyPair(n, e, d) && (m * mInv) % n == 1 && r < n && Blinded(m, r, e, n) == b
    ensures r == FactorFor(m, mInv, b, d, n)
  {
    var re := Power(r, e);
    assert re * m == m * re;
    CancelFactor(re, m, m, mInv, n);
    PowerMod(b * mInv, d, n);
    PowerMod(re, d, n);
    RoundPower(n, e, d, r);
    Modular.SmallIsItself(r, n);
  }

  lemma {:induction false} PowerKeepsDivisor(g: nat, r: int, e: nat)
    requires g > 0 && e > 0 && Divides(g, r)
    ensures Divides(g, Power(r, e))
  {
    RemainderIs(0, g, 0, 0);
    DividesCombination(g, 0, r, Power(r, e - 1));
    assert Power(r, e) == 0 + Power(r, e - 1) * r;
  }

  /** A factor that leads to a coprime value is itself coprime. */
  lemma FactorIsCoprime(n: nat, e: nat, m: nat, b: nat, r: nat)
    requires n > 2 && e > 0 && Coprime(b, n) && Blinded(m, r, e, n) == b
    ensures Coprime(r, n)
  {
    forall g: nat | g > 0 && Divides(g, r) && Divides(g, n)
      ensures g == 1
    {
      PowerKeepsDivisor(g, r, e);
      RemainderIs(0, g, 0, 0);
      DividesCombination(g, 0, Power(r, e), m);
      var x := m * Power(r, e);
      assert 0 + m * Power(r, e) == x;
      DivisionOf(x, n);
      DividesCombination(g, x, n, -(x / n));
      assert Divides(g, b);
    }
  }

  /** The factor `r`, and no other below n, carries hash m to b; only for b = m is it the 1 the code passes over. */
  ghost predicate OnlyFactor(n: nat, e: nat, m: nat, b: nat, r: nat)
    requires n > 0
  {
    && 0 < r < n && Coprime(r, n) && Blinded(m, r, e, n) == b
    && (forall r': nat :: r' < n && Blinded(m, r', e, n) == b ==> r' == r)
    && (r == 1 <==> b == m)
  }

  /**
   * The blinding is perfect: from every coprime hash every coprime value is reached by exactly one coprime
   * factor below n. The code passes over the factor 1, so the one value it can never show is the hash itself.
   */
  lemma {:induction false} ExactlyOneFactor(n: nat, e: nat, d: nat, m: nat, b: nat)
    requires KeyPair(n, e, d) && m < n && Coprime(m, n) && b < n && Coprime(b, n)
    ensures exists r: nat :: OnlyFactor(n, e, m, b, r)
  {
    hide Coprime, OnlyFactor;
    assert n > 2;
    var mInv := CoprimeHasInverse(m, n);
    FactorForIsOnly(n, e, d, m, mInv, b);
  }

  lemma {:induction false} FactorForIsOnly(n: nat, e: nat, d: nat, m: nat, mInv: nat, b: nat)
    requires KeyPair(n, e, d) && (m * mInv) % n == 1 && b < n && Coprime(b, n) && m < n
    ensures OnlyFactor(n, e, m, b, FactorFor(m, mInv, b, d, n))
  {
    assert n > 2 && e > 0;
    hide Coprime, KeyPair, FactorFor, Blinded;
    var r := FactorFor(m, mInv, b, d, n);
    FactorCarries(n, e, d, m, mInv, b);
    FactorIsCoprime(n, e, m, b, r);
    FactorFits(m, mInv, b, d, n);
    forall r': nat | r' < n && Blinded(m, r', e, n) == b
      ensures r' == r
    {
      FactorIsOnly(n, e, d, m, mInv, b, r');
    }
    OneBlindsNothing(m, e, n);
    ZeroIsNotCoprime(n);
  }

  lemma FactorFits(m: nat, mInv: nat, b: nat, d: nat, n: nat)
    requires n > 0
    ensures FactorFor(m, mInv, b, d, n) < n
  {
  }

  lemma OneBlindsNothing(m: nat, e: nat, n: nat)
    requires m < n
    ensures Blinded(m, 1, e, n) == m
  {
    OnePower(e);
  }

  lemma {:induction false} OnePower(e: nat)
    ensures Power(1, e) == 1
  {
    if e > 0 { OnePower(e - 1); }
  }

  lemma ZeroIsNotCoprime(n: nat)
    requires n > 1
    ensures !Coprime(0, n)
  {
    RemainderIs(0, n, 0, 0);
    RemainderIs(n, n, 1, 0);
    assert Divides(n, 0) && Divides(n, n);
  }

  // ------------------------------------------------------------- the steps themselves

  ghost predicate Inverts(r: nat, i: nat, n: nat)
    requires n > 1
  {
    i < n && (r * i) % n == 1
  }

  /** The usable factors are the ones other than 0 and 1 that can be undone. */
  lemma {:induction false} UsableIsInvertible(r: nat, n: nat)
    requires n > 1
    ensures Usable(r, n) <==> r != 0 && r != 1 && exists x: nat :: Undoes(x, r, n)
  {
    hide Coprime;
    if Coprime(r, n) {
      var x := CoprimeHasInverse(r, n);
      assert Undoes(x, r, n);
    }
    if x: nat :| Undoes(x, r, n) { InverseMeansCoprime(r, x, n); }
  }

  predicate Undoes(x: nat, r: nat, n: nat)
    requires n > 0
  {
    (r * x) % n == 1
  }

  /** A factor the code uses never shows the hash itself. */
  lemma {:induction false} UsedFactorsHide(n: nat, e: nat, d: nat, m: nat, r: nat)
    requires KeyPair(n, e, d) && m < n && Coprime(m, n) && r < n && Usable(r, n)
    ensures Blinded(m, r, e, n) != m
  {
    hide Coprime, KeyPair;
    ExactlyOneFactor(n, e, d, m, m);
  }

  /** A blinded hash, and the inverse of the factor that blinded it. */
  ghost predicate Hides(out: (nat, nat), m: nat, r: nat, e: nat, n: nat)
    requires n > 1
  {
    out.0 == Blinded(m, r, e, n) && Inverts(r, out.1, n)
  }

  /** One draw, used when it is at least 2 and has an inverse. */
  method TryFactor(m: nat, factor: nat, e: nat, n: nat) returns (out: Option<(nat, nat)>)
    requires n > 2 && e > 0
    ensures out.Some? <==> Usable(factor, n)
    ensures out.Some? ==> Hides(out.value, m, factor, e, n)
  {
    hide Coprime, Inverts, Reduce;
    if factor < 2 { return None; }
    var inverse := ModInverse(factor, n);
    if inverse.None? { return None; }
    var power := ModPow(factor, e, n);
    PowerNonNegative(factor, e);
    BlindsBy(m, Power(factor, e), n);
    InvertsBy(factor, inverse.value, n);
    return Some((Reduce(m * power, n), inverse.value));
  }

  /** blind: factors are drawn until one is usable; `draws` stands for the randomness, `k` is the draw that served. */
  method BlindSerial(m: nat, e: nat, n: nat, draws: seq<nat>) returns (out: Option<(nat, nat)>, k: nat)
    requires n > 2 && e > 0
    ensures k <= |draws| && forall j :: 0 <= j < k ==> !Usable(Reduce(draws[j], n), n)
    ensures out.None? <==> k == |draws|
    ensures out.Some? ==> Usable(Reduce(draws[k], n), n) && Hides(out.value, m, Reduce(draws[k], n), e, n)
  {
    hide Usable, Hides;
    k := 0;
    while k < |draws|
      invariant k <= |draws|
      invariant forall j :: 0 <= j < k ==> !Usable(Reduce(draws[j], n), n)
    {
      out := TryFactor(m, Reduce(draws[k], n), e, n);
      if out.Some? { return; }
      k := k + 1;
    }
    return None, k;
  }

  function Reduce(x: nat, n: nat): nat
    requires n > 0
  {
    x % n
  }

  lemma BlindsBy(m: nat, p: nat, n: nat)
    requires n > 0
    ensures Reduce(m * (p % n), n) == (m * p) % n
  {
    ModMul(p, m, n);
  }

  lemma InvertsBy(r: nat, i: nat, n: nat)
    requires n > 1 && i < n && (r * i) % n == 1 % n
    ensures Inverts(r, i, n)
  {
  }

  ghost predicate Usable(r: nat, n: nat) { r >= 2 && Coprime(r, n) }

  method Unblind(signature: nat, unblinder: nat, n: nat) returns (s: nat)
    requires n > 0
    ensures s == Unblinded(signature, unblinder, n)
  {
    return (signature * unblinder) % n;
  }

  /** verify, against the serial's full-domain hash. */
  method VerifySignature(signature: int, m: nat, e: nat, n: nat) returns (ok: bool)
    requires n > 2
    ensures ok <==> Verifies(signature, m, e, n)
  {
    if signature <= 0 || signature >= n { return false; }
    var power := ModPow(signature, e, n);
    return power == m;
  }

  /** The three steps in a row: whatever factor was drawn, the unblinded signature is accepted. */
  method RoundTrip(n: nat, e: nat, d: nat, m: nat, draws: seq<nat>) returns (accepted: Option<bool>)
    requires KeyPair(n, e, d) && 2 <= m < n
    ensures accepted != Some(false)
    ensures accepted.None? <==> forall i :: 0 <= i < |draws| ==> !Usable(Reduce(draws[i], n), n)
  {
    hide Coprime, Blinded, Unblinded, Signed;
    var out, k := BlindSerial(m, e, n, draws);
    if out.None? { return None; }
    BlindSignVerifies(n, e, d, m, Reduce(draws[k], n), out.value.1);
    var signed := SignBlinded(out.value.0, d, n);
    var s := Unblind(signed, out.value.1, n);
    var ok := VerifySignature(s, m, e, n);
    return Some(ok);
  }

  /** signBlinded: the platform's raw RSA private operation, which is the power and no more. */
  method SignBlinded(blinded: nat, d: nat, n: nat) returns (s: nat)
    requires n > 2
    ensures s == Signed(blinded, d, n)
  {
    s := ModPow(blinded, d, n);
  }
}
