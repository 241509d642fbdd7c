/**
 The field of the AIR's trace cells: integers modulo `P = 2^31 - 1`.

 The constraints reason about products that vanish in this field, which is
 sound only because `P` is prime.  `ModulusIsPrime` proves that here from
 Fermat's little theorem: the element 2 has order 31 and `WITNESS` has order
 151, so every prime factor of `P` is 1 modulo 2 * 31 * 151, and only four
 candidates remain below the square root of `P`.
 */
module Mersenne31 {
  import opened Binary

  const P: int := 2147483647

  type Felt = x: nat | x < 2147483647

  predicate Divides(r: int, n: int)
    requires r > 0
  {
    n % r == 0
  }

  lemma {:induction false} DividesIntro(r: int, n: int, k: int)
    requires r > 0 && n == r * k
    ensures Divides(r, n)
  {
    DivModUnique(n, r, k, 0);
  }

  lemma {:induction false} DividesElim(r: int, n: int) returns (k: int)
    requires r > 0 && Divides(r, n)
    ensures n == r * k
  {
    k := n / r;
  }

  lemma {:induction false} DividesSum(r: int, a: int, b: int, x: int, y: int)
    requires r > 0 && Divides(r, a) && Divides(r, b)
    ensures Divides(r, x * a + y * b)
  {
    hide Divides;
    var i := DividesElim(r, a);
    var j := DividesElim(r, b);
    assert x * (r * i) + y * (r * j) == r * (x * i + y * j);
    DividesIntro(r, x * a + y * b, x * i + y * j);
  }

  ghost predicate IsPrime(r: int) {
    r > 1 && forall d | 1 < d < r :: !Divides(d, r)
  }

  lemma {:induction false} NonZeroRemainder(i: int, r: int)
    requires i > 0 && !Divides(i, r)
    ensures 0 < r % i < i
  {
  }

  /** A prime that divides `i * m` for some `0 < i < r` divides `m`. */
  lemma {:induction false} Euclid(r: int, i: int, m: int)
    requires IsPrime(r) && 0 < i < r && Divides(r, i * m)
    ensures Divides(r, m)
    decreases i
  {
    hide Divides;
    if i > 1 {
      var q, s := r / i, r % i;
      assert !Divides(i, r);
      NonZeroRemainder(i, r);
      assert s * m == m * r + (-q) * (i * m) by {
        assert r == i * q + s;
        assert m * (i * q + s) == q * (i * m) + s * m;
      }
      DividesIntro(r, r, 1);
      DividesSum(r, r, i * m, m, -q);
      Euclid(r, s, m);
    }
  }

  lemma {:induction false} EuclidAny(r: int, a: int, m: int)
    requires IsPrime(r) && Divides(r, a * m) && !Divides(r, a)
    ensures Divides(r, m)
  {
    hide Divides;
    NonZeroRemainder(r, a);
    var q, s := a / r, a % r;
    assert s * m == 1 * (a * m) + (-q * m) * r by {
      assert a == r * q + s;
      assert (r * q + s) * m == (q * m) * r + s * m;
    }
    DividesIntro(r, r, 1);
    DividesSum(r, a * m, r, 1, -q * m);
    Euclid(r, s, m);
  }

  function Choose(n: nat, k: nat): nat {
    if k == 0 then 1 else if n == 0 then 0 else Choose(n - 1, k - 1) + Choose(n - 1, k)
  }

  lemma {:induction false} ChooseAbove(n: nat, k: nat)
    requires k > n
    ensures Choose(n, k) == 0
  {
    if n > 0 {
      ChooseAbove(n - 1, k - 1);
      ChooseAbove(n - 1, k);
    }
  }

  lemma {:induction false} ChooseAll(n: nat)
    ensures Choose(n, n) == 1
  {
    if n > 0 {
      ChooseAll(n - 1);
      ChooseAbove(n - 1, n);
    }
  }

  lemma {:induction false} Absorption(n: nat, k: nat)
    requires n > 0 && k > 0
    ensures k * Choose(n, k) == n * Choose(n - 1, k - 1)
  {
    if n == 1 {
      if k > 1 { ChooseAbove(1, k); ChooseAbove(0, k - 1); }
      assert Choose(1, 1) == 1;
    } else {
      var c, d, f := Choose(n - 1, k - 1), Choose(n - 1, k), Choose(n - 2, k - 1);
      Absorption(n - 1, k);
      var e := if k > 1 then Choose(n - 2, k - 2) else 0;
      if k > 1 { Absorption(n - 1, k - 1); }
      AbsorptionStep(n, k, c, d, e, f);
    }
  }

  lemma {:induction false} AbsorptionStep(n: int, k: int, c: int, d: int, e: int, f: int)
    requires c == e + f && k * d == (n - 1) * f && (k - 1) * c == (n - 1) * e
    ensures k * (c + d) == n * c
  {
    assert (n - 1) * c == (n - 1) * e + (n - 1) * f;
    assert k * (c + d) == (k - 1) * c + c + k * d;
  }

  function Power(b: int, e: nat): int {
    if e == 0 then 1 else b * Power(b, e - 1)
  }

  lemma {:induction false} PowerAdd(b: int, e: nat, f: nat)
    ensures Power(b, e + f) == Power(b, e) * Power(b, f)
  {
    if e > 0 {
      PowerAdd(b, e - 1, f);
      assert b * (Power(b, e - 1) * Power(b, f)) == (b * Power(b, e - 1)) * Power(b, f);
    }
  }

  /** The sum of the first `m` terms of the expansion of `(x + 1)^n`. */
  function Expansion(x: int, n: nat, m: nat): int {
    if m == 0 then 0 else Expansion(x, n, m - 1) + Choose(n, m - 1) * Power(x, m - 1)
  }

  lemma {:induction false} ExpansionStep(x: int, n: nat, m: nat)
    requires m > 0
    ensures Expansion(x, n + 1, m) == Expansion(x, n, m) + x * Expansion(x, n, m - 1)
  {
    if m > 1 {
      ExpansionStep(x, n, m - 1);
      var c, d, p := Choose(n, m - 2), Choose(n, m - 1), Power(x, m - 2);
      ExpansionTerm(x, c, d, p, Expansion(x, n, m - 2));
    }
  }

  lemma {:induction false} ExpansionTerm(x: int, c: int, d: int, p: int, e: int)
    ensures (c + d) * (x * p) + x * e == d * (x * p) + x * (e + c * p)
  {
    assert (c + d) * (x * p) == d * (x * p) + x * (c * p);
    assert x * (e + c * p) == x * e + x * (c * p);
  }

  lemma {:induction false} Binomial(x: int, n: nat)
    ensures Power(x + 1, n) == Expansion(x, n, n + 1)
  {
    if n > 0 {
      var e := Expansion(x, n - 1, n);
      Binomial(x, n - 1);
      ExpansionStep(x, n - 1, n + 1);
      ChooseAbove(n - 1, n);
      assert Expansion(x, n - 1, n + 1) == e + Choose(n - 1, n) * Power(x, n);
      assert (x + 1) * e == e + x * e;
    }
  }

  lemma {:induction false} InnerTermsVanish(r: int, x: int, m: nat)
    requires IsPrime(r) && 0 < m <= r
    ensures Divides(r, Expansion(x, r, m) - 1)
  {
    hide Divides;
    if m == 1 {
      assert Expansion(x, r, 1) == Choose(r, 0) * Power(x, 0);
      DividesIntro(r, 0, 0);
    } else {
      var k := m - 1;
      var c, p := Choose(r, k), Power(x, k);
      InnerTermsVanish(r, x, k);
      Absorption(r, k);
      DividesIntro(r, k * c, Choose(r - 1, k - 1));
      Euclid(r, k, c);
      DividesSum(r, Expansion(x, r, k) - 1, c, 1, p);
      assert Expansion(x, r, m) - 1 == 1 * (Expansion(x, r, k) - 1) + p * c;
    }
  }

  lemma {:induction false} FermatPower(r: int, x: nat)
    requires IsPrime(r)
    ensures Divides(r, Power(x, r) - x)
  {
    hide Divides;
    if x == 0 {
      DividesIntro(r, 0, 0);
    } else {
      FermatPower(r, x - 1);
      Binomial(x - 1, r);
      InnerTermsVanish(r, x - 1, r);
      ChooseAll(r);
      var e, p := Expansion(x - 1, r, r), Power(x - 1, r);
      assert Power(x, r) == e + p;
      DividesSum(r, e - 1, p - (x - 1), 1, 1);
      assert 1 * (e - 1) + 1 * (p - (x - 1)) == Power(x, r) - x;
    }
  }

  /** Fermat's little theorem. */
  lemma {:induction false} Fermat(r: int, x: nat)
    requires IsPrime(r) && !Divides(r, x)
    ensures Divides(r, Power(x, r - 1) - 1)
  {
    hide Divides;
    FermatPower(r, x);
    var p := Power(x, r - 1);
    assert x * (p - 1) == Power(x, r) - x;
    EuclidAny(r, x, p - 1);
  }

  /** If `x^e` and `x^(e+f)` are 1 modulo `r`, so is `x^f`. */
  lemma {:induction false} CancelPower(r: int, x: int, e: nat, f: nat)
    requires r > 0 && Divides(r, Power(x, e) - 1) && Divides(r, Power(x, e + f) - 1)
    ensures Divides(r, Power(x, f) - 1)
  {
    hide Divides;
    PowerAdd(x, e, f);
    var p, q := Power(x, e), Power(x, f);
    DividesSum(r, p - 1, p * q - 1, -q, 1);
    assert (-q) * (p - 1) + 1 * (p * q - 1) == q - 1;
  }

  lemma {:induction false} ExponentMod(r: int, x: int, e: nat, f: nat)
    requires r > 0 && e > 0 && Divides(r, Power(x, e) - 1) && Divides(r, Power(x, f) - 1)
    ensures Divides(r, Power(x, f % e) - 1)
    decreases f
  {
    hide Divides, Power;
    if f >= e {
      CancelPower(r, x, e, f - e);
      SubtractDivisor(f, e);
      ExponentMod(r, x, e, f - e);
    } else {
      DivModUnique(f, e, 0, f);
    }
  }

  lemma {:induction false} SubtractDivisor(f: nat, e: nat)
    requires 0 < e <= f
    ensures (f - e) % e == f % e
  {
    var q, s := f / e, f % e;
    assert e * (q - 1) == e * q - e;
    DivModUnique(f - e, e, q - 1, s);
  }

  /** The exponents `e` with `x^e = 1` modulo `r` are closed under Euclid's algorithm. */
  lemma {:induction false} ExponentGcd(r: int, x: int, e: nat, f: nat) returns (g: nat)
    requires r > 0 && e > 0 && Divides(r, Power(x, e) - 1) && Divides(r, Power(x, f) - 1)
    ensures g > 0 && Divides(g, e) && Divides(g, f) && Divides(r, Power(x, g) - 1)
    decreases e
  {
    hide Divides, Power;
    ExponentMod(r, x, e, f);
    if f % e == 0 {
      g := e;
      DividesIntro(e, e, 1);
      DividesIntro(e, f, f / e);
    } else {
      g := ExponentGcd(r, x, f % e, e);
      DividesSum(g, e, f % e, f / e, 1);
      assert (f / e) * e + 1 * (f % e) == f;
    }
  }

  /** An element of prime order `q` modulo a prime `r` shows `q | r - 1`. */
  lemma {:induction false} OrderDivides(r: int, x: nat, q: int)
    requires IsPrime(r) && IsPrime(q) && Divides(r, Power(x, q) - 1)
    requires !Divides(r, x) && !Divides(r, x - 1)
    ensures Divides(q, r - 1)
  {
    hide Divides;
    Fermat(r, x);
    var g := ExponentGcd(r, x, q, r - 1);
    DivisorOfPrime(q, g);
    assert Power(x, 1) == x * Power(x, 0) == x;
  }

  lemma {:induction false} DivisorOfPrime(q: int, g: int)
    requires IsPrime(q) && g > 0 && Divides(g, q)
    ensures g == 1 || g == q
  {
    assert g <= q by {
      var k := DividesElim(g, q);
      PositiveFactor(g, k);
    }
  }

  lemma {:induction false} PositiveFactor(g: int, k: int)
    requires g > 0 && g * k > 0
    ensures k > 0 && g <= g * k
  {
    ProductSign(g, k);
    ProductSign(g, 1 - k);
    assert g * k == g - g * (1 - k);
  }

  lemma {:induction false} ProductSign(g: int, k: int)
    requires g > 0
    ensures k <= 0 ==> g * k <= 0
  {
  }

  lemma {:induction false} SmallPrimes()
    ensures IsPrime(31) && IsPrime(151)
  {
  }

  lemma {:induction false} PowerStep(b: int, e: nat, f: nat, x: int, y: int, z: int)
    requires Divides(P, Power(b, e) - x) && Divides(P, Power(b, f) - y) && (x * y) % P == z
    ensures Divides(P, Power(b, e + f) - z)
  {
    hide Divides;
    PowerAdd(b, e, f);
    var p, q := Power(b, e), Power(b, f);
    DividesSum(P, p - x, q - y, q, x);
    assert q * (p - x) + x * (q - y) == p * q - x * y;
    var k := (x * y) / P;
    DividesIntro(P, P, 1);
    DividesSum(P, p * q - x * y, P, 1, k);
    assert x * y == P * k + z;
  }

  lemma {:induction false} FirstPower(b: int)
    ensures Power(b, 1) == b
  {
    assert Power(b, 1) == b * Power(b, 0);
  }

  /** An element of order 151. */
  const WITNESS: nat := 7857454

  lemma {:induction false} WitnessPower()
    ensures Divides(P, Power(WITNESS, 151) - 1)
  {
    hide Divides, Power;
    assert Power(WITNESS, 1) == WITNESS by {
      FirstPower(WITNESS);
    }
    DividesIntro(P, 0, 0);
    PowerStep(WITNESS, 1, 1, 7857454, 7857454, 1575994513);
    PowerStep(WITNESS, 2, 2, 1575994513, 1575994513, 1016890597);
    PowerStep(WITNESS, 4, 4, 1016890597, 1016890597, 818442452);
    PowerStep(WITNESS, 8, 1, 818442452, 7857454, 61578185);
    PowerStep(WITNESS, 9, 9, 61578185, 61578185, 862844209);
    PowerStep(WITNESS, 18, 18, 862844209, 862844209, 1362809145);
    PowerStep(WITNESS, 36, 1, 1362809145, 7857454, 2005183324);
    PowerStep(WITNESS, 37, 37, 2005183324, 2005183324, 556613938);
    PowerStep(WITNESS, 74, 1, 556613938, 7857454, 1070630005);
    PowerStep(WITNESS, 75, 75, 1070630005, 1070630005, 947483531);
    PowerStep(WITNESS, 150, 1, 947483531, 7857454, 1);
  }

  lemma {:induction false} DividesTrans(r: int, m: int, n: int)
    requires r > 0 && m > 0 && Divides(r, m) && Divides(m, n)
    ensures Divides(r, n)
  {
    hide Divides;
    var k := DividesElim(m, n);
    DividesSum(r, m, m, k, 0);
  }

  /** A divisor of one of two coprime numbers, apart from 1, does not divide the other. */
  lemma {:induction false} Coprime(r: int, a: int, b: int, x: int, y: int)
    requires r > 1 && Divides(r, a) && x * a + y * b == 1
    ensures !Divides(r, b)
  {
    hide Divides;
    if Divides(r, b) {
      CommonDivisor(r, a, b, x, y);
      assert false;
    }
  }

  lemma {:induction false} CommonDivisor(r: int, a: int, b: int, x: int, y: int)
    requires r > 0 && Divides(r, a) && Divides(r, b) && x * a + y * b == 1
    ensures r == 1
  {
    DividesSum(r, a, b, x, y);
  }

  lemma {:induction false} TwoTo31()
    ensures Divides(P, Power(2, 31) - 1)
  {
    hide Divides, Power;
    FirstPower(2);
    DividesIntro(P, 0, 0);
    PowerStep(2, 1, 1, 2, 2, 4);
    PowerStep(2, 2, 1, 4, 2, 8);
    PowerStep(2, 3, 3, 8, 8, 64);
    PowerStep(2, 6, 1, 64, 2, 128);
    PowerStep(2, 7, 7, 128, 128, 16384);
    PowerStep(2, 14, 1, 16384, 2, 32768);
    PowerStep(2, 15, 15, 32768, 32768, 1073741824);
    PowerStep(2, 30, 1, 1073741824, 2, 1);
  }

  /** A prime factor of `P` is 1 modulo 31 and modulo 151, and odd. */
  lemma {:induction false} FactorShape(r: int)
    requires IsPrime(r) && Divides(r, P)
    ensures !Divides(2, r) && Divides(31, r - 1) && Divides(151, r - 1)
  {
    hide Divides, Power, IsPrime;
    FactorIsPositive(r);
    SmallPrimes();
    TwoTo31();
    WitnessPower();
    DividesTrans(r, P, Power(2, 31) - 1);
    DividesTrans(r, P, Power(WITNESS, 151) - 1);
    Coprime(r, P, 2, 1, -1073741823);
    Coprime(r, P, 1, 0, 1);
    OrderDivides(r, 2, 31);
    Coprime(r, P, WITNESS, -3466759, 947483531);
    Coprime(r, P, WITNESS - 1, -6342287, 1733380730);
    OrderDivides(r, WITNESS, 151);
    FactorIsOdd(r);
  }

  lemma {:induction false} FactorIsPositive(r: int)
    requires IsPrime(r)
    ensures r > 1
  {
  }

  lemma {:induction false} FactorIsOdd(r: int)
    requires r > 1 && Divides(r, P)
    ensures !Divides(2, r)
  {
    hide Divides;
    if Divides(2, r) {
      DividesTrans(2, r, P);
      DividesIntro(2, 2, 1);
      Coprime(2, 2, P, -1073741823, 1);
      assert false;
    }
  }

  /** A composite number has a prime factor whose square does not exceed it. */
  lemma {:induction false} SmallPrimeFactor(n: int) returns (r: int)
    requires n > 1 && !IsPrime(n)
    ensures IsPrime(r) && Divides(r, n) && r * r <= n
  {
    hide Divides;
    var d :| 1 < d < n && Divides(d, n);
    r := LeastFactor(n, 2, d);
    var k := DividesElim(r, n);
    CofactorBound(n, r, k);
    DividesIntro(k, n, r);
    assert k >= r;
    MulOrder(r, k);
  }

  lemma {:induction false} CofactorBound(n: int, r: int, k: int)
    requires 1 < r < n && n == r * k
    ensures 1 < k < n
  {
    PositiveFactor(r, k);
    assert k != 1;
    assert r * k == k + (r - 1) * k;
  }

  lemma {:induction false} MulOrder(r: int, k: int)
    requires 0 < r <= k
    ensures r * r <= r * k
  {
    assert r * k == r * r + r * (k - r);
  }

  lemma {:induction false} LeastFactor(n: int, from: int, d: int) returns (r: int)
    requires 1 < from <= d < n && Divides(d, n)
    requires forall c | 1 < c < from :: !Divides(c, n)
    ensures 1 < r <= d && IsPrime(r) && Divides(r, n)
    ensures forall c | 1 < c < r :: !Divides(c, n)
    decreases d - from
  {
    hide Divides;
    if Divides(from, n) {
      r := from;
      forall c | 1 < c < r ensures !Divides(c, r) {
        if Divides(c, r) { DividesTrans(c, r, n); }
      }
    } else {
      r := LeastFactor(n, from + 1, d);
    }
  }

  lemma {:induction false} SquareRootBound(r: int)
    requires r > 0 && r * r <= P
    ensures r <= 46340
  {
    SquareOrder(46341, r);
  }

  lemma {:induction false} SquareOrder(a: int, b: int)
    requires a > 0
    ensures a <= b ==> a * a <= b * b
  {
    if a <= b {
      MulOrder(a, b);
      assert b * b == a * b + (b - a) * b;
    }
  }

  lemma {:induction false} SmallCandidates(r: int)
    requires 1 < r <= 46340 && !Divides(2, r) && Divides(31, r - 1) && Divides(151, r - 1)
    ensures !Divides(r, P)
  {
    var k := (r - 1) / 9362;
    assert r - 1 == 9362 * k && 1 <= k <= 4;
    assert r == 9363 || r == 18725 || r == 28087 || r == 37449;
  }

  lemma {:induction false} ModulusIsPrime()
    ensures IsPrime(P)
  {
    hide Divides, IsPrime;
    if !IsPrime(P) {
      var r := SmallPrimeFactor(P);
      FactorIsPositive(r);
      SquareRootBound(r);
      FactorShape(r);
      SmallCandidates(r);
      assert false;
    }
  }

  /** The field has no zero divisors. */
  lemma {:induction false} ZeroProduct(a: int, b: int)
    requires (a * b) % P == 0
    ensures a % P == 0 || b % P == 0
  {
    ModulusIsPrime();
    if a % P != 0 {
      EuclidAny(P, a, b);
    }
  }
}
