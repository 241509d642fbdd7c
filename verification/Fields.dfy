/** Fields, for the random-evaluation sums of the AIR: any lawful field will do. */
module Fields {

  datatype Field<!F> = Field(
    zero: F,
    one: F,
    add: (F, F) -> F,
    neg: F -> F,
    mul: (F, F) -> F,
    inv: F -> F
  )

  ghost predicate Lawful<F(!new)>(f: Field<F>) {
    && (forall a, b :: f.add(a, b) == f.add(b, a))
    && (forall a, b, c :: f.add(f.add(a, b), c) == f.add(a, f.add(b, c)))
    && (forall a :: f.add(a, f.zero) == a)
    && (forall a :: f.add(a, f.neg(a)) == f.zero)
    && (forall a, b :: f.mul(a, b) == f.mul(b, a))
    && (forall a, b, c :: f.mul(f.mul(a, b), c) == f.mul(a, f.mul(b, c)))
    && (forall a :: f.mul(a, f.one) == a)
    && (forall a, b, c :: f.mul(a, f.add(b, c)) == f.add(f.mul(a, b), f.mul(a, c)))
    && (forall a :: a != f.zero ==> f.mul(a, f.inv(a)) == f.one)
    && f.zero != f.one
  }

  lemma {:induction false} AddLaws<F(!new)>(f: Field<F>, a: F, b: F, c: F)
    requires Lawful(f)
    ensures f.add(a, b) == f.add(b, a)
    ensures f.add(f.add(a, b), c) == f.add(a, f.add(b, c))
    ensures f.add(a, f.zero) == a && f.add(f.zero, a) == a
    ensures f.add(a, f.neg(a)) == f.zero
  {
  }

  lemma {:induction false} MulLaws<F(!new)>(f: Field<F>, a: F, b: F, c: F)
    requires Lawful(f)
    ensures f.mul(a, b) == f.mul(b, a)
    ensures f.mul(f.mul(a, b), c) == f.mul(a, f.mul(b, c))
    ensures f.mul(a, f.one) == a && f.mul(f.one, a) == a
    ensures f.mul(a, f.add(b, c)) == f.add(f.mul(a, b), f.mul(a, c))
    ensures f.mul(f.add(b, c), a) == f.add(f.mul(b, a), f.mul(c, a))
  {
  }

  lemma {:induction false} InverseLaw<F(!new)>(f: Field<F>, a: F)
    requires Lawful(f) && a != f.zero
    ensures f.mul(a, f.inv(a)) == f.one && f.mul(f.inv(a), a) == f.one
  {
  }

  /** `(a + b) + (c + d) == (a + c) + (b + d)` */
  lemma {:induction false} AddSwap<F(!new)>(f: Field<F>, a: F, b: F, c: F, d: F)
    requires Lawful(f)
    ensures f.add(f.add(a, b), f.add(c, d)) == f.add(f.add(a, c), f.add(b, d))
  {
    hide Lawful;
    AddLaws(f, a, b, f.add(c, d));
    AddLaws(f, b, c, d);
    AddLaws(f, c, b, d);
    AddLaws(f, a, c, f.add(b, d));
  }

  /** `a + x == a` only for `x == 0`. */
  lemma {:induction false} AddCancel<F(!new)>(f: Field<F>, a: F, x: F)
    requires Lawful(f) && f.add(a, x) == a
    ensures x == f.zero
  {
    hide Lawful;
    AddLaws(f, a, x, x);
    AddLaws(f, x, a, f.neg(a));
    AddLaws(f, x, x, x);
  }

  lemma {:induction false} MulZero<F(!new)>(f: Field<F>, a: F)
    requires Lawful(f)
    ensures f.mul(f.zero, a) == f.zero
  {
    hide Lawful;
    AddLaws(f, f.zero, f.zero, f.zero);
    MulLaws(f, a, f.zero, f.zero);
    AddCancel(f, f.mul(f.zero, a), f.mul(f.zero, a));
  }

  lemma {:induction false} NegUnique<F(!new)>(f: Field<F>, a: F, b: F)
    requires Lawful(f) && f.add(a, b) == f.zero
    ensures b == f.neg(a)
  {
    hide Lawful;
    AddLaws(f, b, a, f.neg(a));
    AddLaws(f, a, b, b);
    AddLaws(f, f.neg(a), a, a);
  }

  lemma {:induction false} NegMul<F(!new)>(f: Field<F>, a: F, b: F)
    requires Lawful(f)
    ensures f.mul(f.neg(a), b) == f.neg(f.mul(a, b))
  {
    hide Lawful;
    AddLaws(f, a, a, a);
    MulLaws(f, b, a, f.neg(a));
    MulZero(f, b);
    NegUnique(f, f.mul(a, b), f.mul(f.neg(a), b));
  }

  lemma {:induction false} NegAdd<F(!new)>(f: Field<F>, a: F, b: F)
    requires Lawful(f)
    ensures f.neg(f.add(a, b)) == f.add(f.neg(a), f.neg(b))
  {
    hide Lawful;
    AddSwap(f, a, b, f.neg(a), f.neg(b));
    AddLaws(f, a, a, a);
    AddLaws(f, b, b, b);
    AddLaws(f, f.zero, f.zero, f.zero);
    NegUnique(f, f.add(a, b), f.add(f.neg(a), f.neg(b)));
  }

  lemma {:induction false} NegZero<F(!new)>(f: Field<F>)
    requires Lawful(f)
    ensures f.neg(f.zero) == f.zero
  {
    hide Lawful;
    AddLaws(f, f.zero, f.zero, f.zero);
    NegUnique(f, f.zero, f.zero);
  }

  /** The inverse of a product of units. */
  lemma {:induction false} InverseOfProduct<F(!new)>(f: Field<F>, a: F, b: F)
    requires Lawful(f) && a != f.zero && b != f.zero
    ensures f.inv(f.mul(a, b)) == f.mul(f.inv(a), f.inv(b))
    ensures f.mul(b, f.inv(f.mul(a, b))) == f.inv(a)
    ensures f.mul(a, f.inv(f.mul(a, b))) == f.inv(b)
  {
    hide Lawful;
    var p, u, v := f.mul(a, b), f.inv(a), f.inv(b);
    ProductOfInverses(f, a, b);
    UnitNotZero(f, p, f.mul(u, v));
    InverseLaw(f, p);
    InverseUnique(f, p, f.inv(p), f.mul(u, v));
    InverseLaw(f, a);
    InverseLaw(f, b);
    MulLaws(f, b, v, u);
    MulLaws(f, u, v, v);
    MulLaws(f, u, u, u);
    MulLaws(f, a, u, v);
    MulLaws(f, v, v, v);
  }

  lemma {:induction false} ProductOfInverses<F(!new)>(f: Field<F>, a: F, b: F)
    requires Lawful(f) && a != f.zero && b != f.zero
    ensures f.mul(f.mul(a, b), f.mul(f.inv(a), f.inv(b))) == f.one
  {
    hide Lawful;
    var u, v := f.inv(a), f.inv(b);
    InverseLaw(f, a);
    InverseLaw(f, b);
    MulLaws(f, a, b, f.mul(u, v));
    MulLaws(f, b, f.mul(u, v), v);
    MulLaws(f, u, v, b);
    MulLaws(f, u, u, u);
  }

  lemma {:induction false} UnitNotZero<F(!new)>(f: Field<F>, a: F, b: F)
    requires Lawful(f) && f.mul(a, b) == f.one
    ensures a != f.zero
  {
    MulZero(f, b);
  }

  lemma {:induction false} InverseUnique<F(!new)>(f: Field<F>, a: F, b: F, c: F)
    requires Lawful(f) && f.mul(a, b) == f.one && f.mul(a, c) == f.one
    ensures b == c
  {
    hide Lawful;
    MulLaws(f, b, a, c);
    MulLaws(f, a, b, c);
    MulLaws(f, b, b, b);
    MulLaws(f, c, c, c);
  }

  /** A quotient that is computed as numerator times inverted denominator. */
  datatype Fraction<F> = Fraction(numerator: F, denominator: F)

  function Value<F>(f: Field<F>, q: Fraction<F>): F {
    f.mul(q.numerator, f.inv(q.denominator))
  }

  /** `(b - a) / (a * b) == 1/a - 1/b` */
  lemma {:induction false} FractionDifference<F(!new)>(f: Field<F>, a: F, b: F)
    requires Lawful(f) && a != f.zero && b != f.zero
    ensures f.mul(f.add(b, f.neg(a)), f.inv(f.mul(a, b))) == f.add(f.inv(a), f.neg(f.inv(b)))
  {
    hide Lawful;
    var w := f.inv(f.mul(a, b));
    InverseOfProduct(f, a, b);
    MulLaws(f, w, b, f.neg(a));
    NegMul(f, a, w);
  }

  /** `(b + a) / (a * b) == 1/a + 1/b` */
  lemma {:induction false} FractionSum<F(!new)>(f: Field<F>, a: F, b: F)
    requires Lawful(f) && a != f.zero && b != f.zero
    ensures f.mul(f.add(b, a), f.inv(f.mul(a, b))) == f.add(f.inv(a), f.inv(b))
  {
    hide Lawful;
    InverseOfProduct(f, a, b);
    MulLaws(f, f.inv(f.mul(a, b)), b, a);
  }

  /** The field element `n`. */
  function Embed<F>(f: Field<F>, n: nat): F {
    if n == 0 then f.zero else f.add(Embed(f, n - 1), f.one)
  }

  /** `(a - b) + (b - c) == a - c` */
  lemma {:induction false} Telescope<F(!new)>(f: Field<F>, a: F, b: F, c: F)
    requires Lawful(f)
    ensures f.add(f.add(a, f.neg(b)), f.add(b, f.neg(c))) == f.add(a, f.neg(c))
  {
    hide Lawful;
    AddLaws(f, a, f.neg(b), f.add(b, f.neg(c)));
    AddLaws(f, f.neg(b), b, f.neg(c));
    AddLaws(f, b, f.neg(b), b);
    AddLaws(f, f.neg(c), b, b);
  }
}
