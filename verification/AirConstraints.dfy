/**
 The constraints of the native AIR for repeated 256-bit addition, as predicates
 on one row of trace cells.

 A constraint is a polynomial over the field that must evaluate to zero; here it
 is an integer expression that must be a multiple of `P`.
 */
module AirConstraints {
  import opened Binary
  import opened Mersenne31
  import opened Limbs

  datatype RangeCheckMode = Off | Bits | Lookup

  const COMPACT_TRACE_COLUMNS: nat := 39

  function TraceColumns(mode: RangeCheckMode): nat {
    COMPACT_TRACE_COLUMNS + (match mode
      case Off => 0
      case Bits => 768
      case Lookup => 18)
  }

  /** The cells of one row, in column order. */
  type Cells = c: seq<Felt> | |c| >= 39 witness seq(39, _ => 0)

  function IsReal(c: Cells): Felt { c[0] }

  function SampleId(c: Cells): Felt { c[1] }

  function RepIdx(c: Cells): Felt { c[2] }

  function Acc(c: Cells): LimbArray { c[3..12] }

  function Addend(c: Cells): LimbArray { c[12..21] }

  function Next(c: Cells): LimbArray { c[21..30] }

  function Carry(c: Cells): LimbArray { c[30..39] }

  function CarryInCell(c: Cells, i: nat): nat
    requires i < LIMBS
  {
    if i == 0 then 0 else Carry(c)[i - 1]
  }

  function Lo(c: Cells, i: nat): Felt
    requires |c| == TraceColumns(Lookup) && i < LIMBS
  {
    c[39 + 2 * i]
  }

  function Hi(c: Cells, i: nat): Felt
    requires |c| == TraceColumns(Lookup) && i < LIMBS
  {
    c[40 + 2 * i]
  }

  /** The first bit column of limb `i` of group `g`: the accumulator, the addend, then the next accumulator. */
  function BitColumn(g: nat, i: nat): nat {
    39 + 256 * g + 29 * i
  }

  /** The columns that hold the bits of limb `i` of group `g`. */
  function BitCells(c: Cells, g: nat, i: nat): (s: seq<Felt>)
    requires |c| == TraceColumns(Bits) && g < 3 && i < LIMBS
    ensures |s| == LimbBits(i)
  {
    c[BitColumn(g, i)..BitColumn(g, i) + LimbBits(i)]
  }

  predicate Vanishes(e: int) {
    e % P == 0
  }

  /** The constraint `is_real * e = 0`. */
  predicate Gated(isReal: Felt, e: int) {
    Vanishes(isReal * e)
  }

  /** `x * (x - 1)`, zero when `x` is a bit. */
  function BitPolynomial(x: int): int {
    x * (x - 1)
  }

  predicate CarryConstraint(c: Cells, i: nat)
    requires i < LIMBS
  {
    Gated(IsReal(c), BitPolynomial(Carry(c)[i]))
  }

  predicate AddConstraint(c: Cells, i: nat)
    requires i < LIMBS
  {
    Gated(IsReal(c), Acc(c)[i] + Addend(c)[i] + CarryInCell(c, i) - Next(c)[i] - Carry(c)[i] * LimbBase(i))
  }

  /** `sum of bit_k * 2^k` over the first `n` cells. */
  function Reconstructed(bits: seq<Felt>, n: nat): nat
    requires n <= |bits|
  {
    if n == 0 then 0 else Reconstructed(bits, n - 1) + bits[n - 1] * Pow2(n - 1)
  }

  predicate BitsConstraint(isReal: Felt, limb: U32, bits: seq<Felt>) {
    && (forall k | 0 <= k < |bits| :: Gated(isReal, BitPolynomial(bits[k])))
    && Gated(isReal, limb - Reconstructed(bits, |bits|))
  }

  predicate LimbBitsConstraint(c: Cells, g: nat, limbs: LimbArray, i: nat)
    requires |c| == TraceColumns(Bits) && g < 3 && i < LIMBS
  {
    BitsConstraint(IsReal(c), limbs[i], BitCells(c, g, i))
  }

  predicate ChunkConstraint(c: Cells, i: nat)
    requires |c| == TraceColumns(Lookup) && i < LIMBS
  {
    Gated(IsReal(c), Next(c)[i] - Lo(c, i) - Hi(c, i) * LookupBase())
  }

  predicate RangeConstraints(mode: RangeCheckMode, c: Cells)
    requires |c| == TraceColumns(mode)
  {
    match mode
    case Off => true
    case Bits => forall i | 0 <= i < LIMBS ::
      && LimbBitsConstraint(c, 0, Acc(c), i)
      && LimbBitsConstraint(c, 1, Addend(c), i)
      && LimbBitsConstraint(c, 2, Next(c), i)
    case Lookup => forall i | 0 <= i < LIMBS :: ChunkConstraint(c, i)
  }

  /** Every polynomial constraint of one row. */
  predicate Evaluate(mode: RangeCheckMode, c: Cells)
    requires |c| == TraceColumns(mode)
  {
    && Vanishes(BitPolynomial(IsReal(c)))
    && (forall i | 0 <= i < LIMBS :: CarryConstraint(c, i))
    && (forall i | 0 <= i < LIMBS :: AddConstraint(c, i))
    && RangeConstraints(mode, c)
  }

  /** The tuple that a row takes out of the state relation. */
  function InputState(c: Cells): seq<Felt> {
    [SampleId(c), RepIdx(c)] + c[3..12] + c[12..21]
  }

  /** The tuple that a row puts into the state relation. */
  function OutputState(c: Cells): seq<Felt> {
    [SampleId(c), (RepIdx(c) + 1) % P] + c[21..30] + c[12..21]
  }

  /** Every chunk that a real row looks up is in its table. */
  predicate ChunksInTables(c: Cells)
    requires |c| == TraceColumns(Lookup)
  {
    IsReal(c) == 1 ==> forall i | 0 <= i < LIMBS :: Lo(c, i) < LookupBase() && Hi(c, i) < HighSize(i)
  }

  // ---- Lifting field equations to integer equations ----

  lemma {:induction false} VanishesSmall(e: int)
    requires -P < e < P
    ensures Vanishes(e) <==> e == 0
  {
  }

  lemma {:induction false} GatedReal(isReal: Felt, e: int)
    ensures isReal == 0 ==> Gated(isReal, e)
    ensures isReal == 1 ==> (Gated(isReal, e) <==> Vanishes(e))
  {
    assert isReal == 0 ==> isReal * e == 0;
    assert isReal == 1 ==> isReal * e == e;
  }

  /** The idempotents of the field are 0 and 1. */
  lemma {:induction false} IdempotentIsBit(x: nat)
    requires x < P
    ensures Vanishes(BitPolynomial(x)) <==> x <= 1
  {
    if x <= 1 {
      assert x * (x - 1) == 0;
    } else if Vanishes(BitPolynomial(x)) {
      ZeroProduct(x, x - 1);
      assert false;
    }
  }

  lemma {:induction false} GatedBit(isReal: Felt, x: nat)
    requires x < P && isReal == 1
    ensures Gated(isReal, BitPolynomial(x)) <==> x <= 1
  {
    GatedReal(isReal, BitPolynomial(x));
    IdempotentIsBit(x);
  }

  lemma {:induction false} IsRealIsBit(mode: RangeCheckMode, c: Cells)
    requires |c| == TraceColumns(mode) && Evaluate(mode, c)
    ensures IsReal(c) <= 1
  {
    IdempotentIsBit(IsReal(c));
  }

  /** A row whose `is_real` cell is 0 meets every constraint, whatever its other cells hold. */
  lemma {:induction false} PaddingIsFree(mode: RangeCheckMode, c: Cells)
    requires |c| == TraceColumns(mode) && IsReal(c) == 0
    ensures Evaluate(mode, c)
  {
  }

  /** One limb of the addition, over the integers. */
  predicate LimbAdds(c: Cells, i: nat)
    requires i < LIMBS
  {
    && Carry(c)[i] <= 1
    && Acc(c)[i] + Addend(c)[i] + CarryInCell(c, i) == Next(c)[i] + Carry(c)[i] * LimbBase(i)
  }

  /**
   Between canonical limbs the carry and limb constraints of a real row hold
   exactly when the limbs add up over the integers: no multiple of `P` can hide in them.
   */
  lemma {:induction false} LimbEquationLifts(c: Cells, i: nat)
    requires IsReal(c) == 1 && i < LIMBS
    requires Acc(c)[i] < LimbBase(i) && Addend(c)[i] < LimbBase(i) && Next(c)[i] < LimbBase(i)
    requires CarryInCell(c, i) <= 1
    ensures CarryConstraint(c, i) && AddConstraint(c, i) <==> LimbAdds(c, i)
  {
    var x := Carry(c)[i];
    assert x < P;
    GatedBit(IsReal(c), x);
    if x <= 1 {
      var e := Acc(c)[i] + Addend(c)[i] + CarryInCell(c, i) - Next(c)[i] - x * LimbBase(i);
      assert x * LimbBase(i) <= LimbBase(i) by { if x == 0 {} }
      GatedReal(IsReal(c), e);
      VanishesSmall(e);
    }
  }

  /** The row adds: the next accumulator and the carries are those of the limb addition. */
  predicate RowAdds(c: Cells) {
    Next(c) == SumLimbs(Acc(c), Addend(c)) && Carry(c) == Carries(Acc(c), Addend(c))
  }

  lemma {:induction false} CarryCellsAreCarries(c: Cells, i: nat)
    requires i <= LIMBS
    requires forall j | 0 <= j < LIMBS :: Next(c)[j] < LimbBase(j) && LimbAdds(c, j)
    ensures i > 0 ==> Carry(c)[i - 1] == CarryIn(Acc(c), Addend(c), i)
    ensures i < LIMBS ==> CarryInCell(c, i) == CarryIn(Acc(c), Addend(c), i)
  {
    if i > 0 {
      CarryCellsAreCarries(c, i - 1);
      assert LimbAdds(c, i - 1);
      LimbDivision(Acc(c)[i - 1] + Addend(c)[i - 1] + CarryInCell(c, i - 1),
                   Next(c)[i - 1], Carry(c)[i - 1], i - 1);
    }
  }

  lemma {:induction false} LimbDivision(t: nat, n: nat, k: nat, i: nat)
    requires n < LimbBase(i)
    ensures t == n + k * LimbBase(i) <==> t / LimbBase(i) == k && t % LimbBase(i) == n
  {
    var b := LimbBase(i);
    assert k * b == b * k;
    if t == n + k * b {
      DivModUnique(t, b, k, n);
    }
  }

  lemma {:induction false} LimbEquationsGiveAddition(c: Cells, i: nat)
    requires i < LIMBS
    requires forall j | 0 <= j < LIMBS :: Next(c)[j] < LimbBase(j) && LimbAdds(c, j)
    ensures Next(c)[i] == SumLimb(Acc(c), Addend(c), i) && Carry(c)[i] == CarryIn(Acc(c), Addend(c), i + 1)
  {
    hide LimbBase;
    CarryCellsAreCarries(c, i);
    CarryCellsAreCarries(c, i + 1);
    assert LimbAdds(c, i);
    LimbDivision(Acc(c)[i] + Addend(c)[i] + CarryInCell(c, i), Next(c)[i], Carry(c)[i], i);
  }

  lemma {:induction false} AdditionGivesLimbEquation(c: Cells, i: nat)
    requires i < LIMBS && RowAdds(c) && Carry(c)[i] <= 1
    ensures LimbAdds(c, i)
  {
    hide LimbBase;
    var a, b := Acc(c), Addend(c);
    assert Next(c)[i] == SumLimb(a, b, i) && Carry(c)[i] == CarryIn(a, b, i + 1);
    assert CarryInCell(c, i) == CarryIn(a, b, i) by {
      if i > 0 { assert Carry(c)[i - 1] == Carries(a, b)[i - 1]; }
    }
    RemainderInRange(a[i] + b[i] + CarryIn(a, b, i), i);
    LimbDivision(a[i] + b[i] + CarryInCell(c, i), Next(c)[i], Carry(c)[i], i);
  }

  lemma {:induction false} RemainderInRange(t: nat, i: nat)
    ensures LimbBase(i) > 0 && t % LimbBase(i) < LimbBase(i)
  {
  }

  /** Integer limb equations between canonical limbs say that the row adds. */
  lemma {:induction false} LimbEquationsAreAddition(c: Cells)
    requires Canonical(Acc(c)) && Canonical(Addend(c)) && Canonical(Next(c))
    ensures (forall i | 0 <= i < LIMBS :: LimbAdds(c, i)) <==> RowAdds(c)
  {
    hide LimbAdds, CarryIn, LimbBase;
    if forall i | 0 <= i < LIMBS :: LimbAdds(c, i) {
      forall i | 0 <= i < LIMBS
        ensures Next(c)[i] == SumLimbs(Acc(c), Addend(c))[i] && Carry(c)[i] == Carries(Acc(c), Addend(c))[i]
      {
        LimbEquationsGiveAddition(c, i);
      }
    }
    if RowAdds(c) {
      CarriesAreBits(Acc(c), Addend(c));
      forall i | 0 <= i < LIMBS ensures LimbAdds(c, i) {
        AdditionGivesLimbEquation(c, i);
      }
    }
  }
}
