/**
 What the two sound range-check modes of the native AIR force on a row: the
 constraints hold exactly on the rows that the honest witness generator writes.
 */
module RangeChecks {
  import opened Binary
  import opened Mersenne31
  import opened Limbs
  import opened AirConstraints

  /** `(limb >> k) & 1` for each of the `w` low bits. */
  function LimbBitCells(limb: U32, w: nat): (s: seq<Felt>)
    ensures |s| == w
  {
    seq(w, k requires 0 <= k < w => Bit(TestBit(limb, k)))
  }

  /** The range-check cells of limb `i` are the ones the witness generator writes. */
  predicate HonestLimb(mode: RangeCheckMode, c: Cells, i: nat)
    requires |c| == TraceColumns(mode) && i < LIMBS
  {
    match mode
    case Off => true
    case Bits =>
      && BitCells(c, 0, i) == LimbBitCells(Acc(c)[i], LimbBits(i))
      && BitCells(c, 1, i) == LimbBitCells(Addend(c)[i], LimbBits(i))
      && BitCells(c, 2, i) == LimbBitCells(Next(c)[i], LimbBits(i))
    case Lookup =>
      SplitLookupChunks(i, Next(c)[i]) == (Lo(c, i), Hi(c, i))
  }

  predicate HonestRange(mode: RangeCheckMode, c: Cells)
    requires |c| == TraceColumns(mode)
  {
    forall i | 0 <= i < LIMBS :: HonestLimb(mode, c, i)
  }

  predicate AreBits(bits: seq<Felt>) {
    forall k | 0 <= k < |bits| :: bits[k] <= 1
  }

  function Bools(bits: seq<Felt>): (s: seq<bool>)
    ensures |s| == |bits|
  {
    seq(|bits|, k requires 0 <= k < |bits| => bits[k] == 1)
  }

  lemma {:induction false} ReconstructedIsValue(bits: seq<Felt>, n: nat)
    requires AreBits(bits) && n <= |bits|
    ensures Reconstructed(bits, n) == BitsValue(Bools(bits)[..n])
  {
    if n > 0 {
      var b := Bools(bits);
      ReconstructedIsValue(bits, n - 1);
      BitsValueAppend(b[..n - 1], b[n - 1]);
      assert b[..n] == b[..n - 1] + [b[n - 1]];
      WeightOfBit(bits[n - 1], Pow2(n - 1));
    }
  }

  lemma {:induction false} WeightOfBit(x: nat, p: nat)
    requires x <= 1
    ensures x * p == Weight(x == 1, p)
  {
  }

  /** Bit cells reconstruct to a limb exactly when they are its bits. */
  lemma {:induction false} ReconstructedExactly(limb: U32, bits: seq<Felt>)
    requires AreBits(bits)
    ensures Reconstructed(bits, |bits|) == limb <==> limb < Pow2(|bits|) && bits == LimbBitCells(limb, |bits|)
  {
    hide Pow2, Reconstructed, TestBit, BitsValue;
    var w, b := |bits|, Bools(bits);
    ReconstructedIsValue(bits, w);
    assert b[..w] == b;
    BitsValueBound(b);
    BitsOfValue(b);
    BitsValueOfBits(limb, w);
    if limb < Pow2(w) {
      SmallModulus(limb, Pow2(w));
      forall k | 0 <= k < w ensures BitsOf(limb, w)[k] == TestBit(limb, k) {
        BitsOfAt(limb, w, k);
      }
      CellsAndBools(bits, BitsOf(limb, w), limb);
    }
  }

  lemma {:induction false} SmallModulus(x: nat, m: nat)
    requires x < m
    ensures x % m == x
  {
  }

  lemma {:induction false} CellsAndBools(bits: seq<Felt>, b: seq<bool>, limb: U32)
    requires AreBits(bits) && |b| == |bits| && forall k | 0 <= k < |b| :: b[k] == TestBit(limb, k)
    ensures bits == LimbBitCells(limb, |bits|) <==> Bools(bits) == b
  {
    hide TestBit;
    if Bools(bits) == b {
      forall k | 0 <= k < |bits| ensures bits[k] == LimbBitCells(limb, |bits|)[k] {
        assert Bools(bits)[k] == b[k];
      }
    }
  }

  /** The bit constraints of a real row hold exactly when the limb is in range and the cells are its bits. */
  lemma {:induction false} BitsConstraintExactly(isReal: Felt, limb: Felt, bits: seq<Felt>, i: nat)
    requires isReal == 1 && i < LIMBS && |bits| == LimbBits(i)
    ensures BitsConstraint(isReal, limb, bits) <==> limb < LimbBase(i) && bits == LimbBitCells(limb, |bits|)
  {
    hide Gated, LimbBitCells, Reconstructed;
    forall k | 0 <= k < |bits| ensures Gated(isReal, BitPolynomial(bits[k])) <==> bits[k] <= 1 {
      GatedBit(isReal, bits[k]);
    }
    CellsAreBits(limb, |bits|);
    LimbBaseIsShift(i);
    if AreBits(bits) {
      var r := Reconstructed(bits, |bits|);
      ReconstructedExactly(limb, bits);
      ReconstructedIsValue(bits, |bits|);
      assert Bools(bits)[..|bits|] == Bools(bits);
      BitsValueBound(Bools(bits));
      GatedReal(isReal, limb - r);
      VanishesSmall(limb - r);
    }
  }

  lemma {:induction false} CellsAreBits(limb: U32, w: nat)
    ensures AreBits(LimbBitCells(limb, w))
  {
  }

  /** With chunks in their tables, the chunk constraint holds exactly when they are the chunks of the limb. */
  lemma {:induction false} ChunkConstraintExactly(c: Cells, i: nat)
    requires |c| == TraceColumns(Lookup) && i < LIMBS && IsReal(c) == 1
    requires Lo(c, i) < LookupBase() && Hi(c, i) < HighSize(i)
    ensures ChunkConstraint(c, i) <==> SplitLookupChunks(i, Next(c)[i]) == (Lo(c, i), Hi(c, i))
    ensures ChunkConstraint(c, i) ==> Next(c)[i] < LimbBase(i)
  {
    var n, lo, hi := Next(c)[i], Lo(c, i), Hi(c, i);
    assert n < P;
    var e := n - lo - hi * LookupBase();
    GatedReal(IsReal(c), e);
    VanishesSmall(e);
    if e == 0 {
      ChunksAreUnique(i, n, lo, hi);
    }
  }

  lemma {:induction false} AllLimbsAdd(c: Cells)
    requires IsReal(c) == 1 && Canonical(Acc(c)) && Canonical(Addend(c)) && Canonical(Next(c))
    ensures (forall i | 0 <= i < LIMBS :: CarryConstraint(c, i) && AddConstraint(c, i)) <==> RowAdds(c)
  {
    hide CarryConstraint, AddConstraint, RowAdds, LimbAdds;
    LimbEquationsAreAddition(c);
    if forall i | 0 <= i < LIMBS :: CarryConstraint(c, i) && AddConstraint(c, i) {
      forall i | 0 <= i < LIMBS ensures LimbAdds(c, i) {
        LimbAddsFrom(c, i);
      }
    }
    if forall i | 0 <= i < LIMBS :: LimbAdds(c, i) {
      forall i | 0 <= i < LIMBS ensures CarryConstraint(c, i) && AddConstraint(c, i) {
        CarryInIsBit(c, i);
        LimbEquationLifts(c, i);
      }
    }
  }

  lemma {:induction false} CarryInIsBit(c: Cells, i: nat)
    requires i < LIMBS && (forall j | 0 <= j < LIMBS :: LimbAdds(c, j))
    ensures CarryInCell(c, i) <= 1
  {
    if i > 0 {
      assert LimbAdds(c, i - 1);
    }
  }

  lemma {:induction false} LimbAddsFrom(c: Cells, i: nat)
    requires i < LIMBS && IsReal(c) == 1
    requires Canonical(Acc(c)) && Canonical(Addend(c)) && Canonical(Next(c))
    requires forall j | 0 <= j < LIMBS :: CarryConstraint(c, j) && AddConstraint(c, j)
    ensures LimbAdds(c, i)
  {
    hide AddConstraint, LimbAdds;
    if i > 0 {
      assert CarryConstraint(c, i - 1);
      GatedBit(IsReal(c), Carry(c)[i - 1]);
    }
    assert CarryConstraint(c, i) && AddConstraint(c, i);
    LimbEquationLifts(c, i);
  }

  predicate LimbsCanonical(c: Cells) {
    Canonical(Acc(c)) && Canonical(Addend(c)) && Canonical(Next(c))
  }

  lemma {:induction false} BitModeRange(c: Cells)
    requires |c| == TraceColumns(Bits) && IsReal(c) == 1
    ensures RangeConstraints(Bits, c) <==> HonestRange(Bits, c) && LimbsCanonical(c)
  {
    hide BitsConstraint, LimbBitCells, BitCells;
    forall i | 0 <= i < LIMBS
      ensures LimbBitsConstraint(c, 0, Acc(c), i) && LimbBitsConstraint(c, 1, Addend(c), i) && LimbBitsConstraint(c, 2, Next(c), i)
          <==> HonestLimb(Bits, c, i) && Acc(c)[i] < LimbBase(i) && Addend(c)[i] < LimbBase(i) && Next(c)[i] < LimbBase(i)
    {
      BitsConstraintExactly(IsReal(c), Acc(c)[i], BitCells(c, 0, i), i);
      BitsConstraintExactly(IsReal(c), Addend(c)[i], BitCells(c, 1, i), i);
      BitsConstraintExactly(IsReal(c), Next(c)[i], BitCells(c, 2, i), i);
    }
  }

  lemma {:induction false} LookupModeRange(c: Cells)
    requires |c| == TraceColumns(Lookup) && IsReal(c) == 1 && ChunksInTables(c)
    ensures RangeConstraints(Lookup, c) <==> HonestRange(Lookup, c)
    ensures RangeConstraints(Lookup, c) ==> Canonical(Next(c))
  {
    hide ChunkConstraint, SplitLookupChunks;
    forall i | 0 <= i < LIMBS
      ensures ChunkConstraint(c, i) <==> HonestLimb(Lookup, c, i)
      ensures ChunkConstraint(c, i) ==> Next(c)[i] < LimbBase(i)
    {
      ChunkConstraintExactly(c, i);
    }
  }

  /** In `Bits` mode a real row meets the constraints exactly when it is an honest addition of canonical limbs. */
  lemma {:induction false} BitsRowExactly(c: Cells)
    requires |c| == TraceColumns(Bits) && IsReal(c) == 1
    ensures Evaluate(Bits, c) <==> LimbsCanonical(c) && RowAdds(c) && HonestRange(Bits, c)
  {
    hide CarryConstraint, AddConstraint, RowAdds, RangeConstraints, HonestRange;
    IdempotentIsBit(IsReal(c));
    BitModeRange(c);
    if LimbsCanonical(c) {
      AllLimbsAdd(c);
    }
  }

  /**
   In `Lookup` mode only the next accumulator is range-checked.  A real row whose
   inputs are canonical and whose chunks are in the tables meets the constraints
   exactly when it is an honest addition.
   */
  lemma {:induction false} LookupRowExactly(c: Cells)
    requires |c| == TraceColumns(Lookup) && IsReal(c) == 1
    requires Canonical(Acc(c)) && Canonical(Addend(c)) && ChunksInTables(c)
    ensures Evaluate(Lookup, c) <==> RowAdds(c) && HonestRange(Lookup, c)
  {
    hide CarryConstraint, AddConstraint, RangeConstraints, HonestRange, ChunksInTables;
    IdempotentIsBit(IsReal(c));
    LookupModeRange(c);
    if Canonical(Next(c)) {
      AllLimbsAdd(c);
    }
  }

  /** Honest rows meet the constraints of every mode, and their chunks are in the tables. */
  lemma {:induction false} HonestRowEvaluates(mode: RangeCheckMode, c: Cells)
    requires |c| == TraceColumns(mode) && IsReal(c) == 1
    requires Canonical(Acc(c)) && Canonical(Addend(c)) && RowAdds(c) && HonestRange(mode, c)
    ensures Evaluate(mode, c)
    ensures mode == Lookup ==> ChunksInTables(c)
  {
    hide CarryConstraint, AddConstraint, RangeConstraints;
    match mode
    case Off =>
      IdempotentIsBit(IsReal(c));
      AllLimbsAdd(c);
      OffHasNoRange(c);
    case Bits =>
      BitsRowExactly(c);
    case Lookup =>
      HonestChunks(c);
      LookupRowExactly(c);
  }

  lemma {:induction false} OffHasNoRange(c: Cells)
    requires |c| == TraceColumns(Off)
    ensures RangeConstraints(Off, c)
  {
  }

  lemma {:induction false} HonestChunks(c: Cells)
    requires |c| == TraceColumns(Lookup) && Canonical(Next(c)) && HonestRange(Lookup, c)
    ensures ChunksInTables(c)
  {
    hide SplitLookupChunks;
    forall i | 0 <= i < LIMBS ensures Lo(c, i) < LookupBase() && Hi(c, i) < HighSize(i) {
      assert HonestLimb(Lookup, c, i);
      assert Next(c)[i] < LimbBase(i);
    }
  }
}
