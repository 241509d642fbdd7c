/**
 FIPS 202 bit by bit: an independent definition of Keccak-f[1600], of the round
 constants and of the padding, to which the lane-wise and byte-wise versions are
 equal.
 */
module Fips202 {
  import opened Binary
  import opened Keccak
  import opened Shake256

  /** Bit `A[x, y, z]` of a state (section 3.1.2). */
  function A(s: State, x: nat, y: nat, z: nat): bool
    requires x < 5 && y < 5 && z < 64
  {
    s[x + 5 * y][z]
  }

  // ---------------------------------------------------------------- the constants

  /** The register of Algorithm 5. */
  datatype Register = Register(r0: bool, r1: bool, r2: bool, r3: bool, r4: bool, r5: bool, r6: bool, r7: bool)

  /** Steps a to f of Algorithm 5. */
  function Clock(r: Register): Register {
    Register(r.r7, r.r0, r.r1, r.r2, r.r3 != r.r7, r.r4 != r.r7, r.r5 != r.r7, r.r6)
  }

  function Clocked(t: nat): Register {
    if t == 0 then Register(true, false, false, false, false, false, false, false) else Clock(Clocked(t - 1))
  }

  /** `rc(t)`, for the steps below 255 that 24 rounds use. */
  function Rc(t: nat): bool {
    Clocked(t).r0
  }

  /** Bit `z` of the round constant of round `r` (Algorithm 6). */
  predicate RoundConstantBit(r: nat, z: nat) {
    exists j: nat | j <= 6 :: IsRcBit(r, z, j)
  }

  predicate IsRcBit(r: nat, z: nat, j: nat) {
    z == Pow2(j) - 1 && Rc(7 * r + j)
  }

  /** The register before round `r`. */
  function RegisterTable(r: nat): Register {
    match r
    case 0 => Register(true, false, false, false, false, false, false, false)
    case 1 => Register(false, false, false, false, false, false, false, true)
    case 2 => Register(false, false, false, true, true, false, true, true)
    case 3 => Register(false, true, false, true, true, false, false, false)
    case 4 => Register(true, true, true, true, true, false, true, true)
    case 5 => Register(true, false, false, true, false, false, false, false)
    case 6 => Register(true, false, true, false, true, true, false, false)
    case 7 => Register(true, true, true, true, false, false, true, false)
    case 8 => Register(false, true, false, true, false, false, true, true)
    case 9 => Register(false, false, false, false, true, true, true, false)
    case 10 => Register(true, false, false, false, false, false, true, false)
    case 11 => Register(false, false, true, true, false, true, true, true)
    case 12 => Register(true, false, true, false, true, false, true, true)
    case 13 => Register(true, false, true, true, false, false, true, true)
    case 14 => Register(true, true, false, false, false, true, true, false)
    case 15 => Register(true, true, false, true, false, true, false, true)
    case 16 => Register(false, true, false, true, false, true, false, true)
    case 17 => Register(false, true, false, true, false, true, false, false)
    case 18 => Register(false, true, false, false, true, true, true, true)
    case 19 => Register(false, false, false, true, false, true, true, true)
    case 20 => Register(true, true, true, false, true, true, false, false)
    case 21 => Register(false, true, true, true, true, true, false, false)
    case 22 => Register(true, true, false, true, false, false, false, false)
    case 23 => Register(false, false, true, false, false, false, true, false)
    case _ => Register(false, true, true, true, false, false, false, true)
  }

  function Clock7(g: Register): Register {
    Clock(Clock(Clock(Clock(Clock(Clock(Clock(g)))))))
  }

  /** Seven clocks in one, each bit a sum of bits. */
  function Leap(g: Register): Register {
    Register((g.r1 != g.r3) != g.r4,
             (g.r2 != g.r4) != g.r5,
             (g.r3 != g.r5) != g.r6,
             (g.r4 != g.r6) != g.r7,
             (((g.r1 != g.r3) != g.r4) != g.r5) != g.r7,
             (((g.r1 != g.r2) != g.r3) != g.r5) != g.r6,
             ((g.r1 != g.r2) != g.r6) != g.r7,
             ((g.r0 != g.r2) != g.r3) != g.r7)
  }

  lemma {:induction false} LeapIsClock7(g: Register)
    ensures Clock7(g) == Leap(g)
  {
    var g1 := Clock(g);
    var g2 := Clock(g1);
    var g3 := Clock(g2);
    var g4 := Clock(g3);
    var g5 := Clock(g4);
    var g6 := Clock(g5);
    assert Clock7(g) == Clock(g6);
  }

  lemma {:induction false} TableStep(r: nat)
    requires r < 24
    ensures Clock7(RegisterTable(r)) == RegisterTable(r + 1)
  {
    hide Clock7, Clock;
    LeapIsClock7(RegisterTable(r));
    match r
    case 0 => case 1 => case 2 => case 3 => case 4 => case 5 => case 6 => case 7 =>
    case 8 => case 9 => case 10 => case 11 => case 12 => case 13 => case 14 => case 15 =>
    case 16 => case 17 => case 18 => case 19 => case 20 => case 21 => case 22 => case _ =>
  }

  lemma {:induction false} RegisterAt(r: nat)
    requires r <= 24
    ensures Clocked(7 * r) == RegisterTable(r)
  {
    hide Clock7, RegisterTable, Clock, Clocked;
    if r == 0 {
      FirstRegister();
    } else {
      RegisterAt(r - 1);
      SevenClocks(7 * (r - 1));
      TableStep(r - 1);
    }
  }

  lemma {:induction false} FirstRegister()
    ensures Clocked(0) == RegisterTable(0)
  {
  }

  lemma {:induction false} SevenClocks(t: nat)
    ensures Clocked(t + 7) == Clock7(Clocked(t))
  {
    assert Clocked(t + 1) == Clock(Clocked(t));
    assert Clocked(t + 2) == Clock(Clocked(t + 1));
    assert Clocked(t + 3) == Clock(Clocked(t + 2));
    assert Clocked(t + 4) == Clock(Clocked(t + 3));
    assert Clocked(t + 5) == Clock(Clocked(t + 4));
    assert Clocked(t + 6) == Clock(Clocked(t + 5));
  }

  /** The seven bits that a register puts out, at weights `2^(2^j - 1)`. */
  function OutputSum(g: Register): nat {
    Weight(g.r0, 0x1) + Weight(g.r7, 0x2) + Weight(g.r6, 0x8)
      + Weight(g.r5 != g.r7, 0x80) + Weight((g.r4 != g.r6) != g.r7, 0x8000)
      + Weight((g.r3 != g.r5) != g.r6, 0x8000_0000)
      + Weight((g.r2 != g.r4) != g.r5, 0x8000_0000_0000_0000)
  }

  lemma {:induction false} TableSum(r: nat)
    requires r < 24
    ensures RoundConstant(r) == OutputSum(RegisterTable(r))
  {
  }

  lemma {:induction false} RoundOutputs(t: nat)
    ensures var g := Clocked(t);
      && Rc(t) == g.r0 && Rc(t + 1) == g.r7 && Rc(t + 2) == g.r6 && Rc(t + 3) == (g.r5 != g.r7)
      && Rc(t + 4) == ((g.r4 != g.r6) != g.r7) && Rc(t + 5) == ((g.r3 != g.r5) != g.r6)
      && Rc(t + 6) == ((g.r2 != g.r4) != g.r5)
  {
    assert Clocked(t + 1) == Clock(Clocked(t));
    assert Clocked(t + 2) == Clock(Clocked(t + 1));
    assert Clocked(t + 3) == Clock(Clocked(t + 2));
    assert Clocked(t + 4) == Clock(Clocked(t + 3));
    assert Clocked(t + 5) == Clock(Clocked(t + 4));
    assert Clocked(t + 6) == Clock(Clocked(t + 5));
  }

  /** The word of round `r` is the sum of its seven register bits at the positions `2^j - 1`. */
  lemma {:induction false} ConstantIsSum(r: nat)
    requires r < 24
    ensures RoundConstant(r)
         == Weight(Rc(7 * r), 0x1) + Weight(Rc(7 * r + 1), 0x2) + Weight(Rc(7 * r + 2), 0x8)
          + Weight(Rc(7 * r + 3), 0x80) + Weight(Rc(7 * r + 4), 0x8000) + Weight(Rc(7 * r + 5), 0x8000_0000)
          + Weight(Rc(7 * r + 6), 0x8000_0000_0000_0000)
  {
    hide Rc, Clocked, RegisterTable, RoundConstant, Weight;
    RegisterAt(r);
    TableSum(r);
    RoundOutputs(7 * r);
  }

  /** The first `2^j` bits of the constant of round `r`: one register bit at each position `2^i - 1`. */
  function ConstantBits(r: nat, j: nat): (s: seq<bool>)
    ensures |s| == Pow2(j)
  {
    if j == 0 then [Rc(7 * r)] else ConstantBits(r, j - 1) + Falses(Pow2(j - 1) - 1) + [Rc(7 * r + j)]
  }

  lemma {:induction false} ConstantBitAt(r: nat, j: nat, z: nat)
    requires z < Pow2(j)
    ensures ConstantBits(r, j)[z] <==> exists i: nat | i <= j :: IsRcBit(r, z, i)
  {
    hide Rc;
    if j == 0 {
      assert IsRcBit(r, z, 0) <==> Rc(7 * r);
    } else {
      var half := Pow2(j - 1);
      if z < half {
        ConstantBitAt(r, j - 1, z);
        assert !IsRcBit(r, z, j);
      } else {
        forall i: nat | i < j ensures !IsRcBit(r, z, i) {
          Pow2Monotone(i, j - 1);
        }
        assert IsRcBit(r, z, j) <==> z == Pow2(j) - 1 && Rc(7 * r + j);
      }
    }
  }

  lemma {:induction false} ConstantBitsStep(r: nat, j: nat)
    requires j > 0
    ensures BitsValue(ConstantBits(r, j))
         == BitsValue(ConstantBits(r, j - 1)) + Weight(Rc(7 * r + j), Pow2(Pow2(j) - 1))
  {
    hide Rc, Falses;
    var low, zeros := ConstantBits(r, j - 1), Falses(Pow2(j - 1) - 1);
    FalsesAbove(low, |zeros|);
    BitsValueAppend(low + zeros, Rc(7 * r + j));
  }

  lemma {:induction false} ConstantBitsStart(r: nat)
    ensures BitsValue(ConstantBits(r, 0)) == Weight(Rc(7 * r), 1)
  {
    hide Rc;
    assert ConstantBits(r, 0)[1..] == [];
  }

  lemma {:induction false} PowersOfPositions()
    ensures Pow2(1) == 2 && Pow2(2) == 4 && Pow2(3) == 8 && Pow2(4) == 16 && Pow2(5) == 32 && Pow2(6) == 64
    ensures Pow2(7) == 0x80 && Pow2(15) == 0x8000 && Pow2(31) == 0x8000_0000
    ensures Pow2(63) == 0x8000_0000_0000_0000
  {
    assert Pow2(7) == 0x80 && Pow2(8) == 0x100;
    Pow2Add(7, 8);
    Pow2Add(8, 8);
    Pow2Add(15, 16);
    Pow2Add(16, 16);
    Pow2Add(31, 32);
  }

  lemma {:induction false} ConstantBitsValue(r: nat)
    requires r < 24
    ensures BitsOf(RoundConstant(r), 64) == ConstantBits(r, 6)
  {
    hide RoundConstant, Rc, ConstantBits, Pow2, BitsValue, Weight, BitsOf;
    PowersOfPositions();
    ConstantBitsStart(r);
    ConstantBitsStep(r, 1);
    ConstantBitsStep(r, 2);
    ConstantBitsStep(r, 3);
    ConstantBitsStep(r, 4);
    ConstantBitsStep(r, 5);
    ConstantBitsStep(r, 6);
    ConstantIsSum(r);
    BitsOfValue(ConstantBits(r, 6));
  }

  /**
   Section 3.2.5: bit `z` of the word of round `r` is set exactly when `z` is
   `2^j - 1` for some `j <= 6` and the register puts out 1 at step `j + 7r`.
   */
  lemma {:induction false} RoundConstantsAreStandard(r: nat, z: nat)
    requires r < 24 && z < 64
    ensures TestBit(RoundConstant(r), z) <==> RoundConstantBit(r, z)
    ensures BitsOf(RoundConstant(r), 64)[z] <==> RoundConstantBit(r, z)
  {
    hide RoundConstant, Rc, ConstantBits, Pow2, TestBit, BitsOf;
    PowersOfPositions();
    ConstantBitsValue(r);
    ConstantBitAt(r, 6, z);
    BitsOfAt(RoundConstant(r), 64, z);
  }

  // ---------------------------------------------------------------- the permutation

  /** The lane of step `t` of Algorithm 2: from (1, 0) by `(x, y) -> (y, 2x + 3y)`. */
  function Walk(t: nat): (p: (nat, nat))
    ensures p.0 < 5 && p.1 < 5
  {
    if t == 0 then (1, 0) else var (x, y) := Walk(t - 1); (y, (2 * x + 3 * y) % 5)
  }

  function WalkTable(t: nat): (nat, nat) {
    match t
    case 0 => (1, 0) case 1 => (0, 2) case 2 => (2, 1) case 3 => (1, 2) case 4 => (2, 3) case 5 => (3, 3)
    case 6 => (3, 0) case 7 => (0, 1) case 8 => (1, 3) case 9 => (3, 1) case 10 => (1, 4) case 11 => (4, 4)
    case 12 => (4, 0) case 13 => (0, 3) case 14 => (3, 4) case 15 => (4, 3) case 16 => (3, 2) case 17 => (2, 2)
    case 18 => (2, 0) case 19 => (0, 4) case 20 => (4, 2) case 21 => (2, 4) case 22 => (4, 1)
    case _ => (1, 1)
  }

  lemma {:induction false} WalkStep(t: nat)
    requires 0 < t < 24
    ensures WalkTable(t).0 == WalkTable(t - 1).1
    ensures WalkTable(t).1 == (2 * WalkTable(t - 1).0 + 3 * WalkTable(t - 1).1) % 5
  {
    match t - 1
    case 0 => case 1 => case 2 => case 3 => case 4 => case 5 => case 6 => case 7 =>
    case 8 => case 9 => case 10 => case 11 => case 12 => case 13 => case 14 => case 15 =>
    case 16 => case 17 => case 18 => case 19 => case 20 => case 21 => case 22 => case _ =>
  }

  lemma {:induction false} WalkAt(t: nat)
    requires t < 24
    ensures Walk(t) == WalkTable(t)
  {
    hide WalkTable;
    if t == 0 {
      WalkStart();
    } else {
      WalkAt(t - 1);
      WalkStep(t);
    }
  }

  lemma {:induction false} WalkStart()
    ensures WalkTable(0) == (1, 0)
  {
  }

  /** The offset of step `t` of Algorithm 2, before reduction to the lane size. */
  function Triangle(t: nat): nat {
    (t + 1) * (t + 2) / 2
  }

  lemma {:induction false} TriangleStep(t: nat)
    ensures Triangle(t + 1) == Triangle(t) + t + 2
  {
    assert (t + 2) * (t + 3) == (t + 1) * (t + 2) + 2 * (t + 2);
  }

  lemma {:induction false} RotationStep(t: nat)
    requires 0 < t < 24
    ensures Rotc(t) == (Rotc(t - 1) + t + 1) % 64
  {
  }

  lemma {:induction false} TriangleTable(t: nat)
    requires t < 24
    ensures Triangle(t) % 64 == Rotc(t)
  {
    hide Rotc, Triangle;
    if t == 0 {
      FirstTriangle();
    } else {
      TriangleTable(t - 1);
      TriangleStep(t - 1);
      RotationStep(t);
    }
  }

  lemma {:induction false} FirstTriangle()
    ensures Triangle(0) == 1 && Rotc(0) == 1
  {
  }

  lemma {:induction false} OffsetTable(t: nat)
    requires t < 24
    ensures Offset(WalkTable(t).0 + 5 * WalkTable(t).1) == Rotc(t)
  {
    match t
    case 0 => case 1 => case 2 => case 3 => case 4 => case 5 => case 6 => case 7 =>
    case 8 => case 9 => case 10 => case 11 => case 12 => case 13 => case 14 => case 15 =>
    case 16 => case 17 => case 18 => case 19 => case 20 => case 21 => case 22 => case _ =>
  }

  /** The table of lane offsets is the one that the walk of Algorithm 2 produces. */
  lemma {:induction false} OffsetsFollowWalk(t: nat)
    requires t < 24
    ensures Offset(Walk(t).0 + 5 * Walk(t).1) == Triangle(t) % 64
  {
    hide *;
    WalkAt(t);
    OffsetTable(t);
    TriangleTable(t);
  }

  function StepTable(i: nat): nat {
    match i
    case 1 => 0 case 2 => 18 case 3 => 6 case 4 => 12 case 5 => 7 case 6 => 23 case 7 => 2 case 8 => 9
    case 9 => 22 case 10 => 1 case 11 => 3 case 12 => 17 case 13 => 16 case 14 => 20 case 15 => 13 case 16 => 8
    case 17 => 4 case 18 => 5 case 19 => 15 case 20 => 19 case 21 => 10 case 22 => 21 case 23 => 14
    case _ => 11
  }

  /** The walk reaches every lane but (0, 0). */
  lemma {:induction false} WalkCovers(x: nat, y: nat)
    requires x < 5 && y < 5 && x + y > 0
    ensures StepTable(x + 5 * y) < 24 && Walk(StepTable(x + 5 * y)) == (x, y)
  {
    hide Walk;
    var i := x + 5 * y;
    WalkAt(StepTable(i));
    assert i % 5 == x && i / 5 == y;
    match i
    case 1 => case 2 => case 3 => case 4 => case 5 => case 6 => case 7 => case 8 =>
    case 9 => case 10 => case 11 => case 12 => case 13 => case 14 => case 15 => case 16 =>
    case 17 => case 18 => case 19 => case 20 => case 21 => case 22 => case 23 => case _ =>
  }

  /** The step of Algorithm 2 that rotates lane `(x, y)`. */
  ghost function RhoStep(x: nat, y: nat): (t: nat)
    requires x < 5 && y < 5 && x + y > 0
    ensures t < 24 && Walk(t) == (x, y)
  {
    WalkCovers(x, y);
    var t: nat :| t < 24 && Walk(t) == (x, y);
    t
  }

  /** Section 3.2.2: how far lane `(x, y)` is rotated. */
  ghost function RhoOffset(x: nat, y: nat): nat
    requires x < 5 && y < 5
  {
    if x + y == 0 then 0 else Triangle(RhoStep(x, y))
  }

  /** Bit `(x, y, z)` of the state after `n` rounds. */
  ghost function KeccakBit(s: State, n: nat, x: nat, y: nat, z: nat): bool
    requires x < 5 && y < 5 && z < 64
    decreases n, 0
  {
    if n == 0 then A(s, x, y, z)
    else ChiBit(s, n - 1, x, y, z) != (x == 0 && y == 0 && RoundConstantBit(n - 1, z))
  }

  /** Section 3.2.1, in round `n`: the parity of column `(x, z)`. */
  ghost function ColumnBit(s: State, n: nat, x: nat, z: nat): bool
    requires x < 5 && z < 64
    decreases n, 1
  {
    (((KeccakBit(s, n, x, 0, z) != KeccakBit(s, n, x, 1, z)) != KeccakBit(s, n, x, 2, z))
      != KeccakBit(s, n, x, 3, z)) != KeccakBit(s, n, x, 4, z)
  }

  ghost function ThetaBit(s: State, n: nat, x: nat, y: nat, z: nat): bool
    requires x < 5 && y < 5 && z < 64
    decreases n, 2
  {
    (KeccakBit(s, n, x, y, z) != ColumnBit(s, n, (x + 4) % 5, z)) != ColumnBit(s, n, (x + 1) % 5, (z - 1) % 64)
  }

  /** Section 3.2.2. */
  ghost function RhoBit(s: State, n: nat, x: nat, y: nat, z: nat): bool
    requires x < 5 && y < 5 && z < 64
    decreases n, 3
  {
    ThetaBit(s, n, x, y, (z - RhoOffset(x, y)) % 64)
  }

  /** Section 3.2.3. */
  ghost function PiBit(s: State, n: nat, x: nat, y: nat, z: nat): bool
    requires x < 5 && y < 5 && z < 64
    decreases n, 4
  {
    RhoBit(s, n, (x + 3 * y) % 5, x, z)
  }

  /** Section 3.2.4. */
  ghost function ChiBit(s: State, n: nat, x: nat, y: nat, z: nat): bool
    requires x < 5 && y < 5 && z < 64
    decreases n, 5
  {
    PiBit(s, n, x, y, z) != (!PiBit(s, n, (x + 1) % 5, y, z) && PiBit(s, n, (x + 2) % 5, y, z))
  }

  predicate Column(s: State, x: nat, z: nat)
    requires x < 5 && z < 64
  {
    (((A(s, x, 0, z) != A(s, x, 1, z)) != A(s, x, 2, z)) != A(s, x, 3, z)) != A(s, x, 4, z)
  }

  lemma {:induction false} LaneIndex(x: nat, y: nat)
    requires x < 5 && y < 5
    ensures x + 5 * y < 25 && (x + 5 * y) % 5 == x && (x + 5 * y) / 5 == y
  {
  }

  lemma {:induction false} ParityLane(s: State, x: nat, z: nat)
    requires x < 5 && z < 64
    ensures C(s, x)[z] == Column(s, x, z)
  {
  }

  /** Section 3.2.1 by coordinates. */
  lemma {:induction false} ThetaByBits(s: State, x: nat, y: nat, z: nat)
    requires x < 5 && y < 5 && z < 64
    ensures A(Theta(s), x, y, z)
         == ((A(s, x, y, z) != Column(s, (x + 4) % 5, z)) != Column(s, (x + 1) % 5, (z - 1) % 64))
  {
    hide Column, C;
    LaneIndex(x, y);
    ParityLane(s, (x + 4) % 5, z);
    ParityLane(s, (x + 1) % 5, (z - 1) % 64);
    assert Theta(s)[x + 5 * y] == ThetaLane(s, x + 5 * y);
    assert D(s, x)[z] == (C(s, (x + 4) % 5)[z] != C(s, (x + 1) % 5)[(z - 1) % 64]);
  }

  lemma {:induction false} RotationModulo(z: int, k: int)
    ensures (z - k) % 64 == (z - k % 64) % 64
  {
    var q := (z - k % 64) / 64;
    DivModUnique(z - k, 64, q - k / 64, (z - k % 64) % 64);
  }

  lemma {:induction false} OffsetIsStandard(x: nat, y: nat)
    requires x < 5 && y < 5
    ensures Offset(x + 5 * y) == RhoOffset(x, y) % 64
  {
    hide Offset, Triangle, Walk;
    if x + y == 0 {
      OffsetOfOrigin();
    } else {
      OffsetsFollowWalk(RhoStep(x, y));
    }
  }

  lemma {:induction false} OffsetOfOrigin()
    ensures Offset(0) == 0
  {
  }

  /** Sections 3.2.2 and 3.2.3 by coordinates. */
  lemma {:induction false} RhoPiByBits(s: State, x: nat, y: nat, z: nat)
    requires x < 5 && y < 5 && z < 64
    ensures A(RhoPi(s), x, y, z) == A(s, (x + 3 * y) % 5, x, (z - RhoOffset((x + 3 * y) % 5, x)) % 64)
  {
    hide Offset, RhoOffset;
    LaneIndex(x, y);
    var u := (x + 3 * y) % 5;
    OffsetIsStandard(u, x);
    RotationModulo(z, RhoOffset(u, x));
    assert RhoPi(s)[x + 5 * y] == RhoPiLane(s, x + 5 * y);
    assert PiSource(x + 5 * y) == u + 5 * x;
  }

  /** Section 3.2.4 by coordinates. */
  lemma {:induction false} ChiByBits(s: State, x: nat, y: nat, z: nat)
    requires x < 5 && y < 5 && z < 64
    ensures A(Chi(s), x, y, z) == (A(s, x, y, z) != (!A(s, (x + 1) % 5, y, z) && A(s, (x + 2) % 5, y, z)))
  {
    LaneIndex(x, y);
    var row := Row(s, y);
    assert Chi(s)[x + 5 * y] == ChiLane(row, x);
    assert row[x] == s[x + 5 * y] && row[(x + 1) % 5] == s[(x + 1) % 5 + 5 * y]
        && row[(x + 2) % 5] == s[(x + 2) % 5 + 5 * y];
  }

  /** Section 3.2.5 by coordinates. */
  lemma {:induction false} IotaByBits(s: State, r: nat, x: nat, y: nat, z: nat)
    requires r < 24 && x < 5 && y < 5 && z < 64
    ensures A(Iota(s, BitsOf(RoundConstant(r), 64)), x, y, z)
         == (A(s, x, y, z) != (x == 0 && y == 0 && RoundConstantBit(r, z)))
  {
    hide RoundConstant, RoundConstantBit, BitsOf;
    RoundConstantsAreStandard(r, z);
  }

  lemma {:induction false} ColumnsAgree(s: State, n: nat, q: State, x: nat, z: nat)
    requires x < 5 && z < 64
    requires forall y: nat | y < 5 :: A(q, x, y, z) == KeccakBit(s, n, x, y, z)
    ensures Column(q, x, z) == ColumnBit(s, n, x, z)
  {
    hide A, KeccakBit;
  }

  /** What round `n` does to one bit, when the state before it is the standard one. */
  lemma {:induction false} RoundByBits(s: State, n: nat, q: State, x: nat, y: nat, z: nat)
    requires n < 24 && x < 5 && y < 5 && z < 64
    requires forall u: nat, v: nat, w: nat | u < 5 && v < 5 && w < 64 :: A(q, u, v, w) == KeccakBit(s, n, u, v, w)
    ensures A(Round(q, n), x, y, z) == KeccakBit(s, n + 1, x, y, z)
  {
    hide A, KeccakBit, Theta, RhoPi, Chi, Iota, RoundConstantBit, RoundConstant, RhoOffset, Column, ColumnBit, BitsOf;
    var t, p := Theta(q), RhoPi(Theta(q));
    forall u: nat, v: nat, w: nat | u < 5 && v < 5 && w < 64 ensures A(t, u, v, w) == ThetaBit(s, n, u, v, w) {
      ThetaByBits(q, u, v, w);
      ColumnsAgree(s, n, q, (u + 4) % 5, w);
      ColumnsAgree(s, n, q, (u + 1) % 5, (w - 1) % 64);
    }
    hide ThetaBit;
    forall u: nat, v: nat, w: nat | u < 5 && v < 5 && w < 64 ensures A(p, u, v, w) == PiBit(s, n, u, v, w) {
      RhoPiByBits(t, u, v, w);
    }
    hide PiBit;
    ChiByBits(p, x, y, z);
    IotaByBits(Chi(p), n, x, y, z);
    KeccakBitStep(s, n, x, y, z);
  }

  lemma {:induction false} KeccakBitStep(s: State, n: nat, x: nat, y: nat, z: nat)
    requires x < 5 && y < 5 && z < 64
    ensures KeccakBit(s, n + 1, x, y, z) == (ChiBit(s, n, x, y, z) != (x == 0 && y == 0 && RoundConstantBit(n, z)))
  {
    hide ChiBit, RoundConstantBit;
  }

  /** The lane-wise rounds are the standard's, bit for bit. */
  lemma {:induction false} RoundsAreStandard(s: State, n: nat, x: nat, y: nat, z: nat)
    requires n <= 24 && x < 5 && y < 5 && z < 64
    ensures A(Rounds(s, n), x, y, z) == KeccakBit(s, n, x, y, z)
    decreases n
  {
    hide Round, A, ChiBit, RoundConstantBit;
    if n > 0 {
      var m, before := n - 1, Rounds(s, n - 1);
      forall u: nat, v: nat, w: nat | u < 5 && v < 5 && w < 64 ensures A(before, u, v, w) == KeccakBit(s, m, u, v, w) {
        RoundsAreStandard(s, m, u, v, w);
      }
      RoundByBits(s, m, before, x, y, z);
    }
  }

  /** Keccak-f[1600] as the implementation computes it is the permutation that FIPS 202 defines on bits. */
  lemma {:induction false} KeccakIsStandard(s: State, x: nat, y: nat, z: nat)
    requires x < 5 && y < 5 && z < 64
    ensures A(KeccakF(s), x, y, z) == KeccakBit(s, 24, x, y, z)
  {
    RoundsAreStandard(s, 24, x, y, z);
  }

  // ---------------------------------------------------------------- padding and the sponge

  /** The bits of a byte string, least significant first in each byte (section B.1). */
  function StringBits(bytes: seq<Byte>): (s: seq<bool>)
    ensures |s| == 8 * |bytes|
  {
    seq(8 * |bytes|, z requires 0 <= z < 8 * |bytes| => TestBit(bytes[z / 8], z % 8))
  }

  /** Section 5.1: `1`, then the zeros that fill up to a multiple of the rate, then `1`. */
  function Pad101(rate: nat, length: int): seq<bool>
    requires rate > 0
  {
    [true] + Falses((-length - 2) % rate) + [true]
  }

  lemma {:induction false} StringBitsConcat(a: seq<Byte>, b: seq<Byte>)
    ensures StringBits(a + b) == StringBits(a) + StringBits(b)
  {
    hide TestBit;
    var l, r := StringBits(a + b), StringBits(a) + StringBits(b);
    forall z | 0 <= z < 8 * |a + b| ensures l[z] == r[z] {
      if z >= 8 * |a| {
        assert z / 8 - |a| == (z - 8 * |a|) / 8 && z % 8 == (z - 8 * |a|) % 8;
      }
    }
  }

  lemma {:induction false} ZeroBits(n: nat)
    ensures StringBits(Zeros(n)) == Falses(8 * n)
  {
    hide Pow2;
    forall z | 0 <= z < 8 * n ensures !TestBit(Zeros(n)[z / 8], z % 8) {
      ZeroShifted(Pow2(z % 8));
    }
  }

  lemma {:induction false} ZeroShifted(p: nat)
    requires p > 0
    ensures (0 / p) % 2 == 0
  {
  }

  lemma {:induction false} OneByteBits(b: Byte)
    ensures StringBits([b]) == BitsOf(b, 8)
  {
    hide TestBit;
    forall z | 0 <= z < 8 ensures StringBits([b])[z] == BitsOf(b, 8)[z] {
      BitsOfAt(b, 8, z);
    }
  }

  lemma {:induction false} PaddingBytes()
    ensures BitsOf(0x1f, 8) == [true, true, true, true, true] + Falses(3)
    ensures BitsOf(0x80, 8) == Falses(7) + [true]
    ensures BitsOf(0x9f, 8) == [true, true, true, true, true] + Falses(2) + [true]
  {
    hide BitsOf;
    EightBits(true, true, true, true, true, false, false, false);
    EightBits(false, false, false, false, false, false, false, true);
    EightBits(true, true, true, true, true, false, false, true);
  }

  lemma {:induction false} FillLength(n: nat)
    ensures (-(8 * n + 4) - 2) % 1088 == 8 * (RATE - n % RATE) - 6
  {
    var q, r := n / RATE, n % RATE;
    DivModUnique(-(8 * n + 4) - 2, 1088, -q - 1, 8 * (RATE - r) - 6);
  }

  lemma {:induction false} ShortPad(x: seq<bool>)
    ensures x + ([true, true, true, true, true] + Falses(2) + [true])
         == x + [true, true, true, true] + ([true] + Falses(2) + [true])
  {
  }

  lemma {:induction false} LongPad(x: seq<bool>, n: nat)
    ensures x + ([true, true, true, true, true] + Falses(3)) + Falses(n) + (Falses(7) + [true])
         == x + [true, true, true, true] + ([true] + Falses(n + 10) + [true])
  {
    assert Falses(n + 10) == Falses(3) + Falses(n) + Falses(7);
  }

  /** Sections 6.2 and 5.1: the padded message is the input, the suffix 1111, and pad10*1 to the rate of 1088 bits. */
  lemma {:induction false} PadIsStandard(input: seq<Byte>)
    ensures StringBits(Pad(input))
         == StringBits(input) + [true, true, true, true] + Pad101(1088, 8 * |input| + 4)
  {
    hide StringBits, Falses, BitsOf;
    var pad := RATE - |input| % RATE;
    FillLength(|input|);
    PaddingBytes();
    if pad == 1 {
      StringBitsConcat(input, [0x9f]);
      OneByteBits(0x9f);
      ShortPad(StringBits(input));
    } else {
      StringBitsConcat(input + [0x1f] + Zeros(pad - 2), [0x80]);
      StringBitsConcat(input + [0x1f], Zeros(pad - 2));
      StringBitsConcat(input, [0x1f]);
      OneByteBits(0x1f);
      OneByteBits(0x80);
      ZeroBits(pad - 2);
      LongPad(StringBits(input), 8 * (pad - 2));
    }
  }

  /** The 1600 bits of a state as one string (section 3.1.3). */
  function StateBits(s: State): (b: seq<bool>)
    ensures |b| == 1600
  {
    seq(1600, i requires 0 <= i < 1600 => A(s, i / 64 % 5, i / 64 / 5, i % 64))
  }

  lemma {:induction false} StateBitAt(s: State, i: nat)
    requires i < 1600
    ensures StateBits(s)[i] == s[i / 64][i % 64]
  {
    assert i / 64 % 5 + 5 * (i / 64 / 5) == i / 64;
  }

  /** Mixing in a block is the exclusive or of its bits with the first 1088 of the state. */
  lemma {:induction false} MixIsXor(s: State, block: seq<Byte>, i: nat)
    requires |block| == RATE && i < 1600
    ensures StateBits(MixBlock(s, block))[i] == (StateBits(s)[i] != (i < 1088 && StringBits(block)[i]))
  {
    hide TestBit, StateBits;
    StateBitAt(s, i);
    StateBitAt(MixBlock(s, block), i);
    var l, z := i / 64, i % 64;
    assert MixBlock(s, block)[l] == MixedLane(s, block, l);
    if i < 1088 {
      assert 8 * l + z / 8 == i / 8 && z % 8 == i % 8;
      assert block[8 * l..8 * l + 8][z / 8] == block[i / 8];
    }
  }

  lemma {:induction false} ByteBitsAt(bits: seq<bool>, j: nat)
    requires |bits| == 8 && j < 8
    ensures TestBit(BitsValue(bits), j) == bits[j]
  {
    hide TestBit;
    BitsOfValue(bits);
    BitsOfAt(BitsValue(bits), 8, j);
  }

  /** The bytes that are squeezed out are the first 1088 bits of the state. */
  lemma {:induction false} RateByteBits(s: State, i: nat, j: nat)
    requires i < RATE && j < 8
    ensures TestBit(RateByte(s, i), j) == StateBits(s)[8 * i + j]
  {
    hide TestBit, StateBits, BitsValue;
    StateBitAt(s, 8 * i + j);
    var k := i % 8;
    ByteBitsAt(s[i / 8][8 * k..8 * k + 8], j);
    assert (8 * i + j) / 64 == i / 8 && (8 * i + j) % 64 == 8 * k + j;
  }

  lemma {:induction false} ByteOfBits(a: Byte, b: Byte)
    requires forall j: nat | j < 8 :: TestBit(a, j) == TestBit(b, j)
    ensures a == b
  {
    hide TestBit, BitsOf, BitsValue;
    forall j | 0 <= j < 8 ensures BitsOf(a, 8)[j] == BitsOf(b, 8)[j] {
      BitsOfAt(a, 8, j);
      BitsOfAt(b, 8, j);
    }
    assert BitsOf(a, 8) == BitsOf(b, 8);
    ByteValue(a);
    ByteValue(b);
  }

  /** Squeezing a block that was mixed into the zero state returns the block. */
  lemma {:induction false} SqueezeReturnsBlock(block: seq<Byte>, i: nat)
    requires |block| == RATE && i < RATE
    ensures RateByte(MixBlock(ZeroState(), block), i) == block[i]
  {
    hide TestBit, StateBits, RateByte, MixBlock;
    var s := MixBlock(ZeroState(), block);
    forall j: nat | j < 8 ensures TestBit(RateByte(s, i), j) == TestBit(block[i], j) {
      RateByteBits(s, i, j);
      MixIsXor(ZeroState(), block, 8 * i + j);
      StateBitAt(ZeroState(), 8 * i + j);
      assert StringBits(block)[8 * i + j] == TestBit(block[i], j);
    }
    ByteOfBits(RateByte(s, i), block[i]);
  }

  /** Algorithm 8, steps 5 and 6: the blocks are mixed in and permuted from the first to the last. */
  lemma {:induction false} LastBlockAbsorbed(s: State, msg: seq<Byte>, block: seq<Byte>)
    requires |msg| % RATE == 0 && |block| == RATE
    ensures Absorb(s, msg + block) == KeccakF(MixBlock(Absorb(s, msg), block))
    decreases |msg|
  {
    hide KeccakF, MixBlock;
    if msg == [] {
      assert msg + block == block && block[..RATE] == block && block[RATE..] == [];
    } else {
      assert (msg + block)[..RATE] == msg[..RATE] && (msg + block)[RATE..] == msg[RATE..] + block;
      LastBlockAbsorbed(KeccakF(MixBlock(s, msg[..RATE])), msg[RATE..], block);
    }
  }

  /** Algorithm 8, steps 7 to 10: a rate of bytes comes out, then the state is permuted. */
  lemma {:induction false} StreamIsSqueezed(s: State, k: nat)
    ensures k < RATE ==> StreamByte(s, k) == RateByte(s, k)
    ensures StreamByte(s, k + RATE) == StreamByte(KeccakF(s), k)
  {
    hide KeccakF, RateByte;
    assert (k + RATE) / RATE == k / RATE + 1 && (k + RATE) % RATE == k % RATE;
    PermutedShift(s, k / RATE);
  }

  lemma {:induction false} PermutedShift(s: State, n: nat)
    ensures Permuted(s, n + 1) == Permuted(KeccakF(s), n)
  {
    hide KeccakF;
    if n > 0 {
      PermutedShift(s, n - 1);
    }
  }
}
