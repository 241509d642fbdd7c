/**
 256-bit integers as nine limbs, eight of 29 bits and a top one of 24: the limb
 arithmetic of the native AIR's witness generator.
 */
module Limbs {
  import opened Binary

  const LIMBS: nat := 9
  const LIMB_BITS: nat := 29
  const TOP_LIMB_BITS: nat := 256 - LIMB_BITS * (LIMBS - 1)
  const LOOKUP_CHUNK_BITS: nat := 18

  type U32 = x: nat | x < 0x1_0000_0000

  type LimbArray = s: seq<U32> | |s| == 9 witness [0, 0, 0, 0, 0, 0, 0, 0, 0]

  function LimbBits(i: nat): nat {
    if i + 1 == LIMBS then TOP_LIMB_BITS else LIMB_BITS
  }

  /** `1 << limb_bits(i)` */
  function LimbBase(i: nat): nat {
    if i + 1 == LIMBS then 0x100_0000 else 0x2000_0000
  }

  /** `v` units of limb `i + 1`, in units of limb `i`. */
  function Above(i: nat, v: nat): nat {
    LimbBase(i) * v
  }

  /** The product of the bases of limbs `i` and above. */
  function Room(i: nat): (r: nat)
    requires i <= LIMBS
    ensures r > 0
    decreases LIMBS - i
  {
    if i == LIMBS then 1 else Above(i, Room(i + 1))
  }

  /** The number that limbs `i` and above stand for, in units of limb `i`. */
  function ValueFrom(s: LimbArray, i: nat): nat
    requires i <= LIMBS
    decreases LIMBS - i
  {
    if i == LIMBS then 0 else s[i] + Above(i, ValueFrom(s, i + 1))
  }

  function LimbsValue(s: LimbArray): nat {
    ValueFrom(s, 0)
  }

  predicate Canonical(s: LimbArray) {
    forall i | 0 <= i < LIMBS :: s[i] < LimbBase(i)
  }

  /** `v` with the limbs below `i` shifted out. */
  function Shifted(v: nat, i: nat): nat {
    if i == 0 then v else Shifted(v, i - 1) / LimbBase(i - 1)
  }

  function LimbOf(v: nat, i: nat): U32 {
    Shifted(v, i) % LimbBase(i)
  }

  function LimbsOf(v: nat): (s: LimbArray)
    ensures Canonical(s)
  {
    seq(9, i requires 0 <= i < 9 => LimbOf(v, i))
  }

  /** The carry into limb `i` of the sum. */
  function CarryIn(a: LimbArray, b: LimbArray, i: nat): (c: U32)
    requires i <= LIMBS
    ensures c < 0x1_0000
  {
    if i == 0 then 0 else (a[i - 1] + b[i - 1] + CarryIn(a, b, i - 1)) / LimbBase(i - 1)
  }

  function SumLimb(a: LimbArray, b: LimbArray, i: nat): U32
    requires i < LIMBS
  {
    (a[i] + b[i] + CarryIn(a, b, i)) % LimbBase(i)
  }

  function SumLimbs(a: LimbArray, b: LimbArray): (s: LimbArray)
    ensures Canonical(s)
  {
    seq(9, i requires 0 <= i < 9 => SumLimb(a, b, i))
  }

  function Carries(a: LimbArray, b: LimbArray): LimbArray {
    seq(9, i requires 0 <= i < 9 => CarryIn(a, b, i + 1))
  }

  /** The accumulator after `k` additions of `y` to `x`. */
  function Accumulated(x: LimbArray, y: LimbArray, k: nat): (s: LimbArray)
    ensures Canonical(x) ==> Canonical(s)
  {
    if k == 0 then x else SumLimbs(Accumulated(x, y, k - 1), y)
  }

  lemma {:induction false} LimbBaseIsShift(i: nat)
    ensures LimbBase(i) == Pow2(LimbBits(i))
  {
    hide Pow2;
    Pow2Of12();
    Pow2Add(12, 12);
    Pow2Add(5, 24);
  }

  lemma {:induction false} Pow2Of12()
    ensures Pow2(12) == 4096 && Pow2(5) == 32 && Pow2(1) == 2
  {
  }

  lemma {:induction false} RoomIsPow2()
    ensures Room(0) == Pow2(256)
  {
    RoomBits(8);
    RoomBits(7);
    RoomBits(6);
    RoomBits(5);
    RoomBits(4);
    RoomBits(3);
    RoomBits(2);
    RoomBits(1);
    RoomBits(0);
  }

  lemma {:induction false} RoomBits(i: nat)
    requires i < LIMBS
    requires i < 8 ==> Room(i + 1) == Pow2(256 - 29 * (i + 1))
    ensures Room(i) == Pow2(256 - 29 * i)
  {
    hide Pow2;
    LimbBaseIsShift(i);
    if i < 8 {
      Pow2Add(29, 256 - 29 * (i + 1));
    }
  }

  lemma {:induction false} ValueFromStep(s: LimbArray, i: nat)
    requires i < LIMBS
    ensures ValueFrom(s, i) == s[i] + (if i == 8 then 0 else Shl(ValueFrom(s, i + 1), 29))
  {
    hide Pow2;
    LimbBaseIsShift(i);
    if i == 8 {
      assert ValueFrom(s, 9) == 0;
      assert Above(8, 0) == 0;
    }
  }

  /** The number that the limbs from `i` on stand for, as weights: limb `i + k` counts `2^(29k)`. */
  function WeightedSum(s: LimbArray, i: nat): nat
    requires i <= LIMBS
    decreases LIMBS - i
  {
    if i == LIMBS then 0 else Shl(s[i], 29 * i) + WeightedSum(s, i + 1)
  }

  /** Limb `i` is worth `2^(29 i)`: eight limbs of 29 bits below the top one. */
  lemma {:induction false} ValueIsWeightedSum(s: LimbArray)
    ensures LimbsValue(s) == WeightedSum(s, 0)
  {
    ShiftedWeights(s, 0);
    ShlStep(ValueFrom(s, 0), 0);
  }

  lemma {:induction false} ShiftedWeights(s: LimbArray, i: nat)
    requires i <= LIMBS
    ensures Shl(ValueFrom(s, i), 29 * i) == WeightedSum(s, i)
    decreases LIMBS - i
  {
    hide ValueFrom, Shl;
    if i == LIMBS {
      NothingAbove(s);
    } else {
      ShiftedWeights(s, i + 1);
      ValueFromStep(s, i);
      if i == 8 {
        NothingAbove(s);
      } else {
        ShlSum(s[i], ValueFrom(s, i + 1), 29, 29 * i);
      }
    }
  }

  lemma {:induction false} NothingAbove(s: LimbArray)
    ensures ValueFrom(s, 9) == 0 && Shl(0, 261) == 0 && WeightedSum(s, 9) == 0
  {
  }

  lemma {:induction false} ShlSum(a: nat, b: nat, j: nat, k: nat)
    ensures Shl(a + Shl(b, j), k) == Shl(a, k) + Shl(b, j + k)
  {
    hide Pow2;
    Pow2Add(j, k);
    Distribute(a, b, Pow2(j), Pow2(k));
  }

  lemma {:induction false} Distribute(a: int, b: int, p: int, q: int)
    ensures (a + b * p) * q == a * q + b * (p * q)
  {
    assert (b * p) * q == b * (p * q);
  }

  lemma {:induction false} DivDiv(v: nat, a: nat, b: nat)
    requires a > 0 && b > 0
    ensures a * b > 0 && v / (a * b) == (v / a) / b
  {
    var h := v / a;
    var q, r := h / b, h % b;
    assert v == (v % a + a * r) + (a * b) * q by {
      assert h == r + b * q;
      assert a * (r + b * q) == a * r + (a * b) * q;
    }
    RemainderBound(v % a, r, a, b);
    DivModUnique(v, a * b, q, v % a + a * r);
  }

  lemma {:induction false} RemainderBound(x: int, r: int, a: int, b: int)
    requires 0 <= x < a && 0 <= r < b
    ensures 0 <= x + a * r < a * b
  {
    assert a * b == a * r + a + a * (b - r - 1);
    ProductNonNegative(a, b - r - 1);
    ProductNonNegative(a, r);
  }

  lemma {:induction false} ProductNonNegative(a: int, b: int)
    requires a >= 0 && b >= 0
    ensures a * b >= 0
  {
  }

  lemma {:induction false} ModProduct(v: nat, b: nat, m: nat)
    requires b > 0 && m > 0
    ensures b * m > 0 && v % (b * m) == v % b + b * ((v / b) % m)
  {
    var h := v / b;
    var q, r := h / m, h % m;
    assert v == (v % b + b * r) + (b * m) * q by {
      assert h == r + m * q;
      assert b * (r + m * q) == b * r + (b * m) * q;
    }
    RemainderBound(v % b, r, b, m);
    DivModUnique(v, b * m, q, v % b + b * r);
  }

  lemma {:induction false} LimbsOfValueFrom(v: nat, i: nat)
    requires i <= LIMBS
    ensures ValueFrom(LimbsOf(v), i) == Shifted(v, i) % Room(i)
    decreases LIMBS - i
  {
    if i < LIMBS {
      LimbsOfValueFrom(v, i + 1);
      assert Shifted(v, i + 1) == Shifted(v, i) / LimbBase(i);
      ModProduct(Shifted(v, i), LimbBase(i), Room(i + 1));
    }
  }

  /** Cutting into limbs keeps a number modulo `2^256`. */
  lemma {:induction false} LimbsKeepValue(v: nat)
    ensures LimbsValue(LimbsOf(v)) == v % Pow2(256)
  {
    LimbsOfValueFrom(v, 0);
    RoomIsPow2();
  }

  lemma {:induction false} ShiftedValue(s: LimbArray, i: nat)
    requires Canonical(s) && i <= LIMBS
    ensures Shifted(LimbsValue(s), i) == ValueFrom(s, i)
  {
    if i > 0 {
      ShiftedValue(s, i - 1);
      DivModUnique(ValueFrom(s, i - 1), LimbBase(i - 1), ValueFrom(s, i), s[i - 1]);
    }
  }

  /** Canonical limbs are the limbs of their value. */
  lemma {:induction false} CanonicalRoundTrip(s: LimbArray)
    requires Canonical(s)
    ensures LimbsOf(LimbsValue(s)) == s
  {
    hide LimbsValue, Shifted, ValueFrom;
    forall i | 0 <= i < LIMBS ensures LimbOf(LimbsValue(s), i) == s[i] {
      ShiftedValue(s, i);
      TopOfValue(s, i);
    }
  }

  lemma {:induction false} TopOfValue(s: LimbArray, i: nat)
    requires Canonical(s) && i < LIMBS
    ensures ValueFrom(s, i) % LimbBase(i) == s[i]
  {
    DivModUnique(ValueFrom(s, i), LimbBase(i), ValueFrom(s, i + 1), s[i]);
  }

  /** Two numbers have the same limbs exactly when they agree modulo `2^256`. */
  lemma {:induction false} SameLimbs(u: nat, v: nat)
    ensures LimbsOf(u) == LimbsOf(v) <==> u % Pow2(256) == v % Pow2(256)
  {
    hide LimbsOf, LimbsValue, Pow2;
    LimbsKeepValue(u);
    LimbsKeepValue(v);
    CanonicalRoundTrip(LimbsOf(u));
    CanonicalRoundTrip(LimbsOf(v));
  }

  lemma {:induction false} SumValueFrom(a: LimbArray, b: LimbArray, i: nat)
    requires i <= LIMBS
    ensures ValueFrom(SumLimbs(a, b), i) + Overflow(Room(i), CarryIn(a, b, LIMBS))
         == ValueFrom(a, i) + ValueFrom(b, i) + CarryIn(a, b, i)
    decreases LIMBS - i
  {
    hide Above, LimbBase, CarryIn, SumLimb, Overflow;
    if i < LIMBS {
      SumValueFrom(a, b, i + 1);
      var sum := SumLimbs(a, b);
      assert sum[i] == SumLimb(a, b, i);
      SumValueStep(a, b, i, ValueFrom(sum, i + 1), Room(i + 1),
                   CarryIn(a, b, LIMBS), ValueFrom(a, i + 1), ValueFrom(b, i + 1));
    } else {
      assert Overflow(Room(i), CarryIn(a, b, LIMBS)) == CarryIn(a, b, LIMBS) by {
        OverflowOne(CarryIn(a, b, LIMBS));
      }
    }
  }

  /** The worth of a carry `c` out of the top limb, in units of the limb that has `room` above it. */
  function Overflow(room: nat, c: nat): nat {
    room * c
  }

  lemma {:induction false} OverflowOne(c: nat)
    ensures Overflow(1, c) == c
  {
  }

  lemma {:induction false} SumValueStep(a: LimbArray, b: LimbArray, i: nat, s: nat, room: nat, top: nat, u: nat, v: nat)
    requires i < LIMBS && s + Overflow(room, top) == u + v + CarryIn(a, b, i + 1)
    ensures SumLimb(a, b, i) + Above(i, s) + Overflow(Above(i, room), top)
         == (a[i] + Above(i, u)) + (b[i] + Above(i, v)) + CarryIn(a, b, i)
  {
    var p, t := LimbBase(i), a[i] + b[i] + CarryIn(a, b, i);
    assert CarryIn(a, b, i + 1) == t / p;
    DivisionStep(p, t, s, room, top, u, v);
  }

  lemma {:induction false} DivisionStep(p: int, t: int, s: int, room: int, top: int, u: int, v: int)
    requires p > 0 && s + room * top == u + v + t / p
    ensures t % p + p * s + (p * room) * top == p * u + p * v + t
  {
    assert p * (s + room * top) == p * s + (p * room) * top;
    assert p * (u + v + t / p) == p * u + p * v + p * (t / p);
    assert t == p * (t / p) + t % p;
  }

  lemma {:induction false} CarryIsBit(a: LimbArray, b: LimbArray, i: nat)
    requires Canonical(a) && Canonical(b) && i <= LIMBS
    ensures CarryIn(a, b, i) <= 1
  {
    if i > 0 {
      CarryIsBit(a, b, i - 1);
    }
  }

  lemma {:induction false} CarriesAreBits(a: LimbArray, b: LimbArray)
    ensures Canonical(a) && Canonical(b) ==> forall i | 0 <= i < LIMBS :: Carries(a, b)[i] <= 1
  {
    hide Canonical, CarryIn;
    if Canonical(a) && Canonical(b) {
      forall i | 0 <= i < LIMBS ensures Carries(a, b)[i] <= 1 {
        CarryIsBit(a, b, i + 1);
      }
    }
  }

  lemma {:induction false} MaskAndShift(total: nat, i: nat)
    ensures BitAnd(total, LimbBase(i) - 1) == total % LimbBase(i)
    ensures total / Pow2(LimbBits(i)) == total / LimbBase(i)
  {
    hide BitAnd, Pow2;
    LimbBaseIsShift(i);
    MaskIsMod(total, LimbBits(i));
  }

  /** The witness generator's addition adds modulo `2^256` and reports every carry. */
  lemma {:induction false} SumIsModular(a: LimbArray, b: LimbArray)
    ensures LimbsValue(SumLimbs(a, b)) + Shl(Carries(a, b)[8], 256) == LimbsValue(a) + LimbsValue(b)
    ensures LimbsValue(SumLimbs(a, b)) == (LimbsValue(a) + LimbsValue(b)) % Pow2(256)
  {
    hide Pow2, Room, ValueFrom;
    var sum := SumLimbs(a, b);
    SumValueFrom(a, b, 0);
    RoomIsPow2();
    CanonicalRoundTrip(sum);
    LimbsKeepValue(LimbsValue(sum));
    SumFitsModulus(LimbsValue(sum), CarryIn(a, b, LIMBS), Pow2(256));
    assert Overflow(Pow2(256), CarryIn(a, b, LIMBS)) == Shl(CarryIn(a, b, LIMBS), 256);
  }

  lemma {:induction false} SumFitsModulus(s: int, c: int, m: int)
    requires m > 0 && s == s % m
    ensures (s + m * c) % m == s
  {
    DivModUnique(s + m * c, m, c, s);
  }

  lemma {:induction false} ModSum(a: nat, b: nat, m: nat)
    requires m > 0
    ensures (a % m + b) % m == (a + b) % m
    ensures (a + b % m) % m == (a + b) % m
  {
    var s := (a + b) / m;
    assert a % m + b == (a + b) % m + m * (s - a / m) by {
      assert m * (s - a / m) == m * s - m * (a / m);
    }
    DivModUnique(a % m + b, m, s - a / m, (a + b) % m);
    assert a + b % m == (a + b) % m + m * (s - b / m) by {
      assert m * (s - b / m) == m * s - m * (b / m);
    }
    DivModUnique(a + b % m, m, s - b / m, (a + b) % m);
  }

  lemma {:induction false} SumOfLimbs(x: nat, y: nat)
    ensures SumLimbs(LimbsOf(x), LimbsOf(y)) == LimbsOf(x + y)
  {
    hide LimbsOf, LimbsValue, SumLimbs, Pow2;
    var sum := SumLimbs(LimbsOf(x), LimbsOf(y));
    var m := Pow2(256);
    SumIsModular(LimbsOf(x), LimbsOf(y));
    LimbsKeepValue(x);
    LimbsKeepValue(y);
    ModSum(x, y % m, m);
    ModSum(x, y, m);
    assert LimbsValue(sum) == (x + y) % m;
    CanonicalRoundTrip(sum);
    LimbsKeepValue(LimbsValue(sum));
    SameLimbs(LimbsValue(sum), x + y);
  }

  /** After `k` limb additions the accumulator holds `x + k * y` modulo `2^256`. */
  lemma {:induction false} AccumulatedIsProduct(x: nat, y: nat, k: nat)
    ensures Accumulated(LimbsOf(x), LimbsOf(y), k) == LimbsOf(x + k * y)
  {
    hide LimbsOf, SumLimbs;
    if k == 0 {
      assert k * y == 0;
    } else {
      AccumulatedIsProduct(x, y, k - 1);
      OneMore(x, y, k);
      SumOfLimbs(x + (k - 1) * y, y);
    }
  }

  lemma {:induction false} OneMore(x: int, y: int, k: int)
    ensures x + (k - 1) * y + y == x + k * y
  {
  }

  method AddLimbs(a: LimbArray, b: LimbArray) returns (out: LimbArray, carry: LimbArray)
    ensures out == SumLimbs(a, b) && carry == Carries(a, b)
    ensures Canonical(out)
    ensures LimbsValue(out) == (LimbsValue(a) + LimbsValue(b)) % Pow2(256)
    ensures Canonical(a) && Canonical(b) ==> forall i | 0 <= i < LIMBS :: carry[i] <= 1
  {
    hide Pow2, Room, ValueFrom, BitAnd, Canonical;
    out, carry := seq(9, _ => 0), seq(9, _ => 0);
    var carryIn: U32 := 0;
    for i := 0 to LIMBS
      invariant carryIn == CarryIn(a, b, i)
      invariant forall j | 0 <= j < i :: out[j] == SumLimb(a, b, j) && carry[j] == CarryIn(a, b, j + 1)
    {
      var total := a[i] + b[i] + carryIn;
      MaskAndShift(total, i);
      out := out[i := BitAnd(total, LimbBase(i) - 1)];
      carry := carry[i := total / Pow2(LimbBits(i))];
      carryIn := carry[i];
    }
    SumIsModular(a, b);
    CarriesAreBits(a, b);
  }

  method BiguintToLimbs(value: nat) returns (limbs: LimbArray)
    ensures limbs == LimbsOf(value)
    ensures Canonical(limbs)
    ensures LimbsValue(limbs) == value % Pow2(256)
  {
    hide Pow2, Room, ValueFrom;
    limbs := seq(9, _ => 0);
    var offset := 0;
    assert Pow2(0) == 1 by { Pow2Add(0, 0); PowZero(); }
    for i := 0 to LIMBS
      invariant value / Pow2(offset) == Shifted(value, i)
      invariant forall j | 0 <= j < i :: limbs[j] == LimbOf(value, j)
    {
      var bits := LimbBits(i);
      LimbBaseIsShift(i);
      MaskIsMod(value / Pow2(offset), bits);
      limbs := limbs[i := BitAnd(value / Pow2(offset), Pow2(bits) - 1)];
      Pow2Add(offset, bits);
      DivDiv(value, Pow2(offset), Pow2(bits));
      offset := offset + bits;
    }
    LimbsKeepValue(value);
  }

  lemma {:induction false} PowZero()
    ensures Pow2(0) == 1
  {
  }

  /** The low 18 bits of a limb and the rest: the two chunks that the lookup tables hold. */
  function SplitLookupChunks(limbIdx: nat, value: U32): (r: (U32, U32))
    requires limbIdx < LIMBS
    ensures r.0 + LookupBase() * r.1 == value
    ensures r.0 < LookupBase()
    ensures r.0 < 0x4_0000 && (value < LimbBase(limbIdx) ==> r.1 < if limbIdx == 8 then 64 else 2048)
    ensures r.1 < HighSize(limbIdx) <==> value < LimbBase(limbIdx)
  {
    LookupBaseIsShift();
    MaskIsMod(value, LOOKUP_CHUNK_BITS);
    (BitAnd(value, LookupBase() - 1), value / LookupBase())
  }

  /** `1 << LOOKUP_CHUNK_BITS` */
  function LookupBase(): nat {
    0x4_0000
  }

  lemma {:induction false} LookupBaseIsShift()
    ensures LookupBase() == Pow2(LOOKUP_CHUNK_BITS)
  {
    hide Pow2;
    Pow2Of12();
    Pow2Add(1, 5);
    Pow2Add(12, 6);
  }

  /** The length of the table for the high chunk: `2^6` for the top limb and `2^11` for the others. */
  function HighSize(limbIdx: nat): nat {
    if limbIdx + 1 == LIMBS then 64 else 2048
  }

  /** Chunks in their ranges add up to one limb only. */
  lemma {:induction false} ChunksAreUnique(limbIdx: nat, value: U32, lo: U32, hi: U32)
    requires limbIdx < LIMBS && lo < LookupBase() && value == lo + LookupBase() * hi
    ensures SplitLookupChunks(limbIdx, value) == (lo, hi)
  {
    DivModUnique(value, LookupBase(), hi, lo);
  }
}
