/**
 Binary numerals: powers of two, little-endian bit sequences and the bitwise
 operators that the Rust and Python sources apply to unsigned integers.
 */
module Binary {

  type Byte = b: nat | b < 256

  function Pow2(n: nat): (r: nat)
    ensures r >= 1
  {
    if n == 0 then 1 else 2 * Pow2(n - 1)
  }

  /** `v << k` */
  function Shl(v: nat, k: nat): nat {
    v * Pow2(k)
  }

  function Min(a: nat, b: nat): nat {
    if a <= b then a else b
  }

  function Max(a: nat, b: nat): nat {
    if a >= b then a else b
  }

  function Bit(b: bool): nat {
    if b then 1 else 0
  }

  /** `p` if the bit is set. */
  function Weight(b: bool, p: nat): nat {
    if b then p else 0
  }

  /** The unsigned value of a bit sequence, least significant bit first. */
  function BitsValue(s: seq<bool>): nat {
    if s == [] then 0 else Bit(s[0]) + 2 * BitsValue(s[1..])
  }

  /** The low `w` bits of `v`, least significant first. */
  function BitsOf(v: nat, w: nat): (s: seq<bool>)
    ensures |s| == w
  {
    if w == 0 then [] else [v % 2 == 1] + BitsOf(v / 2, w - 1)
  }

  /** `(v >> j) & 1 == 1` */
  function TestBit(v: nat, j: nat): bool {
    (v / Pow2(j)) % 2 == 1
  }

  /** `value & (2^width - 1)` on an unbounded integer, negative ones included. */
  function Residue(value: int, width: nat): (r: nat)
    ensures r < Pow2(width)
  {
    value % Pow2(width)
  }

  /** `a & b` */
  function BitAnd(a: nat, b: nat): nat {
    if a == 0 || b == 0 then 0 else (a % 2) * (b % 2) + 2 * BitAnd(a / 2, b / 2)
  }

  /** `a | b` */
  function BitOr(a: nat, b: nat): nat
    decreases a + b
  {
    if a == 0 && b == 0 then 0
    else Bit(a % 2 == 1 || b % 2 == 1) + 2 * BitOr(a / 2, b / 2)
  }

  lemma {:induction false} Pow2Add(a: nat, b: nat)
    ensures Pow2(a + b) == Pow2(a) * Pow2(b)
  {
    if a > 0 {
      Pow2Add(a - 1, b);
    }
  }

  lemma {:induction false} Pow2Monotone(a: nat, b: nat)
    requires a <= b
    ensures Pow2(a) <= Pow2(b)
  {
    if a < b {
      Pow2Monotone(a, b - 1);
    }
  }

  lemma {:induction false} BitsValueBound(s: seq<bool>)
    ensures BitsValue(s) < Pow2(|s|)
  {
    if s != [] {
      BitsValueBound(s[1..]);
    }
  }

  lemma {:induction false} BitsValueAppend(s: seq<bool>, b: bool)
    ensures BitsValue(s + [b]) == BitsValue(s) + Weight(b, Pow2(|s|))
  {
    if s == [] {
      assert s + [b] == [b];
    } else {
      assert (s + [b])[1..] == s[1..] + [b];
      BitsValueAppend(s[1..], b);
    }
  }

  lemma {:induction false} BitsValueConcat(a: seq<bool>, b: seq<bool>)
    ensures BitsValue(a + b) == BitsValue(a) + Shl(BitsValue(b), |a|)
  {
    hide Shl;
    if a == [] {
      assert a + b == b;
      ShlStep(BitsValue(b), 0);
    } else {
      BitsValueConcat(a[1..], b);
      ShlStep(BitsValue(b), |a| - 1);
      assert (a + b)[1..] == a[1..] + b;
    }
  }

  function Falses(n: nat): (s: seq<bool>)
    ensures |s| == n
  {
    seq(n, _ => false)
  }

  lemma {:induction false} FalsesValue(n: nat)
    ensures BitsValue(Falses(n)) == 0
  {
    if n > 0 {
      FalsesValue(n - 1);
      assert Falses(n)[1..] == Falses(n - 1);
    }
  }

  /** Zeros on top add nothing. */
  lemma {:induction false} FalsesAbove(s: seq<bool>, n: nat)
    ensures BitsValue(s + Falses(n)) == BitsValue(s)
  {
    FalsesValue(n);
    BitsValueConcat(s, Falses(n));
    assert Shl(0, |s|) == 0;
  }

  lemma {:induction false} BitsOfValue(s: seq<bool>)
    ensures BitsOf(BitsValue(s), |s|) == s
  {
    if s != [] {
      BitsOfValue(s[1..]);
    }
  }

  lemma {:induction false} ModTwice(v: nat, m: nat)
    requires m > 0
    ensures v % (2 * m) == v % 2 + 2 * ((v / 2) % m)
  {
    var h := v / 2;
    var r := v % 2 + 2 * (h % m);
    assert v == r + (2 * m) * (h / m) by {
      assert h == m * (h / m) + h % m;
      assert (2 * m) * (h / m) == 2 * (m * (h / m));
    }
    DivModUnique(v, 2 * m, h / m, r);
  }

  lemma {:induction false} SmallMultiple(m: int, k: int)
    requires m > 0
    ensures -m < m * k < m ==> k == 0
  {
    if k >= 1 {
      assert m * k == m + m * (k - 1);
      assert m * (k - 1) >= 0;
    } else if k <= -1 {
      assert m * k == -m - m * (-k - 1);
      assert m * (-k - 1) >= 0;
    }
  }

  lemma {:induction false} DivModUnique(v: int, m: int, q: int, r: int)
    requires m > 0 && 0 <= r < m && v == r + m * q
    ensures v / m == q && v % m == r
  {
    var k := v / m - q;
    assert m * k == m * (v / m) - m * q;
    assert m * k == r - v % m;
    SmallMultiple(m, k);
  }

  lemma {:induction false} BitsValueOfBits(v: nat, w: nat)
    ensures BitsValue(BitsOf(v, w)) == v % Pow2(w)
  {
    if w > 0 {
      BitsValueOfBits(v / 2, w - 1);
      assert BitsOf(v, w)[1..] == BitsOf(v / 2, w - 1);
      ModTwice(v, Pow2(w - 1));
    }
  }

  lemma {:induction false} HalfThenDiv(v: nat, b: nat)
    requires b > 0
    ensures v / (2 * b) == (v / 2) / b
  {
    var q, r := (v / 2) / b, (v / 2) % b;
    assert v / 2 == b * q + r;
    assert v == (v % 2 + 2 * r) + (2 * b) * q by {
      assert (2 * b) * q == 2 * (b * q);
    }
    DivModUnique(v, 2 * b, q, v % 2 + 2 * r);
  }

  lemma {:induction false} BitsOfAt(v: nat, w: nat, j: nat)
    requires j < w
    ensures BitsOf(v, w)[j] == TestBit(v, j)
  {
    if j > 0 {
      BitsOfAt(v / 2, w - 1, j - 1);
      HalfThenDiv(v, Pow2(j - 1));
    }
  }

  /** Masking with `2^w - 1` is reduction modulo `2^w`. */
  lemma {:induction false} BitAndOdd(v: nat, m: nat)
    ensures BitAnd(v, 2 * m + 1) == v % 2 + 2 * BitAnd(v / 2, m)
  {
    assert (2 * m + 1) / 2 == m && (2 * m + 1) % 2 == 1;
    assert BitAnd(0, m) == 0;
  }

  lemma {:induction false} MaskIsMod(v: nat, w: nat)
    ensures BitAnd(v, Pow2(w) - 1) == v % Pow2(w)
  {
    if w > 0 {
      ModTwice(v, Pow2(w - 1));
      MaskIsMod(v / 2, w - 1);
      BitAndOdd(v, Pow2(w - 1) - 1);
    }
  }

  lemma {:induction false} ShlStep(v: nat, k: nat)
    ensures Shl(v, 0) == v
    ensures Shl(v, k + 1) == 2 * Shl(v, k)
  {
    assert v * (2 * Pow2(k)) == 2 * (v * Pow2(k));
  }

  lemma {:induction false} OrZero(b: nat)
    ensures BitOr(0, b) == b
  {
    if b > 0 {
      OrZero(b / 2);
    }
  }

  lemma {:induction false} BitOrEven(v: nat, h: nat)
    ensures BitOr(v, 2 * h) == v % 2 + 2 * BitOr(v / 2, h)
  {
    assert (2 * h) % 2 == 0 && (2 * h) / 2 == h;
  }

  /** Or-ing in a value shifted above everything set so far is addition. */
  lemma {:induction false} OrIsAdd(v: nat, b: nat, k: nat)
    requires v < Pow2(k)
    ensures BitOr(v, Shl(b, k)) == v + Shl(b, k)
  {
    hide Shl, BitOr;
    if k == 0 {
      ShlStep(b, 0);
      OrZero(b);
    } else {
      ShlStep(b, k - 1);
      OrIsAdd(v / 2, b, k - 1);
      BitOrEven(v, Shl(b, k - 1));
    }
  }

  /** The unsigned little-endian value of a byte string. */
  function LeValue(bytes: seq<Byte>): nat {
    if bytes == [] then 0 else bytes[0] + 256 * LeValue(bytes[1..])
  }

  lemma {:induction false} LeValueBound(bytes: seq<Byte>)
    ensures LeValue(bytes) < Pow2(8 * |bytes|)
  {
    if bytes != [] {
      LeValueBound(bytes[1..]);
      Pow2Byte(8 * (|bytes| - 1));
    }
  }

  lemma {:induction false} Pow2Byte(n: nat)
    ensures Pow2(n + 8) == 256 * Pow2(n)
  {
    Pow2Add(8, n);
    assert Pow2(8) == 256;
  }

  lemma {:induction false} ShlByte(v: nat, k: nat)
    ensures Shl(v, k + 8) == 256 * Shl(v, k)
  {
    Pow2Byte(k);
    assert v * (256 * Pow2(k)) == 256 * (v * Pow2(k));
  }

  lemma {:induction false} LeValueAppend(bytes: seq<Byte>, b: Byte)
    ensures LeValue(bytes + [b]) == LeValue(bytes) + Shl(b, 8 * |bytes|)
  {
    hide Shl;
    if bytes == [] {
      assert bytes + [b] == [b] && [b][1..] == [];
      ShlStep(b, 0);
    } else {
      LeValueAppend(bytes[1..], b);
      ShlByte(b, 8 * (|bytes| - 1));
      assert (bytes + [b])[1..] == bytes[1..] + [b];
    }
  }

  /** `v` in `n` little-endian bytes. */
  function LeBytes(v: nat, n: nat): (b: seq<Byte>)
    ensures |b| == n
  {
    if n == 0 then [] else [v % 256] + LeBytes(v / 256, n - 1)
  }

  lemma {:induction false} BytesOfValue(b: seq<Byte>)
    ensures LeBytes(LeValue(b), |b|) == b
  {
    if b != [] {
      BytesOfValue(b[1..]);
      SplitByte(b[0], LeValue(b[1..]));
    }
  }

  lemma {:induction false} SplitByte(b: Byte, rest: nat)
    ensures (b + 256 * rest) % 256 == b && (b + 256 * rest) / 256 == rest
  {
  }

  lemma {:induction false} NextBit(b: bool, v: nat, w: nat)
    ensures BitsOf(Bit(b) + 2 * v, w + 1) == [b] + BitsOf(v, w)
  {
    assert (Bit(b) + 2 * v) / 2 == v;
  }

  lemma {:induction false} FourBits(v: nat, w: nat, b0: bool, b1: bool, b2: bool, b3: bool)
    ensures BitsOf(Bit(b0) + 2 * Bit(b1) + 4 * Bit(b2) + 8 * Bit(b3) + 16 * v, w + 4) == [b0, b1, b2, b3] + BitsOf(v, w)
  {
    hide BitsOf, Bit;
    NextBit(b3, v, w);
    NextBit(b2, Bit(b3) + 2 * v, w + 1);
    NextBit(b1, Bit(b2) + 2 * (Bit(b3) + 2 * v), w + 2);
    NextBit(b0, Bit(b1) + 2 * (Bit(b2) + 2 * (Bit(b3) + 2 * v)), w + 3);
  }

  /** The byte of eight bits, least significant first. */
  function EightSum(b0: bool, b1: bool, b2: bool, b3: bool, b4: bool, b5: bool, b6: bool, b7: bool): nat {
    Bit(b0) + 2 * Bit(b1) + 4 * Bit(b2) + 8 * Bit(b3) + 16 * Bit(b4) + 32 * Bit(b5) + 64 * Bit(b6) + 128 * Bit(b7)
  }

  lemma {:induction false} EightBits(b0: bool, b1: bool, b2: bool, b3: bool, b4: bool, b5: bool, b6: bool, b7: bool)
    ensures BitsOf(EightSum(b0, b1, b2, b3, b4, b5, b6, b7), 8)
         == [b0, b1, b2, b3, b4, b5, b6, b7]
  {
    hide BitsOf, Bit;
    var high := Bit(b4) + 2 * Bit(b5) + 4 * Bit(b6) + 8 * Bit(b7) + 16 * 0;
    FourBits(0, 0, b4, b5, b6, b7);
    FourBits(high, 4, b0, b1, b2, b3);
    assert |BitsOf(0, 0)| == 0;
  }

  lemma {:induction false} ByteValue(b: Byte)
    ensures BitsValue(BitsOf(b, 8)) == b
  {
    BitsValueOfBits(b, 8);
    assert Pow2(8) == 256;
  }
}
