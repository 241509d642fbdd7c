/**
 The Keccak-f[1600] permutation (FIPS 202, section 3). A 64-bit lane is the
 sequence of its bits, least significant first, and lane `x + 5y` of the state
 holds the bits `A[x, y, 0 .. 63]`.
 */
module Keccak {
  import opened Binary

  type Lane = s: seq<bool> | |s| == 64 witness seq(64, i => false)

  type State = s: seq<Lane> | |s| == 25 witness seq(25, i => seq(64, j => false))

  // ---------------------------------------------------------------- 64-bit operators

  function Xor(a: Lane, b: Lane): Lane {
    seq(64, z requires 0 <= z < 64 => a[z] != b[z])
  }

  function AndNot(a: Lane, b: Lane): Lane {
    seq(64, z requires 0 <= z < 64 => !a[z] && b[z])
  }

  /** `a.rotate_left(k)` */
  function Rotl(a: Lane, k: int): Lane {
    seq(64, z requires 0 <= z < 64 => a[(z - k) % 64])
  }

  // ---------------------------------------------------------------- the step mappings

  /** The parity of column sheet `x`. */
  function C(s: State, x: nat): Lane
    requires x < 5
  {
    Xor(Xor(Xor(Xor(s[x], s[x + 5]), s[x + 10]), s[x + 15]), s[x + 20])
  }

  function D(s: State, x: nat): Lane
    requires x < 5
  {
    Xor(C(s, (x + 4) % 5), Rotl(C(s, (x + 1) % 5), 1))
  }

  function ThetaLane(s: State, i: nat): Lane
    requires i < 25
  {
    Xor(s[i], D(s, i % 5))
  }

  /** Section 3.2.1. */
  function Theta(s: State): State {
    seq(25, i requires 0 <= i < 25 => ThetaLane(s, i))
  }

  /** The offsets of section 3.2.2, Table 2, modulo the lane size. */
  function Offset(i: nat): nat {
    match i
    case 0 => 0 case 1 => 1 case 2 => 62 case 3 => 28 case 4 => 27
    case 5 => 36 case 6 => 44 case 7 => 6 case 8 => 55 case 9 => 20
    case 10 => 3 case 11 => 10 case 12 => 43 case 13 => 25 case 14 => 39
    case 15 => 41 case 16 => 45 case 17 => 15 case 18 => 21 case 19 => 8
    case 20 => 18 case 21 => 2 case 22 => 61 case 23 => 56
    case _ => 14
  }

  /** The lane that section 3.2.3 moves into position `i`. */
  function PiSource(i: nat): (j: nat)
    requires i < 25
    ensures j < 25
  {
    var x, y := i % 5, i / 5;
    (x + 3 * y) % 5 + 5 * x
  }

  function RhoPiLane(s: State, i: nat): Lane
    requires i < 25
  {
    Rotl(s[PiSource(i)], Offset(PiSource(i)))
  }

  /** Sections 3.2.2 and 3.2.3: every lane rotated and moved at once. */
  function RhoPi(s: State): State {
    seq(25, i requires 0 <= i < 25 => RhoPiLane(s, i))
  }

  /** Lane `x` of a row, combined with its two right neighbours. */
  function ChiLane(row: seq<Lane>, x: nat): Lane
    requires |row| == 5 && x < 5
  {
    Xor(row[x], AndNot(row[(x + 1) % 5], row[(x + 2) % 5]))
  }

  /** Row `y` of the state: the lanes `A[0 .. 4, y]`. */
  function Row(s: State, y: nat): seq<Lane>
    requires y < 5
  {
    s[5 * y..5 * y + 5]
  }

  /** Section 3.2.4. */
  function Chi(s: State): State {
    seq(25, i requires 0 <= i < 25 => ChiLane(Row(s, i / 5), i % 5))
  }

  /** Section 3.2.5. */
  function Iota(s: State, rc: Lane): State {
    s[0 := Xor(s[0], rc)]
  }

  /** The round constants, as 64-bit words. */
  function RoundConstant(r: nat): nat {
    match r
    case 0 => 0x0000_0000_0000_0001 case 1 => 0x0000_0000_0000_8082
    case 2 => 0x8000_0000_0000_808a case 3 => 0x8000_0000_8000_8000
    case 4 => 0x0000_0000_0000_808b case 5 => 0x0000_0000_8000_0001
    case 6 => 0x8000_0000_8000_8081 case 7 => 0x8000_0000_0000_8009
    case 8 => 0x0000_0000_0000_008a case 9 => 0x0000_0000_0000_0088
    case 10 => 0x0000_0000_8000_8009 case 11 => 0x0000_0000_8000_000a
    case 12 => 0x0000_0000_8000_808b case 13 => 0x8000_0000_0000_008b
    case 14 => 0x8000_0000_0000_8089 case 15 => 0x8000_0000_0000_8003
    case 16 => 0x8000_0000_0000_8002 case 17 => 0x8000_0000_0000_0080
    case 18 => 0x0000_0000_0000_800a case 19 => 0x8000_0000_8000_000a
    case 20 => 0x8000_0000_8000_8081 case 21 => 0x8000_0000_0000_8080
    case 22 => 0x0000_0000_8000_0001
    case _ => 0x8000_0000_8000_8008
  }

  function Round(s: State, r: nat): State {
    Iota(Chi(RhoPi(Theta(s))), BitsOf(RoundConstant(r), 64))
  }

  /** The first `r` rounds. */
  function Rounds(s: State, r: nat): State {
    if r == 0 then s else Round(Rounds(s, r - 1), r - 1)
  }

  function KeccakF(s: State): State {
    Rounds(s, 24)
  }

  // ---------------------------------------------------------------- the in-place implementation

  /** Xor `t` into the five lanes of sheet `i`. */
  method XorSheet(st: array<Lane>, i: nat, t: Lane)
    requires st.Length == 25 && i < 5
    modifies st
    ensures forall k | 0 <= k < 25 :: st[k] == if k % 5 == i then Xor(old(st[k]), t) else old(st[k])
  {
    var j := 0;
    while j < 25
      invariant 0 <= j <= 25 && j % 5 == 0
      invariant forall k | 0 <= k < 25 ::
        st[k] == if k % 5 == i && k < j then Xor(old(st[k]), t) else old(st[k])
    {
      st[j + i] := Xor(st[j + i], t);
      j := j + 5;
    }
  }

  method Parities(st: array<Lane>) returns (bc: seq<Lane>)
    requires st.Length == 25
    ensures |bc| == 5 && forall x | 0 <= x < 5 :: bc[x] == C(st[..], x)
  {
    bc := [];
    for i := 0 to 5
      invariant |bc| == i && forall x | 0 <= x < i :: bc[x] == C(st[..], x)
    {
      bc := bc + [Xor(Xor(Xor(Xor(st[i], st[i + 5]), st[i + 10]), st[i + 15]), st[i + 20])];
    }
  }

  method ThetaInPlace(st: array<Lane>)
    requires st.Length == 25
    modifies st
    ensures st[..] == Theta(old(st[..]))
  {
    hide Xor, Rotl, C;
    ghost var s: State := st[..];
    var bc := Parities(st);
    for i := 0 to 5
      invariant forall k | 0 <= k < 25 :: st[k] == if k % 5 < i then ThetaLane(s, k) else s[k]
    {
      var t := Xor(bc[(i + 4) % 5], Rotl(bc[(i + 1) % 5], 1));
      assert t == D(s, i);
      XorSheet(st, i, t);
    }
  }

  /** Lane order of the rho/pi walk. */
  function Piln(i: nat): nat {
    match i
    case 0 => 10 case 1 => 7 case 2 => 11 case 3 => 17 case 4 => 18 case 5 => 3
    case 6 => 5 case 7 => 16 case 8 => 8 case 9 => 21 case 10 => 24 case 11 => 4
    case 12 => 15 case 13 => 23 case 14 => 19 case 15 => 13 case 16 => 12 case 17 => 2
    case 18 => 20 case 19 => 14 case 20 => 22 case 21 => 9 case 22 => 6
    case _ => 1
  }

  function Rotc(i: nat): nat {
    match i
    case 0 => 1 case 1 => 3 case 2 => 6 case 3 => 10 case 4 => 15 case 5 => 21
    case 6 => 28 case 7 => 36 case 8 => 45 case 9 => 55 case 10 => 2 case 11 => 14
    case 12 => 27 case 13 => 41 case 14 => 56 case 15 => 8 case 16 => 25 case 17 => 43
    case 18 => 62 case 19 => 18 case 20 => 39 case 21 => 61 case 22 => 20
    case _ => 44
  }

  /** The step of the walk that writes lane `j`. */
  ghost function StepOf(j: nat): nat {
    match j
    case 10 => 0 case 7 => 1 case 11 => 2 case 17 => 3 case 18 => 4 case 3 => 5
    case 5 => 6 case 16 => 7 case 8 => 8 case 21 => 9 case 24 => 10 case 4 => 11
    case 15 => 12 case 23 => 13 case 19 => 14 case 13 => 15 case 12 => 16 case 2 => 17
    case 20 => 18 case 14 => 19 case 22 => 20 case 9 => 21 case 6 => 22
    case _ => 23
  }

  /** The lane the walk carries into step `i`. */
  ghost function Carried(i: nat): (j: nat)
    ensures j < 25
  {
    if i == 0 then 1 else Piln(i - 1)
  }

  lemma {:induction false} WalkPosition(i: nat)
    requires i < 24
    ensures 1 <= Piln(i) < 25 && StepOf(Piln(i)) == i
  {
  }

  lemma {:induction false} WalkSource(i: nat)
    requires i < 24
    ensures Piln(i) < 25 && PiSource(Piln(i)) == Carried(i)
  {
    if i < 8 {
    } else if i < 16 {
    } else {
    }
  }

  lemma {:induction false} WalkRotation(i: nat)
    requires i < 24
    ensures Offset(Carried(i)) == Rotc(i)
  {
  }

  /** The walk visits every lane but lane 0 once, and each step carries the lane and rotation that FIPS 202 prescribes. */
  lemma {:induction false} WalkFollowsPi(i: nat)
    requires i < 24
    ensures 1 <= Piln(i) < 25 && StepOf(Piln(i)) == i
    ensures PiSource(Piln(i)) == Carried(i)
    ensures Offset(Carried(i)) == Rotc(i)
  {
    WalkPosition(i);
    WalkSource(i);
    WalkRotation(i);
    hide *;
  }

  lemma {:induction false} WalkVisits(j: nat)
    requires 1 <= j < 25
    ensures StepOf(j) < 24 && Piln(StepOf(j)) == j
  {
  }

  lemma {:induction false} WalkOnce(i: nat)
    requires i < 24
    ensures forall k | 1 <= k < 25 && StepOf(k) == i :: k == Piln(i)
    ensures 1 <= Piln(i) < 25
    ensures i < 23 ==> Carried(i + 1) == Piln(i)
    ensures forall k | 1 <= k < 25 && StepOf(k) < i :: k != Piln(i)
  {
    hide StepOf, Piln;
    WalkFollowsPi(i);
    forall k | 1 <= k < 25 && StepOf(k) == i ensures k == Piln(i) {
      WalkVisits(k);
    }
  }

  lemma {:induction false} WalkEnds(s: State)
    ensures forall k | 1 <= k < 25 :: StepOf(k) < 24
    ensures RhoPiLane(s, 0) == s[0]
  {
    hide StepOf, Piln;
    forall k | 1 <= k < 25 ensures StepOf(k) < 24 {
      WalkVisits(k);
    }
    assert RhoPiLane(s, 0) == Rotl(s[0], 0) == s[0];
  }

  /** The rotation grows by `t + 2` at step `t`: the triangular numbers of section 3.2.2. */
  lemma {:induction false} RotationsAreTriangular(t: nat)
    requires t < 23
    ensures Rotc(0) == 1 && Rotc(t + 1) == (Rotc(t) + t + 2) % 64
  {
  }

  method RhoPiInPlace(st: array<Lane>)
    requires st.Length == 25
    modifies st
    ensures st[..] == RhoPi(old(st[..]))
  {
    hide Rotl, StepOf, Piln, Rotc, PiSource, Offset;
    ghost var s: State := st[..];
    var t := st[1];
    for i := 0 to 24
      invariant i < 24 ==> t == s[Carried(i)]
      invariant forall k | 0 <= k < 25 ::
        st[k] == if 0 < k && StepOf(k) < i then RhoPiLane(s, k) else s[k]
    {
      WalkFollowsPi(i);
      WalkOnce(i);
      var j := Piln(i);
      var tmp := st[j];
      st[j] := Rotl(t, Rotc(i));
      t := tmp;
    }
    WalkEnds(s);
  }

  method ChiRow(st: array<Lane>, y: nat)
    requires st.Length == 25 && y < 5
    modifies st
    ensures forall j | 0 <= j < 25 ::
      st[j] == if j / 5 == y then ChiLane(Row(old(st[..]), y), j % 5) else old(st[j])
  {
    hide Xor, AndNot;
    var bc := st[5 * y..5 * y + 5];
    for i := 0 to 5
      invariant forall j | 0 <= j < 25 ::
        st[j] == if 5 * y <= j < 5 * y + i then ChiLane(bc, j - 5 * y) else old(st[j])
    {
      st[5 * y + i] := Xor(st[5 * y + i], AndNot(bc[(i + 1) % 5], bc[(i + 2) % 5]));
    }
  }

  method ChiInPlace(st: array<Lane>)
    requires st.Length == 25
    modifies st
    ensures st[..] == Chi(old(st[..]))
  {
    hide ChiLane;
    ghost var s: State := st[..];
    for y := 0 to 5
      invariant forall j | 0 <= j < 25 :: st[j] == if j / 5 < y then ChiLane(Row(s, j / 5), j % 5) else s[j]
    {
      assert Row(st[..], y) == Row(s, y);
      ChiRow(st, y);
    }
  }

  /** The in-place permutation is the composition of the FIPS 202 step mappings. */
  method KeccakF1600(st: array<Lane>)
    requires st.Length == 25
    modifies st
    ensures st[..] == KeccakF(old(st[..]))
  {
    hide Theta, RhoPi, Chi, Xor, RoundConstant, BitsOf;
    ghost var s: State := st[..];
    for r := 0 to 24
      invariant st[..] == Rounds(s, r)
    {
      ThetaInPlace(st);
      RhoPiInPlace(st);
      ChiInPlace(st);
      st[0] := Xor(st[0], BitsOf(RoundConstant(r), 64));
    }
  }

  // ---------------------------------------------------------------- Keccak-f is a permutation

  lemma {:induction false} XorCancels(a: Lane, b: Lane, t: Lane)
    requires Xor(a, t) == Xor(b, t)
    ensures a == b
  {
    forall z | 0 <= z < 64 ensures a[z] == b[z] {
      assert Xor(a, t)[z] == Xor(b, t)[z];
    }
  }

  lemma {:induction false} IotaInjective(s: State, u: State, rc: Lane)
    requires Iota(s, rc) == Iota(u, rc)
    ensures s == u
  {
    assert Iota(s, rc)[0] == Iota(u, rc)[0];
    XorCancels(s[0], u[0], rc);
    forall i | 1 <= i < 25 ensures s[i] == u[i] {
      assert Iota(s, rc)[i] == Iota(u, rc)[i];
    }
  }

  lemma {:induction false} RotlInjective(a: Lane, b: Lane, k: nat)
    requires k < 64 && Rotl(a, k) == Rotl(b, k)
    ensures a == b
  {
    forall z | 0 <= z < 64 ensures a[z] == b[z] {
      var w := (z + k) % 64;
      assert (w - k) % 64 == z;
      assert Rotl(a, k)[w] == Rotl(b, k)[w];
    }
  }

  /** The position that pi sends lane `j` to. */
  ghost function PiTarget(j: nat): (i: nat)
    requires j < 25
    ensures i < 25
  {
    var x, y := j % 5, j / 5;
    y + 5 * ((2 * x + 3 * y) % 5)
  }

  lemma {:induction false} Residue5(v: int, x: nat, k: int)
    requires x < 5 && v == x + 5 * k
    ensures v % 5 == x && v / 5 == k
  {
  }

  lemma {:induction false} PiTargetInverts(j: nat)
    requires j < 25
    ensures PiSource(PiTarget(j)) == j
  {
    var x, y := j % 5, j / 5;
    var w, q := (2 * x + 3 * y) % 5, (2 * x + 3 * y) / 5;
    Residue5(PiTarget(j), y, w);
    Residue5(y + 3 * w, x, x + 2 * y - 3 * q);
  }

  lemma {:induction false} RhoPiInjective(s: State, u: State)
    requires RhoPi(s) == RhoPi(u)
    ensures s == u
  {
    hide Rotl, PiSource, PiTarget;
    forall j | 0 <= j < 25 ensures s[j] == u[j] {
      PiTargetInverts(j);
      assert RhoPi(s)[PiTarget(j)] == RhoPi(u)[PiTarget(j)];
      RotlInjective(s[j], u[j], Offset(j));
    }
  }

  /** Chi on one bit column of a row, five bits wide. */
  lemma {:induction false} ChiRowInjective(a: seq<Lane>, b: seq<Lane>)
    requires |a| == |b| == 5
    requires forall x | 0 <= x < 5 :: ChiLane(a, x) == ChiLane(b, x)
    ensures a == b
  {
    forall z | 0 <= z < 64
      ensures a[0][z] == b[0][z] && a[1][z] == b[1][z] && a[2][z] == b[2][z] && a[3][z] == b[3][z] && a[4][z] == b[4][z]
    {
      assert ChiLane(a, 0)[z] == ChiLane(b, 0)[z];
      assert ChiLane(a, 1)[z] == ChiLane(b, 1)[z];
      assert ChiLane(a, 2)[z] == ChiLane(b, 2)[z];
      assert ChiLane(a, 3)[z] == ChiLane(b, 3)[z];
      assert ChiLane(a, 4)[z] == ChiLane(b, 4)[z];
    }
    assert a[0] == b[0] && a[1] == b[1] && a[2] == b[2] && a[3] == b[3] && a[4] == b[4];
  }

  lemma {:induction false} ChiInjective(s: State, u: State)
    requires Chi(s) == Chi(u)
    ensures s == u
  {
    hide ChiLane;
    forall y | 0 <= y < 5 ensures Row(s, y) == Row(u, y) {
      forall x | 0 <= x < 5 ensures ChiLane(Row(s, y), x) == ChiLane(Row(u, y), x) {
        assert (5 * y + x) / 5 == y && (5 * y + x) % 5 == x;
        assert Chi(s)[5 * y + x] == Chi(u)[5 * y + x];
      }
      ChiRowInjective(Row(s, y), Row(u, y));
    }
    forall i | 0 <= i < 25 ensures s[i] == u[i] {
      assert s[i] == Row(s, i / 5)[i % 5] && u[i] == Row(u, i / 5)[i % 5];
    }
  }

  // ---------------------------------------------------------------- theta is injective

  /** The column parities, continued with period 5 along x and 64 along z. */
  ghost function Parity(s: State, x: int, z: int): bool {
    C(s, x % 5)[z % 64]
  }

  /** Parity of the columns `(x, z)`, `(x - e, z)` and `(x + e, z - e)`; with `e == 1`, the parities after theta. */
  ghost function Spread(s: State, e: int, x: int, z: int): bool {
    (Parity(s, x, z) != Parity(s, x - e, z)) != Parity(s, x + e, z - e)
  }

  ghost predicate SpreadAgree(s: State, u: State, e: int) {
    forall x: int, z: int :: Spread(s, e, x, z) == Spread(u, e, x, z)
  }

  /** Over the two-element field squaring the parity map just doubles its exponents. */
  lemma {:induction false} SpreadSquared(s: State, e: int, x: int, z: int)
    ensures Spread(s, 2 * e, x, z) == ((Spread(s, e, x, z) != Spread(s, e, x - e, z)) != Spread(s, e, x + e, z - e))
  {
    hide Parity;
    assert (x - e) + e == x && (x + e) - e == x;
    assert (x - e) - e == x - 2 * e && (x + e) + e == x + 2 * e && (z - e) - e == z - 2 * e;
  }

  lemma {:induction false} AgreeDoubles(s: State, u: State, e: int)
    requires SpreadAgree(s, u, e)
    ensures SpreadAgree(s, u, 2 * e)
  {
    hide Spread;
    forall x: int, z: int ensures Spread(s, 2 * e, x, z) == Spread(u, 2 * e, x, z) {
      SpreadSquared(s, e, x, z);
      SpreadSquared(u, e, x, z);
    }
  }

  /** With exponent 64 the parity map is `p(x) + p(x + 1) + p(x - 1)`, and its cube is the identity. */
  lemma {:induction false} CubeIsIdentity(s: State, x: int, z: int)
    ensures Parity(s, x, z)
         == ((Spread(s, 128, x, z) != Spread(s, 128, x - 64, z)) != Spread(s, 128, x + 64, z - 64))
  {
    hide C;
    assert z % 64 == (z - 64) % 64 == (z - 128) % 64 == (z - 192) % 64;
    assert (x - 128) % 5 == (x + 192) % 5;
    assert (x + 128) % 5 == (x - 192) % 5;
    assert (x - 64) % 5 == (x + 64 - 128) % 5;
    assert (x + 64) % 5 == (x - 64 + 128) % 5;
  }

  lemma {:induction false} ThetaLaneParity(s: State, x: nat, z: nat)
    requires x < 5 && z < 64
    ensures C(Theta(s), x)[z] == (C(s, x)[z] != D(s, x)[z])
  {
    hide D;
    var t := Theta(s);
    assert t[x] == Xor(s[x], D(s, x)) && t[x + 5] == Xor(s[x + 5], D(s, x));
    assert t[x + 10] == Xor(s[x + 10], D(s, x)) && t[x + 15] == Xor(s[x + 15], D(s, x));
    assert t[x + 20] == Xor(s[x + 20], D(s, x));
  }

  /** The parities after theta are the parity map of the parities before. */
  lemma {:induction false} ThetaParity(s: State, x: int, z: int)
    ensures Parity(Theta(s), x, z) == Spread(s, 1, x, z)
  {
    hide C, Theta;
    var x0, z0 := x % 5, z % 64;
    ThetaLaneParity(s, x0, z0);
    assert (x0 + 4) % 5 == (x - 1) % 5 && (x0 + 1) % 5 == (x + 1) % 5 && (z0 - 1) % 64 == (z - 1) % 64;
    assert D(s, x0)[z0] == (C(s, (x - 1) % 5)[z0] != C(s, (x + 1) % 5)[(z - 1) % 64]);
  }

  lemma {:induction false} SameParities(s: State, u: State)
    requires Theta(s) == Theta(u)
    ensures forall x | 0 <= x < 5 :: C(s, x) == C(u, x)
  {
    hide Theta, C, Spread;
    forall x: int, z: int ensures Spread(s, 1, x, z) == Spread(u, 1, x, z) {
      ThetaParity(s, x, z);
      ThetaParity(u, x, z);
    }
    AgreeDoubles(s, u, 1);
    AgreeDoubles(s, u, 2);
    AgreeDoubles(s, u, 4);
    AgreeDoubles(s, u, 8);
    AgreeDoubles(s, u, 16);
    AgreeDoubles(s, u, 32);
    AgreeDoubles(s, u, 64);
    forall x | 0 <= x < 5 ensures C(s, x) == C(u, x) {
      forall z | 0 <= z < 64 ensures C(s, x)[z] == C(u, x)[z] {
        CubeIsIdentity(s, x, z);
        CubeIsIdentity(u, x, z);
        assert Parity(s, x, z) == Parity(u, x, z);
      }
    }
  }

  lemma {:induction false} ThetaInjective(s: State, u: State)
    requires Theta(s) == Theta(u)
    ensures s == u
  {
    SameParities(s, u);
    hide C, Xor, Rotl;
    forall i | 0 <= i < 25 ensures s[i] == u[i] {
      assert D(s, i % 5) == D(u, i % 5);
      assert Theta(s)[i] == Theta(u)[i];
      XorCancels(s[i], u[i], D(s, i % 5));
    }
  }

  /** Keccak-f[1600] never maps two states to one: it is a permutation of the states. */
  lemma {:induction false} RoundsInjective(s: State, u: State, r: nat)
    requires Rounds(s, r) == Rounds(u, r)
    ensures s == u
  {
    hide Theta, RhoPi, Chi, Iota, RoundConstant, BitsOf;
    if r > 0 {
      var a, b := Rounds(s, r - 1), Rounds(u, r - 1);
      var rc: Lane := BitsOf(RoundConstant(r - 1), 64);
      IotaInjective(Chi(RhoPi(Theta(a))), Chi(RhoPi(Theta(b))), rc);
      ChiInjective(RhoPi(Theta(a)), RhoPi(Theta(b)));
      RhoPiInjective(Theta(a), Theta(b));
      ThetaInjective(a, b);
      RoundsInjective(s, u, r - 1);
    }
  }

  lemma {:induction false} KeccakFInjective(s: State, u: State)
    ensures KeccakF(s) == KeccakF(u) ==> s == u
  {
    if KeccakF(s) == KeccakF(u) {
      RoundsInjective(s, u, 24);
    }
  }
}
