/**
 Test cases derived from the circuit hash: the one-shot Rust derivation and the
 incremental Python one.
 */
module FiatShamir {
  import opened Wrappers
  import opened Binary
  import opened Shake256
  import opened Xof

  /** `ceil(width / 8)` */
  function OperandBytes(width: nat): nat {
    (width + 7) / 8
  }

  /** The stream position of operand `j`. */
  function OperandStart(width: nat, j: nat): nat {
    j * OperandBytes(width)
  }

  /** Operand number `j` of the stream of `hash`: its bytes as a number, reduced to `width` bits. */
  function Operand(hash: seq<Byte>, width: nat, j: nat): (v: nat)
    ensures v < Pow2(width)
  {
    var from := OperandStart(width, j);
    Residue(LeValue(Slice(hash, from, from + OperandBytes(width))), width)
  }

  function CasePair(hash: seq<Byte>, width: nat, k: nat): (pair: (nat, nat))
    ensures pair.0 < Pow2(width) && pair.1 < Pow2(width)
  {
    (Operand(hash, width, 2 * k), Operand(hash, width, 2 * k + 1))
  }

  /** `num` pairs `(x, y)`, the operands taken in stream order. */
  function Cases(hash: seq<Byte>, width: nat, num: nat): (cases: seq<(nat, nat)>)
    ensures |cases| == num
    ensures forall k | 0 <= k < num :: cases[k] == CasePair(hash, width, k)
  {
    seq(num, k requires 0 <= k < num => CasePair(hash, width, k))
  }

  lemma {:induction false} InBuffer(k: nat, num: nat, n: nat)
    requires k < num
    ensures k * 2 * n + 2 * n <= num * 2 * n
    ensures (2 * k) * n == k * 2 * n && (2 * k + 1) * n == k * 2 * n + n
  {
    var d := num - k - 1;
    assert d * n >= 0;
    assert num * n == k * n + n + d * n by {
      assert num == k + 1 + d;
    }
    assert num * 2 * n == 2 * (num * n) && k * 2 * n == 2 * (k * n);
  }

  /** Pair `k` of a digest: `x` from the `n` bytes at `2kn`, `y` from the next `n`, both reduced to `width` bits. */
  predicate IsDrawn(digest: seq<Byte>, width: nat, n: nat, k: nat, pair: (nat, nat))
    requires 2 * k * n + 2 * n <= |digest|
  {
    && pair.0 == LeValue(digest[2 * k * n..2 * k * n + n]) % Pow2(width)
    && pair.1 == LeValue(digest[2 * k * n + n..2 * k * n + 2 * n]) % Pow2(width)
  }

  /** The pairs are read off one digest of `2 * |pairs|` operands, each of `ceil(width / 8)` bytes, in order. */
  predicate AllDrawn(hash: seq<Byte>, width: nat, pairs: seq<(nat, nat)>) {
    var n := (width + 7) / 8;
    var digest := Shake(hash, |pairs| * 2 * n);
    forall k | 0 <= k < |pairs| :: InBuffer(k, |pairs|, n); IsDrawn(digest, width, n, k, pairs[k])
  }

  lemma {:induction false} SliceOfShake(hash: seq<Byte>, from: nat, to: nat, total: nat)
    requires from <= to <= total
    ensures Shake(hash, total)[from..to] == Slice(hash, from, to)
  {
    hide StreamByte, Absorbed;
    ShakePrefix(hash, to, total);
    assert Shake(hash, total)[..to][from..] == Shake(hash, total)[from..to];
  }

  lemma {:induction false} PairIsDrawn(hash: seq<Byte>, width: nat, num: nat, k: nat)
    requires k < num
    ensures var n := (width + 7) / 8;
      2 * k * n + 2 * n <= num * 2 * n && IsDrawn(Shake(hash, num * 2 * n), width, n, k, CasePair(hash, width, k))
  {
    hide Shake, Slice, Pow2, LeValue;
    var n := (width + 7) / 8;
    InBuffer(k, num, n);
    SliceOfShake(hash, 2 * k * n, 2 * k * n + n, num * 2 * n);
    SliceOfShake(hash, 2 * k * n + n, 2 * k * n + 2 * n, num * 2 * n);
  }

  lemma {:induction false} CasesAreDrawn(hash: seq<Byte>, width: nat, num: nat)
    ensures AllDrawn(hash, width, Cases(hash, width, num))
  {
    hide Shake, IsDrawn, CasePair;
    var n, cases := (width + 7) / 8, Cases(hash, width, num);
    forall k | 0 <= k < num
      ensures 2 * k * n + 2 * n <= num * 2 * n && IsDrawn(Shake(hash, num * 2 * n), width, n, k, cases[k])
    {
      PairIsDrawn(hash, width, num, k);
    }
  }

  /** Both operands of every pair, in `n` bytes each. */
  function Written(pairs: seq<(nat, nat)>, n: nat): (s: seq<Byte>)
    ensures |s| == |pairs| * 2 * n
  {
    if pairs == [] then []
    else
      OneMore(|pairs|, n);
      Written(pairs[..|pairs| - 1], n) + LeBytes(pairs[|pairs| - 1].0, n) + LeBytes(pairs[|pairs| - 1].1, n)
  }

  lemma {:induction false} OneMore(num: nat, n: nat)
    requires num > 0
    ensures num * 2 * n == (num - 1) * 2 * n + n + n
  {
    assert num * 2 * n == 2 * (num * n) && (num - 1) * 2 * n == 2 * ((num - 1) * n);
    assert num * n == (num - 1) * n + n;
  }

  /** A whole-byte operand spells its slice of the digest. */
  lemma {:induction false} OperandIsSlice(hash: seq<Byte>, n: nat, j: nat, from: nat, total: nat)
    requires from == OperandStart(8 * n, j) && from + n <= total
    ensures LeBytes(Operand(hash, 8 * n, j), n) == Shake(hash, total)[from..from + n]
  {
    hide Shake, Slice, Pow2, LeValue, LeBytes, OperandStart;
    assert OperandBytes(8 * n) == n;
    var b := Slice(hash, from, from + n);
    SliceOfShake(hash, from, from + n, total);
    LeValueBound(b);
    SmallResidue(LeValue(b), 8 * n);
    BytesOfValue(b);
  }

  lemma {:induction false} PairStart(num: nat, n: nat)
    ensures OperandStart(8 * n, 2 * num) == num * 2 * n
    ensures OperandStart(8 * n, 2 * num + 1) == num * 2 * n + n
  {
    assert OperandBytes(8 * n) == n;
    InBuffer(num, num + 1, n);
  }

  /** One more pair writes the next `2n` bytes of the digest. */
  lemma {:induction false} PairIsSlice(hash: seq<Byte>, n: nat, k: nat, from: nat)
    requires from == k * 2 * n
    ensures var pair := CasePair(hash, 8 * n, k);
      Shake(hash, from + n + n) == Shake(hash, from) + LeBytes(pair.0, n) + LeBytes(pair.1, n)
  {
    hide Shake, LeBytes, Operand, OperandStart;
    var total := from + n + n;
    PairStart(k, n);
    OperandIsSlice(hash, n, 2 * k, from, total);
    OperandIsSlice(hash, n, 2 * k + 1, from + n, total);
    ShakePrefix(hash, from, total);
    var digest := Shake(hash, total);
    assert digest == digest[..from] + digest[from..from + n] + digest[from + n..total];
  }

  /** At whole-byte widths nothing of the digest is lost or reordered: writing the pairs gives it back. */
  lemma {:induction false} WritingGivesDigest(hash: seq<Byte>, n: nat, num: nat)
    ensures Written(Cases(hash, 8 * n, num), n) == Shake(hash, num * 2 * n)
  {
    hide Shake, LeBytes, CasePair;
    if num > 0 {
      var k := num - 1;
      WritingGivesDigest(hash, n, k);
      OneMore(num, n);
      PairIsSlice(hash, n, k, k * 2 * n);
      assert Cases(hash, 8 * n, num)[..k] == Cases(hash, 8 * n, k);
    }
  }

  lemma {:induction false} SmallResidue(v: nat, width: nat)
    requires v < Pow2(width)
    ensures Residue(v, width) == v
  {
    DivModUnique(v, Pow2(width), 0, v);
  }

  // ---------------------------------------------------------------- Rust

  /** `le_u128`: at most sixteen bytes, so no shift leaves the word. */
  method LeU128(bytes: seq<Byte>) returns (v: nat)
    requires |bytes| <= 16
    ensures v == LeValue(bytes)
    ensures v < Pow2(128)
  {
    hide Shl, Pow2;
    v := 0;
    for i := 0 to |bytes|
      invariant v == LeValue(bytes[..i])
    {
      LeValueBound(bytes[..i]);
      OrIsAdd(v, bytes[i], 8 * i);
      LeValueAppend(bytes[..i], bytes[i]);
      assert bytes[..i + 1] == bytes[..i] + [bytes[i]];
      v := BitOr(v, Shl(bytes[i], 8 * i));
    }
    assert bytes[..|bytes|] == bytes;
    LeValueBound(bytes);
    Pow2Monotone(8 * |bytes|, 128);
  }

  /** The masked operand that starts at byte `from` of the buffer. */
  method OperandAt(buf: seq<Byte>, from: nat, width: nat, ghost hash: seq<Byte>, ghost j: nat) returns (v: nat)
    requires 1 <= width <= 128 && buf == Shake(hash, |buf|)
    requires from == OperandStart(width, j) && from + OperandBytes(width) <= |buf|
    ensures v == Operand(hash, width, j)
  {
    hide Shake, Slice, OperandStart, Pow2;
    var n := OperandBytes(width);
    var raw := LeU128(buf[from..from + n]);
    SliceOfShake(hash, from, from + n, |buf|);
    MaskIsMod(raw, width);
    v := BitAnd(raw, Pow2(width) - 1);
  }

  /** `None` is the panic on a width outside `1 ..= 128` or on zero samples. */
  method DeriveCasesRust(hash: seq<Byte>, width: nat, num: nat) returns (r: Option<seq<(nat, nat)>>)
    ensures r == if 1 <= width <= 128 && num > 0 then Some(Cases(hash, width, num)) else None
    ensures r.Some? ==> |r.value| == num && AllDrawn(hash, width, r.value)
  {
    hide Shake, Operand, OperandBytes, Pow2, AllDrawn;
    if !(1 <= width <= 128) || num == 0 {
      return None;
    }
    var n := OperandBytes(width);
    var buf := Shake256.Shake256(hash, num * 2 * n);
    var cases := [];
    for k := 0 to num
      invariant |cases| == k && forall i | 0 <= i < k :: cases[i] == CasePair(hash, width, i)
    {
      var base := k * 2 * n;
      InBuffer(k, num, n);
      var x := OperandAt(buf, base, width, hash, 2 * k);
      var y := OperandAt(buf, base + n, width, hash, 2 * k + 1);
      cases := cases + [(x, y)];
    }
    assert cases == Cases(hash, width, num);
    CasesAreDrawn(hash, width, num);
    return Some(cases);
  }

  // ---------------------------------------------------------------- Python

  method ReadOperand(xof: XOF, width: nat, ghost j: nat) returns (v: nat)
    requires xof.Valid() && xof.offset == OperandStart(width, j)
    modifies xof
    ensures xof.Valid() && xof.offset == OperandStart(width, j + 1)
    ensures v == Operand(xof.seed, width, j)
  {
    hide Shake, Slice, Pow2;
    var n := OperandBytes(width);
    var r := xof.Read(n);
    assert (j + 1) * n == j * n + n;
    MaskIsMod(LeValue(r.value), width);
    v := BitAnd(LeValue(r.value), Pow2(width) - 1);
  }

  method ReadPair(xof: XOF, width: nat, ghost k: nat) returns (pair: (nat, nat))
    requires xof.Valid() && xof.offset == OperandStart(width, 2 * k)
    modifies xof
    ensures xof.Valid() && xof.offset == OperandStart(width, 2 * (k + 1))
    ensures pair == CasePair(xof.seed, width, k)
  {
    hide Operand, OperandStart;
    var x := ReadOperand(xof, width, 2 * k);
    var y := ReadOperand(xof, width, 2 * k + 1);
    pair := (x, y);
  }

  method DrawPairs(xof: XOF, width: nat, num: nat) returns (cases: seq<(nat, nat)>)
    requires xof.Valid() && xof.offset == OperandStart(width, 0)
    modifies xof
    ensures cases == Cases(xof.seed, width, num)
  {
    hide *;
    cases := [];
    for k := 0 to num
      invariant xof.Valid() && xof.offset == OperandStart(width, 2 * k)
      invariant |cases| == k && forall i | 0 <= i < k :: cases[i] == CasePair(xof.seed, width, i)
    {
      var pair := ReadPair(xof, width, k);
      cases := cases + [pair];
    }
  }

  method DeriveCasesPython(hash: seq<Byte>, width: int, num: int) returns (r: Result<seq<(nat, nat)>, ValueError>)
    ensures r == if width > 0 && num > 0 then Ok(Cases(hash, width, num)) else Err(ValueError)
    ensures r.Ok? ==> |r.value| == num && AllDrawn(hash, width, r.value)
  {
    hide Cases, AllDrawn;
    if width <= 0 {
      return Err(ValueError);
    }
    if num <= 0 {
      return Err(ValueError);
    }
    var xof := new XOF(hash);
    var cases := DrawPairs(xof, width, num);
    CasesAreDrawn(hash, width, num);
    return Ok(cases);
  }
}
