/**
 SHAKE-256 over bytes: padding, absorbing and squeezing around Keccak-f[1600]
 (FIPS 202, sections 4, 5.1 and 6.2).
 */
module Shake256 {
  import opened Binary
  import opened Keccak

  const RATE: nat := 136

  // ---------------------------------------------------------------- the sponge, as a function

  function Zeros(n: nat): (s: seq<Byte>)
    ensures |s| == n && forall i | 0 <= i < n :: s[i] == 0
  {
    seq(n, i => 0)
  }

  /** Domain bits 1111, then pad10*1 up to a multiple of the rate. */
  function Pad(input: seq<Byte>): (msg: seq<Byte>)
    ensures |msg| % RATE == 0
  {
    var pad := RATE - |input| % RATE;
    if pad == 1 then input + [0x9f] else input + [0x1f] + Zeros(pad - 2) + [0x80]
  }

  /** The little-endian 64-bit word of eight bytes. */
  function Word(bytes: seq<Byte>): Lane
    requires |bytes| == 8
  {
    seq(64, z requires 0 <= z < 64 => TestBit(bytes[z / 8], z % 8))
  }

  /** Lane `i` of the state after xor-ing in a block. */
  function MixedLane(s: State, block: seq<Byte>, i: nat): Lane
    requires |block| == RATE && i < 25
  {
    if i < 17 then Xor(s[i], Word(block[8 * i..8 * i + 8])) else s[i]
  }

  function MixBlock(s: State, block: seq<Byte>): State
    requires |block| == RATE
  {
    seq(25, i requires 0 <= i < 25 => MixedLane(s, block, i))
  }

  /** Mix in and permute block by block; `msg` is a whole number of blocks. */
  function Absorb(s: State, msg: seq<Byte>): State
    decreases |msg|
  {
    if |msg| < RATE then s else Absorb(KeccakF(MixBlock(s, msg[..RATE])), msg[RATE..])
  }

  function ZeroLane(): Lane {
    seq(64, z => false)
  }

  function ZeroState(): State {
    seq(25, i => ZeroLane())
  }

  /** The state after absorbing `input`, ready to squeeze. */
  function Absorbed(input: seq<Byte>): State {
    Absorb(ZeroState(), Pad(input))
  }

  function Permuted(s: State, n: nat): State {
    if n == 0 then s else KeccakF(Permuted(s, n - 1))
  }

  /** Byte `i` of the outer part of the state. */
  function RateByte(s: State, i: nat): (b: Byte)
    requires i < RATE
  {
    var k := i % 8;
    BitsValueBound(s[i / 8][8 * k..8 * k + 8]);
    BitsValue(s[i / 8][8 * k..8 * k + 8])
  }

  /** Byte `k` of the endless output stream. */
  function StreamByte(s: State, k: nat): Byte {
    RateByte(Permuted(s, k / RATE), k % RATE)
  }

  /** The first `n` bytes of the stream of `input`. */
  function Shake(input: seq<Byte>, n: nat): (out: seq<Byte>)
    ensures |out| == n
  {
    var s := Absorbed(input);
    seq(n, k requires 0 <= k < n => StreamByte(s, k))
  }

  /** The bytes `from .. to-1` of the stream of `input`. */
  function Slice(input: seq<Byte>, from: nat, to: nat): (out: seq<Byte>)
    requires from <= to
    ensures |out| == to - from
  {
    Shake(input, to)[from..]
  }

  lemma {:induction false} ShakePrefix(input: seq<Byte>, a: nat, b: nat)
    requires a <= b
    ensures Shake(input, b)[..a] == Shake(input, a)
  {
  }

  // ---------------------------------------------------------------- padding

  /** The padded message is the shortest multiple of the rate that is longer than the input. */
  lemma {:induction false} PadIsShortest(input: seq<Byte>)
    ensures |input| < |Pad(input)| <= |input| + RATE
    ensures input <= Pad(input)
  {
  }

  /** Different inputs pad to different messages, the one-byte case 0x9f included. */
  lemma {:induction false} PadInjective(a: seq<Byte>, b: seq<Byte>)
    requires Pad(a) == Pad(b)
    ensures a == b
  {
    if |a| < |b| {
      PadTailDiffers(a, b);
    } else if |b| < |a| {
      PadTailDiffers(b, a);
    } else {
      PadIsShortest(a);
      PadIsShortest(b);
      assert a == Pad(a)[..|a|] == Pad(b)[..|b|] == b;
    }
  }

  /** At the end of the longer input the shorter one has padding zeros or its terminator where a domain byte should be. */
  lemma {:induction false} PadTailDiffers(a: seq<Byte>, b: seq<Byte>)
    requires |a| < |b|
    ensures Pad(a) != Pad(b)
  {
    if |Pad(a)| == |Pad(b)| {
      var k, n := |b|, |Pad(a)|;
      PadIsShortest(a);
      PadIsShortest(b);
      assert k < n;
      assert n - |a| >= 2;
      if k < n - 1 {
        assert Pad(a)[k] == 0 && Pad(b)[k] == 0x1f;
      } else {
        assert Pad(a)[k] == 0x80 && Pad(b)[k] == 0x9f;
      }
    }
  }

  // ---------------------------------------------------------------- the implementation

  /** `lane |= (b as u64) << (8 * k)` */
  function OrByte(lane: Lane, b: Byte, k: nat): Lane
    requires k < 8
  {
    seq(64, z requires 0 <= z < 64 => lane[z] || (8 * k <= z < 8 * k + 8 && TestBit(b, z - 8 * k)))
  }

  method LoadWord(bytes: seq<Byte>) returns (lane: Lane)
    requires |bytes| == 8
    ensures lane == Word(bytes)
  {
    hide TestBit;
    lane := ZeroLane();
    for k := 0 to 8
      invariant forall z | 0 <= z < 64 :: lane[z] == (z < 8 * k && TestBit(bytes[z / 8], z % 8))
    {
      lane := OrByte(lane, bytes[k], k);
    }
  }

  method MixInPlace(st: array<Lane>, block: seq<Byte>)
    requires st.Length == 25 && |block| == RATE
    modifies st
    ensures st[..] == MixBlock(old(st[..]), block)
  {
    hide Word, Xor;
    ghost var s: State := st[..];
    for i := 0 to 17
      invariant forall k | 0 <= k < 25 :: st[k] == if k < i then MixedLane(s, block, k) else s[k]
    {
      var lane := LoadWord(block[8 * i..8 * i + 8]);
      st[i] := Xor(st[i], lane);
    }
  }

  method PadMessage(input: seq<Byte>) returns (msg: seq<Byte>)
    ensures msg == Pad(input)
  {
    var pad := RATE - |input| % RATE;
    msg := input + [0x1f];
    msg := msg + Zeros(pad - 1);
    var last := |msg| - 1;
    OrIsAdd(msg[last], 1, 7);
    assert Shl(1, 7) == 128;
    msg := msg[last := BitOr(msg[last], 0x80)];
  }

  lemma {:induction false} BlockFits(n: nat, p: nat)
    requires n % RATE == 0 && p % RATE == 0 && p < n
    ensures p + RATE <= n && (p + RATE) % RATE == 0
  {
  }

  lemma {:induction false} AbsorbMore(s: State, msg: seq<Byte>, p: nat)
    requires p + RATE <= |msg|
    ensures Absorb(s, msg[p..]) == Absorb(KeccakF(MixBlock(s, msg[p..p + RATE])), msg[p + RATE..])
  {
    hide MixBlock, KeccakF;
    assert msg[p..][..RATE] == msg[p..p + RATE] && msg[p..][RATE..] == msg[p + RATE..];
  }

  method AbsorbMessage(st: array<Lane>, msg: seq<Byte>)
    requires st.Length == 25 && |msg| % RATE == 0
    modifies st
    ensures st[..] == Absorb(old(st[..]), msg)
  {
    hide MixBlock, KeccakF;
    var p := 0;
    while p < |msg|
      invariant p <= |msg| && p % RATE == 0
      invariant Absorb(st[..], msg[p..]) == Absorb(old(st[..]), msg)
    {
      BlockFits(|msg|, p);
      AbsorbMore(st[..], msg, p);
      MixInPlace(st, msg[p..p + RATE]);
      KeccakF1600(st);
      p := p + RATE;
    }
  }

  /** Squeeze the first `take` bytes of the outer part. */
  method SqueezeBlock(st: array<Lane>, take: nat) returns (out: seq<Byte>)
    requires st.Length == 25 && take <= RATE
    ensures |out| == take && forall i | 0 <= i < take :: out[i] == RateByte(st[..], i)
  {
    hide RateByte;
    out := [];
    for i := 0 to take
      invariant |out| == i && forall j | 0 <= j < i :: out[j] == RateByte(st[..], j)
    {
      out := out + [RateByte(st[..], i)];
    }
  }

  lemma {:induction false} StreamBlock(s: State, n: nat, i: nat)
    requires i < RATE
    ensures StreamByte(s, n * RATE + i) == RateByte(Permuted(s, n), i)
  {
    assert (n * RATE + i) / RATE == n && (n * RATE + i) % RATE == i;
  }

  /** The squeezing loop: `blocks` whole blocks are out before each permutation. */
  method SqueezeAll(st: array<Lane>, outLen: nat) returns (out: seq<Byte>)
    requires st.Length == 25
    modifies st
    ensures |out| == outLen
    ensures forall k | 0 <= k < outLen :: out[k] == StreamByte(old(st[..]), k)
  {
    hide RateByte, KeccakF, StreamByte;
    ghost var s: State := st[..];
    ghost var n := 0;
    out := [];
    while |out| < outLen
      invariant |out| <= outLen && (|out| < outLen ==> |out| == n * RATE && st[..] == Permuted(s, n))
      invariant forall k | 0 <= k < |out| :: out[k] == StreamByte(s, k)
      decreases outLen - |out|
    {
      var take := if RATE < outLen - |out| then RATE else outLen - |out|;
      var block := SqueezeBlock(st, take);
      forall i | 0 <= i < take ensures block[i] == StreamByte(s, n * RATE + i) {
        StreamBlock(s, n, i);
      }
      out := out + block;
      if |out| < outLen {
        KeccakF1600(st);
        n := n + 1;
      }
    }
  }

  method Shake256(input: seq<Byte>, outLen: nat) returns (out: seq<Byte>)
    ensures out == Shake(input, outLen)
  {
    hide Absorb, Pad, StreamByte;
    var st := new Lane[25](_ => ZeroLane());
    assert st[..] == ZeroState();
    var msg := PadMessage(input);
    AbsorbMessage(st, msg);
    out := SqueezeAll(st, outLen);
  }
}
