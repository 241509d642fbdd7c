/**
 The reference simulator for GTV1 gate lists: a bit vector packed into bytes,
 updated in place, one gate at a time.
 */
module Reference {
  import opened Wrappers
  import opened Binary
  import opened Gtv1
  import Classical

  datatype SimError = IndexError | UnknownOpcode

  // ---------------------------------------------------------------- packed bits

  /** `(b >> k) & 1 == 1` */
  function GetBit(b: bv8, k: nat): bool
    requires k < 8
  {
    (b >> k) & 1 == 1
  }

  /** `b | (1 << k)` or `b & ~(1 << k)` */
  function SetBit(b: bv8, k: nat, v: bool): bv8
    requires k < 8
  {
    if v then b | (1 << k) else b & !(1 << k)
  }

  lemma {:induction false} ShiftedOne(k: nat)
    requires k < 8
    ensures (1 as bv8 << k) == [1, 2, 4, 8, 16, 32, 64, 128][k]
  {
  }

  lemma {:induction false} GetAfterSet(b: bv8, k: nat, j: nat, v: bool)
    requires k < 8 && j < 8
    ensures GetBit(SetBit(b, k, v), j) == if j == k then v else GetBit(b, j)
  {
    ShiftedOne(k);
    match k
    case 0 =>
    case 1 =>
    case 2 =>
    case 3 =>
    case 4 =>
    case 5 =>
    case 6 =>
    case _ =>
  }

  lemma {:induction false} BitsDetermine(a: bv8, b: bv8)
    requires forall k | 0 <= k < 8 :: GetBit(a, k) == GetBit(b, k)
    ensures a == b
  {
    assert GetBit(a, 0) == GetBit(b, 0) && GetBit(a, 1) == GetBit(b, 1);
    assert GetBit(a, 2) == GetBit(b, 2) && GetBit(a, 3) == GetBit(b, 3);
    assert GetBit(a, 4) == GetBit(b, 4) && GetBit(a, 5) == GetBit(b, 5);
    assert GetBit(a, 6) == GetBit(b, 6) && GetBit(a, 7) == GetBit(b, 7);
  }

  /** Bit `i` lives in byte `i / 8` at position `i % 8`. */
  function Unpack(bytes: seq<bv8>): (bits: seq<bool>)
    ensures |bits| == 8 * |bytes|
  {
    seq(8 * |bytes|, i requires 0 <= i < 8 * |bytes| => GetBit(bytes[i / 8], i % 8))
  }

  /** A byte string is determined by its bits. */
  lemma {:induction false} UnpackInjective(a: seq<bv8>, b: seq<bv8>)
    requires Unpack(a) == Unpack(b)
    ensures a == b
  {
    hide GetBit;
    assert |a| == |b|;
    forall i | 0 <= i < |a| ensures a[i] == b[i] {
      forall k | 0 <= k < 8 ensures GetBit(a[i], k) == GetBit(b[i], k) {
        assert (8 * i + k) / 8 == i && (8 * i + k) % 8 == k;
        assert Unpack(a)[8 * i + k] == Unpack(b)[8 * i + k];
      }
      BitsDetermine(a[i], b[i]);
    }
  }

  /** The bytes as numbers. */
  function Octets(bytes: seq<bv8>): (s: seq<Byte>)
    ensures |s| == |bytes|
  {
    seq(|bytes|, i requires 0 <= i < |bytes| => bytes[i] as nat)
  }

  /** Bit `k` of a byte is worth `2^k`. */
  lemma {:induction false} ByteIsBits(b: bv8)
    ensures b as nat == EightSum(GetBit(b, 0), GetBit(b, 1), GetBit(b, 2), GetBit(b, 3),
                                 GetBit(b, 4), GetBit(b, 5), GetBit(b, 6), GetBit(b, 7))
  {
  }

  lemma {:induction false} UnpackOne(b: bv8)
    ensures Unpack([b]) == [GetBit(b, 0), GetBit(b, 1), GetBit(b, 2), GetBit(b, 3),
                            GetBit(b, 4), GetBit(b, 5), GetBit(b, 6), GetBit(b, 7)]
  {
    hide GetBit;
  }

  lemma {:induction false} UnpackByte(b: bv8)
    ensures BitsValue(Unpack([b])) == b as nat
  {
    hide *;
    UnpackOne(b);
    ByteIsBits(b);
    EightBits(GetBit(b, 0), GetBit(b, 1), GetBit(b, 2), GetBit(b, 3), GetBit(b, 4), GetBit(b, 5), GetBit(b, 6), GetBit(b, 7));
    ByteValue(b as nat);
  }

  lemma {:induction false} UnpackConcat(a: seq<bv8>, b: seq<bv8>)
    ensures Unpack(a + b) == Unpack(a) + Unpack(b)
  {
    hide GetBit;
    var l, r := Unpack(a + b), Unpack(a) + Unpack(b);
    forall i | 0 <= i < 8 * |a + b| ensures l[i] == r[i] {
      if i >= 8 * |a| {
        assert i / 8 - |a| == (i - 8 * |a|) / 8 && i % 8 == (i - 8 * |a|) % 8;
      }
    }
  }

  /** The little-endian integer of a packed state is the number its bits spell, least significant first. */
  lemma {:induction false} PackedValue(bytes: seq<bv8>)
    ensures LeValue(Octets(bytes)) == BitsValue(Unpack(bytes))
  {
    hide Unpack, BitsValue;
    if bytes == [] {
      EmptyState();
    } else {
      var b, rest := bytes[0], bytes[1..];
      PackedValue(rest);
      UnpackConcat([b], rest);
      UnpackByte(b);
      BitsValueConcat(Unpack([b]), Unpack(rest));
      ShlByte(BitsValue(Unpack(rest)), 0);
      ShlStep(BitsValue(Unpack(rest)), 0);
      assert bytes == [b] + rest && Octets(bytes)[1..] == Octets(rest);
    }
  }

  lemma {:induction false} EmptyState()
    ensures BitsValue(Unpack([])) == 0
  {
  }

  /** Unpacking is reading the binary digits of that integer. */
  lemma {:induction false} UnpackIsBits(bytes: seq<bv8>)
    ensures Unpack(bytes) == BitsOf(LeValue(Octets(bytes)), 8 * |bytes|)
  {
    hide Unpack, BitsOf, BitsValue, Octets, LeValue;
    PackedValue(bytes);
    BitsOfValue(Unpack(bytes));
  }

  /** Bit `i` of a packed state is digit `i` of its little-endian integer. */
  lemma {:induction false} PackedBit(bytes: seq<bv8>, i: nat)
    requires i < 8 * |bytes|
    ensures Unpack(bytes)[i] == TestBit(LeValue(Octets(bytes)), i)
  {
    hide Unpack, BitsOf, Octets, LeValue, TestBit;
    UnpackIsBits(bytes);
    BitsOfAt(LeValue(Octets(bytes)), 8 * |bytes|, i);
  }

  lemma {:induction false} UnpackSet(bytes: seq<bv8>, i: nat, v: bool)
    requires i < 8 * |bytes|
    ensures Unpack(bytes[i / 8 := SetBit(bytes[i / 8], i % 8, v)]) == Unpack(bytes)[i := v]
  {
    hide GetBit, SetBit;
    var after := bytes[i / 8 := SetBit(bytes[i / 8], i % 8, v)];
    forall j | 0 <= j < 8 * |bytes| ensures Unpack(after)[j] == Unpack(bytes)[i := v][j] {
      if j / 8 == i / 8 {
        GetAfterSet(bytes[i / 8], i % 8, j % 8, v);
        assert j % 8 == i % 8 <==> j == i;
      }
    }
  }

  class BitVector {
    const data: array<bv8>

    constructor (bits: seq<bv8>)
      ensures fresh(data) && data[..] == bits
    {
      data := new bv8[|bits|](i requires 0 <= i < |bits| => bits[i]);
    }

    function Bits(): (bits: seq<bool>)
      reads data
      ensures |bits| == 8 * data.Length
    {
      Unpack(data[..])
    }

    /** `IndexError` outside the vector. */
    method Get(i: int) returns (r: Option<bool>)
      ensures r == if 0 <= i < |Bits()| then Some(Bits()[i]) else None
      ensures r.Some? <==> 0 <= i < 8 * data.Length
      ensures r.Some? ==> r.value == TestBit(LeValue(Octets(data[..])), i)
    {
      hide GetBit, TestBit, LeValue, Octets;
      if !(0 <= i < 8 * data.Length) {
        return None;
      }
      PackedBit(data[..], i);
      return Some(GetBit(data[i / 8], i % 8));
    }

    method Set(i: int, v: bool) returns (ok: bool)
      modifies data
      ensures ok <==> 0 <= i < |old(Bits())|
      ensures Bits() == if ok then old(Bits())[i := v] else old(Bits())
      ensures forall j | 0 <= j < 8 * data.Length ::
        TestBit(LeValue(Octets(data[..])), j) == if ok && j == i then v else TestBit(old(LeValue(Octets(data[..]))), j)
    {
      hide SetBit, TestBit, LeValue, Octets, Unpack;
      ghost var was := data[..];
      forall j | 0 <= j < 8 * |was| ensures Unpack(was)[j] == TestBit(LeValue(Octets(was)), j) {
        PackedBit(was, j);
      }
      if !(0 <= i < 8 * data.Length) {
        return false;
      }
      UnpackSet(data[..], i, v);
      ghost var before := data[..];
      data[i / 8] := SetBit(data[i / 8], i % 8, v);
      assert data[..] == before[i / 8 := SetBit(before[i / 8], i % 8, v)];
      ghost var now := data[..];
      forall j | 0 <= j < 8 * |now| ensures Unpack(now)[j] == TestBit(LeValue(Octets(now)), j) {
        PackedBit(now, j);
      }
      return true;
    }
  }

  // ---------------------------------------------------------------- gate semantics

  predicate InRange(i: int, bits: seq<bool>) {
    0 <= i < |bits|
  }

  function StepGate(g: Gate, bits: seq<bool>): (r: Result<seq<bool>, SimError>)
    ensures r.Ok? ==> |r.value| == |bits|
  {
    if g.opcode == NOP then Ok(bits)
    else if g.opcode == NOT then
      if !InRange(g.target, bits) then Err(IndexError)
      else Ok(bits[g.target := !bits[g.target]])
    else if g.opcode == CNOT then
      if !InRange(g.ctrlA, bits) || !InRange(g.target, bits) then Err(IndexError)
      else Ok(bits[g.target := bits[g.target] != bits[g.ctrlA]])
    else if g.opcode == TOFFOLI then
      if !InRange(g.ctrlA, bits) || !InRange(g.ctrlB, bits) || !InRange(g.target, bits) then Err(IndexError)
      else Ok(bits[g.target := bits[g.target] != (bits[g.ctrlA] && bits[g.ctrlB])])
    else Err(SimError.UnknownOpcode)
  }

  function RunGates(gates: seq<Gate>, bits: seq<bool>): (r: Result<seq<bool>, SimError>)
    ensures r.Ok? ==> |r.value| == |bits|
    decreases |gates|
  {
    if gates == [] then Ok(bits)
    else match StepGate(gates[0], bits)
      case Err(e) => Err(e)
      case Ok(next) => RunGates(gates[1..], next)
  }

  /** Flip the target by `c`, the last lines of every gate. */
  method Xor(state: BitVector, target: int, c: bool) returns (r: Option<SimError>)
    modifies state.data
    ensures r == if InRange(target, old(state.Bits())) then None else Some(IndexError)
    ensures r.None? ==> state.Bits() == old(state.Bits())[target := old(state.Bits())[target] != c]
    ensures |state.Bits()| == |old(state.Bits())|
  {
    var t := state.Get(target);
    if t.None? {
      return Some(IndexError);
    }
    var ok := state.Set(target, t.value != c);
    return None;
  }

  method Step(state: BitVector, g: Gate) returns (r: Option<SimError>)
    modifies state.data
    ensures |state.Bits()| == |old(state.Bits())|
    ensures StepGate(g, old(state.Bits())) == if r.None? then Ok(state.Bits()) else Err(r.value)
  {
    hide Unpack;
    if g.opcode == NOP {
      return None;
    }
    if g.opcode == NOT {
      r := Xor(state, g.target, true);
      return;
    }
    if g.opcode == CNOT {
      var c := state.Get(g.ctrlA);
      if c.None? {
        return Some(IndexError);
      }
      r := Xor(state, g.target, c.value);
      return;
    }
    if g.opcode == TOFFOLI {
      var a := state.Get(g.ctrlA);
      if a.None? {
        return Some(IndexError);
      }
      var b := state.Get(g.ctrlB);
      if b.None? {
        return Some(IndexError);
      }
      r := Xor(state, g.target, a.value && b.value);
      return;
    }
    return Some(SimError.UnknownOpcode);
  }

  /** Run on a copy of `x`; the result is packed the same way. */
  method Run(circuit: seq<Gate>, x: seq<bv8>) returns (r: Result<seq<bv8>, SimError>)
    ensures r.Ok? <==> RunGates(circuit, Unpack(x)).Ok?
    ensures r.Ok? ==> |r.value| == |x| && Ok(Unpack(r.value)) == RunGates(circuit, Unpack(x))
    ensures r.Err? ==> Err(r.error) == RunGates(circuit, Unpack(x))
  {
    hide StepGate, Unpack;
    var state := new BitVector(x);
    ghost var start := Unpack(x);
    for k := 0 to |circuit|
      invariant RunGates(circuit[k..], state.Bits()) == RunGates(circuit, start)
    {
      assert circuit[k..][0] == circuit[k] && circuit[k..][1..] == circuit[k + 1..];
      var e := Step(state, circuit[k]);
      if e.Some? {
        return Err(e.value);
      }
    }
    assert circuit[|circuit|..] == [];
    return Ok(state.data[..]);
  }

  // ---------------------------------------------------------------- emitted gates

  /** The GTV1 row of a classical gate. */
  function Emit(g: Classical.Gate): Gate {
    match g
    case Not(t) => Gate(NOT, t, UNUSED_CTRL, UNUSED_CTRL)
    case Cnot(c, t) => Gate(CNOT, t, c, UNUSED_CTRL)
    case Toffoli(a, b, t) => Gate(TOFFOLI, t, a, b)
  }

  /** The GTV1 row of each kickmix gate: opcode, target, then the controls, 0xFFFF for none. */
  lemma {:induction false} EmittedRows(c: nat, d: nat, t: nat)
    ensures Emit(Classical.Not(t)) == Gate(1, t, 0xFFFF, 0xFFFF)
    ensures Emit(Classical.Cnot(c, t)) == Gate(2, t, c, 0xFFFF)
    ensures Emit(Classical.Toffoli(c, d, t)) == Gate(3, t, c, d)
    ensures Classical.Encode(Classical.Not(t)).opcode.X?
    ensures Classical.Encode(Classical.Cnot(c, t)).opcode.CX?
    ensures Classical.Encode(Classical.Toffoli(c, d, t)).opcode.CCX?
  {
  }

  function EmitAll(gs: seq<Classical.Gate>): (r: seq<Gate>)
    ensures |r| == |gs|
  {
    if gs == [] then [] else [Emit(gs[0])] + EmitAll(gs[1..])
  }

  /** Emitted gates never leave the vector and act as the classical gates they came from. */
  lemma {:induction false} RunEmitted(gs: seq<Classical.Gate>, bits: seq<bool>)
    requires Classical.AllFit(gs, |bits|)
    ensures RunGates(EmitAll(gs), bits) == Ok(Classical.ApplyAll(gs, bits))
    decreases |gs|
  {
    if gs != [] {
      assert EmitAll(gs)[0] == Emit(gs[0]) && EmitAll(gs)[1..] == EmitAll(gs[1..]);
      assert StepGate(Emit(gs[0]), bits) == Ok(Classical.Apply(gs[0], bits));
      RunEmitted(gs[1..], Classical.Apply(gs[0], bits));
    }
  }
}
