/** Register values in and out of the packed state of the reference simulator. */
module Registers {
  import opened Wrappers
  import opened Binary
  import opened Circuits
  import Simulator
  import opened Reference

  datatype RegisterError = KeyError(register: nat) | OutOfRange

  /** `(num_qubits + 7) // 8` */
  function MinStateBytes(numQubits: nat): nat {
    (numQubits + 7) / 8
  }

  function Lookup(layout: seq<RegisterEntry>, id: nat): Option<seq<nat>> {
    if layout == [] then None
    else if layout[0].id == id then Some(layout[0].members)
    else Lookup(layout[1..], id)
  }

  predicate Fits(members: seq<nat>, width: nat) {
    forall j | 0 <= j < |members| :: members[j] < width
  }

  /** The bits after writing the first `k` values, in the order given. */
  function EncodeBits(values: seq<(nat, int)>, layout: seq<RegisterEntry>, bits: seq<bool>, k: nat)
    : (r: Result<seq<bool>, RegisterError>)
    requires k <= |values|
    ensures r.Ok? ==> |r.value| == |bits|
  {
    if k == 0 then Ok(bits)
    else match EncodeBits(values, layout, bits, k - 1)
      case Err(e) => Err(e)
      case Ok(b) =>
        var members := Lookup(layout, values[k - 1].0);
        if members.None? then Err(KeyError(values[k - 1].0))
        else if !Fits(members.value, |bits|) then Err(OutOfRange)
        else Ok(Simulator.Loaded(b, members.value, Residue(values[k - 1].1, |members.value|), |members.value|))
  }

  /** The first `k` registers of the layout, read back; `None` is an index outside the state. */
  function DecodeBits(bits: seq<bool>, layout: seq<RegisterEntry>, k: nat): (r: Option<seq<nat>>)
    requires k <= |layout|
    ensures r.Some? ==> |r.value| == k
  {
    if k == 0 then Some([])
    else match DecodeBits(bits, layout, k - 1)
      case None => None
      case Some(values) =>
        if !Fits(layout[k - 1].members, |bits|) then None
        else Some(values + [BitsValue(Simulator.Gathered(bits, layout[k - 1].members))])
  }

  function ZeroBytes(n: nat): (b: seq<bv8>)
    ensures |b| == n
  {
    seq(n, i => 0)
  }

  lemma {:induction false} ZeroBytesBits(n: nat)
    ensures Unpack(ZeroBytes(n)) == seq(8 * n, i => false)
  {
  }

  // ---------------------------------------------------------------- the implementations

  method WriteMembers(bv: BitVector, members: seq<nat>, residue: nat) returns (ok: bool)
    modifies bv.data
    ensures ok <==> Fits(members, |old(bv.Bits())|)
    ensures ok ==> bv.Bits() == Simulator.Loaded(old(bv.Bits()), members, residue, |members|)
  {
    hide Unpack, TestBit, Simulator.Loaded;
    ghost var before := bv.Bits();
    for j := 0 to |members|
      invariant forall i | 0 <= i < j :: members[i] < |before|
      invariant bv.Bits() == LoadedSome(before, members, residue, j)
    {
      ok := bv.Set(members[j], TestBit(residue, j));
      if !ok {
        return;
      }
    }
    LoadedSomeIsLoaded(before, members, residue, |members|);
    return true;
  }

  /** `Loaded` on the first `n` members only, the rest unchecked. */
  ghost function LoadedSome(bits: seq<bool>, members: seq<nat>, value: nat, n: nat): (q: seq<bool>)
    requires n <= |members| && forall i | 0 <= i < n :: members[i] < |bits|
    ensures |q| == |bits|
  {
    if n == 0 then bits else LoadedSome(bits, members, value, n - 1)[members[n - 1] := TestBit(value, n - 1)]
  }

  lemma {:induction false} LoadedSomeIsLoaded(bits: seq<bool>, members: seq<nat>, value: nat, n: nat)
    requires n <= |members| && Fits(members, |bits|)
    ensures LoadedSome(bits, members, value, n) == Simulator.Loaded(bits, members, value, n)
  {
    if n > 0 {
      LoadedSomeIsLoaded(bits, members, value, n - 1);
    }
  }

  method EncodeRegisters(values: seq<(nat, int)>, layout: seq<RegisterEntry>, numBytes: nat)
    returns (r: Result<seq<bv8>, RegisterError>)
    ensures r.Ok? <==> EncodeBits(values, layout, seq(8 * numBytes, i => false), |values|).Ok?
    ensures r.Ok? ==> |r.value| == numBytes
    ensures r.Ok? ==> Ok(Unpack(r.value)) == EncodeBits(values, layout, seq(8 * numBytes, i => false), |values|)
    ensures r.Ok? ==>
      LeValue(Octets(r.value)) == BitsValue(EncodeBits(values, layout, seq(8 * numBytes, i => false), |values|).value)
    ensures r.Err? ==> Err(r.error) == EncodeBits(values, layout, seq(8 * numBytes, i => false), |values|)
  {
    hide Unpack, Lookup, Residue, Fits, LeValue, Octets, BitsValue;
    var bv := new BitVector(ZeroBytes(numBytes));
    ZeroBytesBits(numBytes);
    ghost var zero := bv.Bits();
    for k := 0 to |values|
      invariant EncodeBits(values, layout, zero, k) == Ok(bv.Bits()) && |bv.Bits()| == |zero|
    {
      var members := Lookup(layout, values[k].0);
      if members.None? {
        EncodeStuck(values, layout, zero, k + 1, |values|);
        return Err(KeyError(values[k].0));
      }
      var ok := WriteMembers(bv, members.value, Residue(values[k].1, |members.value|));
      if !ok {
        EncodeStuck(values, layout, zero, k + 1, |values|);
        return Err(OutOfRange);
      }
    }
    PackedValue(bv.data[..]);
    return Ok(bv.data[..]);
  }

  lemma {:induction false} EncodeStuck(
      values: seq<(nat, int)>, layout: seq<RegisterEntry>, bits: seq<bool>, k: nat, n: nat)
    requires k <= n <= |values| && EncodeBits(values, layout, bits, k).Err?
    ensures EncodeBits(values, layout, bits, n) == EncodeBits(values, layout, bits, k)
  {
    if k < n {
      EncodeStuck(values, layout, bits, k, n - 1);
    }
  }

  /** Or-ing in bit `|s|` appends it. */
  lemma {:induction false} OrBit(s: seq<bool>, b: bool)
    ensures BitOr(BitsValue(s), Shl(Bit(b), |s|)) == BitsValue(s + [b])
  {
    BitsValueAppend(s, b);
    BitsValueBound(s);
    OrIsAdd(BitsValue(s), Bit(b), |s|);
    assert Shl(Bit(b), |s|) == Weight(b, Pow2(|s|));
  }

  method ReadMembers(bv: BitVector, members: seq<nat>) returns (r: Option<nat>)
    ensures r.Some? <==> Fits(members, |bv.Bits()|)
    ensures r.Some? ==> r.value == BitsValue(Simulator.Gathered(bv.Bits(), members))
  {
    var value := 0;
    assert BitsValue([]) == 0;
    hide BitOr, Shl, BitsValue;
    for j := 0 to |members|
      invariant forall i | 0 <= i < j :: members[i] < |bv.Bits()|
      invariant value == BitsValue(Simulator.Gathered(bv.Bits(), members[..j]))
    {
      var b := bv.Get(members[j]);
      if b.None? {
        return None;
      }
      ghost var got := Simulator.Gathered(bv.Bits(), members[..j]);
      assert Simulator.Gathered(bv.Bits(), members[..j + 1]) == got + [b.value];
      OrBit(got, b.value);
      value := BitOr(value, Shl(Bit(b.value), j));
    }
    assert members[..|members|] == members;
    return Some(value);
  }

  method DecodeRegisters(state: seq<bv8>, layout: seq<RegisterEntry>) returns (r: Option<seq<nat>>)
    ensures r == DecodeBits(Unpack(state), layout, |layout|)
    ensures r == DecodeBits(BitsOf(LeValue(Octets(state)), 8 * |state|), layout, |layout|)
  {
    hide Fits, Unpack, Simulator.Gathered, LeValue, Octets, BitsOf;
    UnpackIsBits(state);
    var bv := new BitVector(state);
    ghost var bits := Unpack(state);
    var values := [];
    for k := 0 to |layout|
      invariant bv.Bits() == bits && DecodeBits(bits, layout, k) == Some(values)
    {
      var v := ReadMembers(bv, layout[k].members);
      if v.None? {
        DecodeStuck(bits, layout, k + 1, |layout|);
        return None;
      }
      values := values + [v.value];
    }
    return Some(values);
  }

  lemma {:induction false} DecodeStuck(bits: seq<bool>, layout: seq<RegisterEntry>, k: nat, n: nat)
    requires k <= n <= |layout| && DecodeBits(bits, layout, k).None?
    ensures DecodeBits(bits, layout, n).None?
  {
    if k < n {
      DecodeStuck(bits, layout, k, n - 1);
    }
  }

  // ---------------------------------------------------------------- the round trip

  predicate NoDuplicates(s: seq<nat>) {
    forall i, j | 0 <= i < j < |s| :: s[i] != s[j]
  }

  predicate Apart(a: seq<nat>, b: seq<nat>) {
    forall i | 0 <= i < |a| :: a[i] !in b
  }

  /** Distinct registers with disjoint, duplicate-free members inside the state. */
  ghost predicate GoodLayout(layout: seq<RegisterEntry>, width: nat) {
    && (forall i | 0 <= i < |layout| :: NoDuplicates(layout[i].members) && Fits(layout[i].members, width))
    && (forall i, j | 0 <= i < |layout| && 0 <= j < |layout| && i != j ::
          layout[i].id != layout[j].id && Apart(layout[i].members, layout[j].members))
  }

  /** The value last written to register `id` among the first `k`, or 0. */
  function LastValue(values: seq<(nat, int)>, id: nat, k: nat): int
    requires k <= |values|
  {
    if k == 0 then 0 else if values[k - 1].0 == id then values[k - 1].1 else LastValue(values, id, k - 1)
  }

  lemma {:induction false} LookupAt(layout: seq<RegisterEntry>, i: nat)
    requires i < |layout| && forall j | 0 <= j < i :: layout[j].id != layout[i].id
    ensures Lookup(layout, layout[i].id) == Some(layout[i].members)
  {
    if i > 0 {
      assert layout[1..][i - 1] == layout[i];
      assert layout[0].id != layout[i].id;
      forall j | 0 <= j < i - 1 ensures layout[1..][j].id != layout[1..][i - 1].id {
        assert layout[1..][j] == layout[j + 1];
      }
      LookupAt(layout[1..], i - 1);
    }
  }

  lemma {:induction false} LookupFinds(layout: seq<RegisterEntry>, id: nat) returns (i: nat)
    requires Lookup(layout, id).Some?
    ensures i < |layout| && layout[i].id == id && Lookup(layout, id) == Some(layout[i].members)
  {
    if layout[0].id == id {
      i := 0;
    } else {
      i := LookupFinds(layout[1..], id);
      i := i + 1;
    }
  }

  /** Writing one register leaves the bits of a disjoint one alone. */
  lemma {:induction false} WriteApart(bits: seq<bool>, a: seq<nat>, b: seq<nat>, value: nat)
    requires NoDuplicates(a) && Fits(a, |bits|) && Fits(b, |bits|) && Apart(b, a)
    ensures Simulator.Gathered(Simulator.Loaded(bits, a, value, |a|), b) == Simulator.Gathered(bits, b)
  {
    hide Simulator.Loaded, TestBit;
    Simulator.LoadedAt(bits, a, value, |a|);
    assert a[..|a|] == a;
  }

  /** After any successful encoding, register `i` holds its last value reduced to its width. */
  lemma {:induction false} EncodedRegister(
      values: seq<(nat, int)>, layout: seq<RegisterEntry>, width: nat, k: nat, i: nat)
    requires k <= |values| && i < |layout| && GoodLayout(layout, width)
    requires EncodeBits(values, layout, seq(width, j => false), k).Ok?
    ensures Simulator.Gathered(EncodeBits(values, layout, seq(width, j => false), k).value, layout[i].members)
         == BitsOf(Residue(LastValue(values, layout[i].id, k), |layout[i].members|), |layout[i].members|)
  {
    hide Simulator.Loaded, Residue, BitsOf, Simulator.Gathered;
    var zero := seq(width, j => false);
    var members := layout[i].members;
    if k == 0 {
      ZeroRegister(width, members);
    } else {
      EncodedRegister(values, layout, width, k - 1, i);
      var b := EncodeBits(values, layout, zero, k - 1).value;
      var t := LookupFinds(layout, values[k - 1].0);
      var v := Residue(values[k - 1].1, |layout[t].members|);
      if t == i {
        Simulator.LoadThenRead(b, members, v);
      } else {
        WriteApart(b, layout[t].members, members, v);
      }
    }
  }

  lemma {:induction false} ZeroRegister(width: nat, members: seq<nat>)
    requires Fits(members, width)
    ensures Simulator.Gathered(seq(width, j => false), members) == BitsOf(Residue(0, |members|), |members|)
  {
    var s := Simulator.Gathered(seq(width, j => false), members);
    ZeroValue(s);
    BitsOfValue(s);
    assert Residue(0, |members|) == 0;
  }

  lemma {:induction false} ZeroValue(s: seq<bool>)
    requires forall j | 0 <= j < |s| :: !s[j]
    ensures BitsValue(s) == 0
  {
    if s != [] {
      ZeroValue(s[1..]);
    }
  }

  /** A qubit of no register stays off. */
  lemma {:induction false} EncodedOutside(
      values: seq<(nat, int)>, layout: seq<RegisterEntry>, width: nat, k: nat, q: nat)
    requires k <= |values| && q < width && GoodLayout(layout, width)
    requires forall i | 0 <= i < |layout| :: q !in layout[i].members
    requires EncodeBits(values, layout, seq(width, j => false), k).Ok?
    ensures !EncodeBits(values, layout, seq(width, j => false), k).value[q]
  {
    hide Simulator.Loaded, Residue, TestBit;
    if k > 0 {
      EncodedOutside(values, layout, width, k - 1, q);
      var b := EncodeBits(values, layout, seq(width, j => false), k - 1).value;
      var t := LookupFinds(layout, values[k - 1].0);
      var members := layout[t].members;
      Simulator.LoadedAt(b, members, Residue(values[k - 1].1, |members|), |members|);
      assert members[..|members|] == members;
    }
  }

  lemma {:induction false} DecodeReads(bits: seq<bool>, layout: seq<RegisterEntry>, k: nat)
    requires k <= |layout| && forall i | 0 <= i < |layout| :: Fits(layout[i].members, |bits|)
    ensures DecodeBits(bits, layout, k).Some?
    ensures forall i | 0 <= i < k ::
      && Fits(layout[i].members, |bits|)
      && DecodeBits(bits, layout, k).value[i] == BitsValue(Simulator.Gathered(bits, layout[i].members))
  {
    hide Simulator.Gathered;
    if k > 0 {
      DecodeReads(bits, layout, k - 1);
    }
  }

  /**
   For every layout with disjoint duplicate-free registers: decoding an encoded
   state returns each value modulo 2^width, 0 for a register without a value.
   */
  lemma {:induction false} EncodeThenDecode(values: seq<(nat, int)>, layout: seq<RegisterEntry>, width: nat)
    requires GoodLayout(layout, width)
    requires EncodeBits(values, layout, seq(width, j => false), |values|).Ok?
    ensures
      var decoded := DecodeBits(EncodeBits(values, layout, seq(width, j => false), |values|).value, layout, |layout|);
      && decoded.Some? && |decoded.value| == |layout|
      && forall i | 0 <= i < |layout| ::
           decoded.value[i] == LastValue(values, layout[i].id, |values|) % Pow2(|layout[i].members|)
  {
    hide EncodeBits, DecodeBits, Simulator.Gathered, LastValue, BitsOf;
    var bits := EncodeBits(values, layout, seq(width, j => false), |values|).value;
    DecodeReads(bits, layout, |layout|);
    forall i | 0 <= i < |layout|
      ensures BitsValue(Simulator.Gathered(bits, layout[i].members))
           == LastValue(values, layout[i].id, |values|) % Pow2(|layout[i].members|)
    {
      EncodedRegister(values, layout, width, |values|, i);
      ReducedValue(LastValue(values, layout[i].id, |values|), |layout[i].members|);
    }
  }

  lemma {:induction false} ReducedValue(v: int, w: nat)
    ensures BitsValue(BitsOf(Residue(v, w), w)) == v % Pow2(w)
  {
    BitsValueOfBits(Residue(v, w), w);
    hide *;
    ResidueSmall(v, w);
  }

  lemma {:induction false} ResidueSmall(v: int, w: nat)
    ensures Residue(v, w) % Pow2(w) == v % Pow2(w)
  {
    DivModUnique(Residue(v, w), Pow2(w), 0, Residue(v, w));
  }

  // ---------------------------------------------------------------- which value is rejected

  predicate Encodable(value: (nat, int), layout: seq<RegisterEntry>, width: nat) {
    var members := Lookup(layout, value.0);
    members.Some? && Fits(members.value, width)
  }

  /** Encoding fails at the first value whose register is unknown or leaves the state, and says which of the two. */
  lemma {:induction false} EncodeReports(values: seq<(nat, int)>, layout: seq<RegisterEntry>, bits: seq<bool>, k: nat)
    requires k <= |values|
    ensures var r := EncodeBits(values, layout, bits, k);
      && (r.Ok? <==> forall i | 0 <= i < k :: Encodable(values[i], layout, |bits|))
      && (r.Err? ==> exists i | 0 <= i < k ::
           && !Encodable(values[i], layout, |bits|) && (forall j | 0 <= j < i :: Encodable(values[j], layout, |bits|))
           && r.error == if Lookup(layout, values[i].0).None? then KeyError(values[i].0) else OutOfRange)
  {
    hide Simulator.Loaded, Fits, Lookup, Residue;
    if k > 0 {
      EncodeReports(values, layout, bits, k - 1);
      var was := EncodeBits(values, layout, bits, k - 1);
      if was.Ok? {
        assert Encodable(values[k - 1], layout, |bits|) <==> EncodeBits(values, layout, bits, k).Ok?;
      }
    }
  }

  /** Decoding fails exactly when a register reaches outside the state. */
  lemma {:induction false} DecodeReports(bits: seq<bool>, layout: seq<RegisterEntry>, k: nat)
    requires k <= |layout|
    ensures DecodeBits(bits, layout, k).Some? <==> forall i | 0 <= i < k :: Fits(layout[i].members, |bits|)
  {
    hide Simulator.Gathered, Fits;
    if k > 0 {
      DecodeReports(bits, layout, k - 1);
    }
  }
}
