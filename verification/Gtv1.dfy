/** The GTV1 gate list and its canonical byte serialisation. */
module Gtv1 {
  import opened Wrappers
  import opened Binary

  /** Wires and opcode as Python integers; nothing is validated until serialisation. */
  datatype Gate = Gate(opcode: int, target: int, ctrlA: int, ctrlB: int)

  const NOP: int := 0
  const NOT: int := 1
  const CNOT: int := 2
  const TOFFOLI: int := 3
  const UNUSED_CTRL: int := 0xFFFF
  const U16_MAX: int := 0xFFFF
  const U32_MAX: int := 0xFFFF_FFFF

  function Magic(): seq<Byte> {
    [0x47, 0x54, 0x56, 0x31]
  }

  datatype CodecError =
    | TooManyGates | InvalidGate(index: nat)
    | TooShort | BadMagic | WrongLength | BadPad(index: nat) | UnknownOpcode(index: nat)

  predicate ValidOpcode(op: int) {
    NOP <= op <= TOFFOLI
  }

  predicate ValidGate(g: Gate) {
    ValidOpcode(g.opcode) && 0 <= g.target <= U16_MAX && 0 <= g.ctrlA <= U16_MAX && 0 <= g.ctrlB <= U16_MAX
  }

  // ---------------------------------------------------------------- fixed-width fields

  lemma {:induction false} CountBound(b: seq<Byte>)
    requires |b| == 4
    ensures LeValue(b) <= U32_MAX
  {
    LeValueBound(b);
    hide LeValue;
    assert Pow2(8) == 256;
    Pow2Byte(8);
    Pow2Byte(16);
    Pow2Byte(24);
  }

  lemma {:induction false} ValueOfU16(v: nat)
    requires v <= 0xFFFF
    ensures LeValue(LeBytes(v, 2)) == v
  {
    var b := LeBytes(v, 2);
    assert b[1..][1..] == [];
    assert LeBytes(v / 256, 1)[0] == v / 256 % 256 == v / 256;
    assert LeValue(b[1..]) == b[1] + 256 * LeValue([]);
  }

  lemma {:induction false} ValueOfU32(v: nat)
    requires v <= 0xFFFF_FFFF
    ensures LeValue(LeBytes(v, 4)) == v
  {
    var hi, lo := v / 0x1_0000, v % 0x1_0000;
    ValueOfU16(hi);
    ValueOfU16(lo);
    var b := LeBytes(v, 4);
    assert v / 256 / 256 == hi && v % 256 == lo % 256 && v / 256 % 256 == lo / 256;
    assert LeBytes(v / 256, 3)[1..] == LeBytes(hi, 2);
    assert b[1..][1..] == LeBytes(hi, 2);
    assert LeValue(b) == b[0] + 256 * (b[1..][0] + 256 * LeValue(b[1..][1..]));
  }

  /** One gate row: opcode, zero pad, three wires. */
  function GateBytes(g: Gate): (b: seq<Byte>)
    requires ValidGate(g)
    ensures |b| == 8
  {
    [g.opcode, 0] + LeBytes(g.target, 2) + LeBytes(g.ctrlA, 2) + LeBytes(g.ctrlB, 2)
  }

  function GateOf(b: seq<Byte>): Gate
    requires |b| == 8
  {
    Gate(b[0], LeValue(b[2..4]), LeValue(b[4..6]), LeValue(b[6..8]))
  }

  lemma {:induction false} GateRoundTrip(g: Gate)
    requires ValidGate(g)
    ensures GateOf(GateBytes(g)) == g
  {
    ValueOfU16(g.target);
    ValueOfU16(g.ctrlA);
    ValueOfU16(g.ctrlB);
    var b := GateBytes(g);
    assert b[2..4] == LeBytes(g.target, 2) && b[4..6] == LeBytes(g.ctrlA, 2) && b[6..8] == LeBytes(g.ctrlB, 2);
  }

  lemma {:induction false} ValueBelow(b: seq<Byte>)
    requires |b| == 2
    ensures LeValue(b) <= 0xFFFF
  {
    assert b[1..][1..] == [];
    assert LeValue(b[1..]) == b[1] + 256 * LeValue([]);
  }

  lemma {:induction false} RowRoundTrip(b: seq<Byte>)
    requires |b| == 8 && b[1] == 0 && ValidOpcode(b[0])
    ensures ValidGate(GateOf(b)) && GateBytes(GateOf(b)) == b
  {
    ValueBelow(b[2..4]);
    ValueBelow(b[4..6]);
    ValueBelow(b[6..8]);
    BytesOfValue(b[2..4]);
    BytesOfValue(b[4..6]);
    BytesOfValue(b[6..8]);
    assert b == [b[0], b[1]] + b[2..4] + b[4..6] + b[6..8];
  }

  // ---------------------------------------------------------------- gate lists

  /** The rows of `gates`, or the first invalid gate. */
  function Rows(gates: seq<Gate>, k: nat): Result<seq<Byte>, CodecError>
    requires k <= |gates|
  {
    if k == 0 then Ok([])
    else match Rows(gates, k - 1)
      case Err(e) => Err(e)
      case Ok(b) => if ValidGate(gates[k - 1]) then Ok(b + GateBytes(gates[k - 1])) else Err(InvalidGate(k - 1))
  }

  function Serialise(gates: seq<Gate>): Result<seq<Byte>, CodecError> {
    if |gates| > U32_MAX then Err(TooManyGates)
    else match Rows(gates, |gates|)
      case Err(e) => Err(e)
      case Ok(b) => Ok(Magic() + LeBytes(|gates|, 4) + b)
  }

  function Row(body: seq<Byte>, i: nat): (b: seq<Byte>)
    requires 8 * i + 8 <= |body|
    ensures |b| == 8
  {
    body[8 * i..8 * i + 8]
  }

  /** The gates of the first `k` rows, or the first malformed one. */
  function GatesOf(body: seq<Byte>, k: nat): (r: Result<seq<Gate>, CodecError>)
    requires 8 * k <= |body|
    ensures r.Ok? ==> |r.value| == k
  {
    if k == 0 then Ok([])
    else match GatesOf(body, k - 1)
      case Err(e) => Err(e)
      case Ok(gs) =>
        var b := Row(body, k - 1);
        if b[1] != 0 then Err(BadPad(k - 1))
        else if !ValidOpcode(b[0]) then Err(UnknownOpcode(k - 1))
        else Ok(gs + [GateOf(b)])
  }

  function Deserialise(data: seq<Byte>): Result<seq<Gate>, CodecError> {
    if |data| < 8 then Err(TooShort)
    else if data[..4] != Magic() then Err(BadMagic)
    else if |data| != 8 + LeValue(data[4..8]) * 8 then Err(WrongLength)
    else GatesOf(data[8..], LeValue(data[4..8]))
  }

  // ---------------------------------------------------------------- the bytes on the wire

  predicate AllValid(gates: seq<Gate>) {
    forall i | 0 <= i < |gates| :: ValidGate(gates[i])
  }

  lemma {:induction false} RowsOk(gates: seq<Gate>, k: nat)
    requires k <= |gates|
    ensures Rows(gates, k).Ok? <==> AllValid(gates[..k])
    ensures Rows(gates, k).Ok? ==> |Rows(gates, k).value| == 8 * k
    ensures Rows(gates, k).Ok? ==> forall i | 0 <= i < k :: Row(Rows(gates, k).value, i) == GateBytes(gates[i])
  {
    hide GateBytes, ValidGate;
    if k > 0 {
      RowsOk(gates, k - 1);
      assert gates[..k] == gates[..k - 1] + [gates[k - 1]];
      if Rows(gates, k).Ok? {
        var b, c := Rows(gates, k - 1).value, Rows(gates, k).value;
        forall i | 0 <= i < k ensures Row(c, i) == GateBytes(gates[i]) {
          if i < k - 1 {
            assert Row(c, i) == Row(b, i);
          }
        }
      }
    }
  }

  /** Row `i` of the wire format: opcode, zero, then target and controls as 16-bit little-endian words. */
  predicate RowIsWire(data: seq<Byte>, i: nat, g: Gate)
    requires 16 + 8 * i <= |data|
  {
    && data[8 + 8 * i] == g.opcode && data[9 + 8 * i] == 0
    && LeValue(data[10 + 8 * i..12 + 8 * i]) == g.target
    && LeValue(data[12 + 8 * i..14 + 8 * i]) == g.ctrlA
    && LeValue(data[14 + 8 * i..16 + 8 * i]) == g.ctrlB
  }

  /** The wire format: "GTV1", a 32-bit little-endian count, and eight bytes for each gate. */
  predicate IsWire(data: seq<Byte>, gates: seq<Gate>) {
    && |data| == 8 + 8 * |gates|
    && data[0] == 0x47 && data[1] == 0x54 && data[2] == 0x56 && data[3] == 0x31
    && LeValue(data[4..8]) == |gates|
    && forall i | 0 <= i < |gates| :: RowIsWire(data, i, gates[i])
  }

  lemma {:induction false} SliceOfSlice(s: seq<Byte>, from: nat, to: nat, a: nat, b: nat)
    requires from <= to <= |s| && a <= b <= to - from
    ensures s[from..to][a..b] == s[from + a..from + b]
  {
    var l, r := s[from..to][a..b], s[from + a..from + b];
    forall k | 0 <= k < b - a ensures l[k] == r[k] {
      assert l[k] == s[from..to][a + k] == s[from + a + k];
    }
  }

  lemma {:induction false} RowBytes(data: seq<Byte>, i: nat)
    requires 16 + 8 * i <= |data|
    ensures var b := Row(data[8..], i);
      && b[0] == data[8 + 8 * i] && b[1] == data[9 + 8 * i]
      && b[2..4] == data[10 + 8 * i..12 + 8 * i] && b[4..6] == data[12 + 8 * i..14 + 8 * i]
      && b[6..8] == data[14 + 8 * i..16 + 8 * i]
  {
    var from := 8 + 8 * i;
    assert Row(data[8..], i) == data[from..from + 8];
    SliceOfSlice(data, from, from + 8, 2, 4);
    SliceOfSlice(data, from, from + 8, 4, 6);
    SliceOfSlice(data, from, from + 8, 6, 8);
  }

  lemma {:induction false} RowFromGate(data: seq<Byte>, i: nat, g: Gate)
    requires 16 + 8 * i <= |data| && ValidGate(g) && Row(data[8..], i) == GateBytes(g)
    ensures RowIsWire(data, i, g)
  {
    hide LeValue, LeBytes;
    GateRoundTrip(g);
    RowBytes(data, i);
    assert GateBytes(g)[0] == g.opcode && GateBytes(g)[1] == 0;
  }

  /** Every serialisation is in the wire format. */
  lemma {:induction false} SerialisedIsWire(gates: seq<Gate>)
    ensures Serialise(gates).Ok? ==> IsWire(Serialise(gates).value, gates)
  {
    hide GateBytes, ValidGate, LeBytes, LeValue, Row, RowIsWire;
    RowsOk(gates, |gates|);
    assert gates[..|gates|] == gates;
    if Serialise(gates).Ok? {
      var body := Rows(gates, |gates|).value;
      var data := Serialise(gates).value;
      ValueOfU32(|gates|);
      assert data[4..8] == LeBytes(|gates|, 4) && data[8..] == body;
      forall i | 0 <= i < |gates| ensures RowIsWire(data, i, gates[i]) {
        RowFromGate(data, i, gates[i]);
      }
    }
  }

  lemma {:induction false} GatesFromRows(data: seq<Byte>, k: nat)
    requires 8 + 8 * k <= |data| && GatesOf(data[8..], k).Ok?
    ensures forall i | 0 <= i < k :: RowIsWire(data, i, GatesOf(data[8..], k).value[i])
  {
    hide LeValue;
    if k > 0 {
      GatesFromRows(data, k - 1);
      RowBytes(data, k - 1);
    }
  }

  /** Every accepted byte string is the wire format of the gates read from it. */
  lemma {:induction false} DeserialisedIsWire(data: seq<Byte>)
    ensures Deserialise(data).Ok? ==> IsWire(data, Deserialise(data).value)
  {
    hide LeValue, RowIsWire, GatesOf;
    if Deserialise(data).Ok? {
      GatesFromRows(data, LeValue(data[4..8]));
      assert data[..4][0] == data[0] && data[..4][1] == data[1] && data[..4][2] == data[2] && data[..4][3] == data[3];
    }
  }

  /** An invalid gate is reported by the index of the first one. */
  lemma {:induction false} FirstInvalidGate(gates: seq<Gate>, k: nat)
    requires k <= |gates| && Rows(gates, k).Err?
    ensures Rows(gates, k).error.InvalidGate?
    ensures var i := Rows(gates, k).error.index;
      i < k && !ValidGate(gates[i]) && forall j | 0 <= j < i :: ValidGate(gates[j])
  {
    hide GateBytes, ValidGate;
    RowsOk(gates, k - 1);
    if Rows(gates, k - 1).Err? {
      FirstInvalidGate(gates, k - 1);
    } else {
      assert forall j | 0 <= j < k - 1 :: gates[..k - 1][j] == gates[j];
    }
  }

  predicate GoodRow(body: seq<Byte>, i: nat)
    requires 8 * i + 8 <= |body|
  {
    body[8 * i + 1] == 0 && ValidOpcode(body[8 * i])
  }

  /** A malformed row is reported by the index of the first one, its padding byte before its opcode. */
  lemma {:induction false} FirstBadRow(body: seq<Byte>, k: nat)
    requires 8 * k <= |body|
    ensures var r := GatesOf(body, k);
      && (r.Ok? ==> forall j | 0 <= j < k :: GoodRow(body, j))
      && (r.Err? ==> r.error.BadPad? || r.error.UnknownOpcode?)
      && (r.Err? ==> r.error.index < k && forall j | 0 <= j < r.error.index :: GoodRow(body, j))
      && (r.Err? ==> (r.error.BadPad? <==> body[8 * r.error.index + 1] != 0))
      && (r.Err? && r.error.UnknownOpcode? ==> !ValidOpcode(body[8 * r.error.index]))
  {
    hide GateOf;
    if k > 0 {
      FirstBadRow(body, k - 1);
    }
  }

  // ---------------------------------------------------------------- the implementations

  method SerialiseGates(gates: seq<Gate>) returns (r: Result<seq<Byte>, CodecError>)
    ensures r == Serialise(gates)
    ensures r.Ok? ==> IsWire(r.value, gates)
  {
    hide GateBytes, ValidGate, IsWire;
    SerialisedIsWire(gates);
    if |gates| > U32_MAX {
      return Err(TooManyGates);
    }
    var buf := Magic() + LeBytes(|gates|, 4);
    ghost var head := buf;
    ghost var body: seq<Byte> := [];
    for i := 0 to |gates|
      invariant Rows(gates, i) == Ok(body) && buf == head + body
    {
      if !ValidGate(gates[i]) {
        RowsStuck(gates, i + 1, |gates|);
        return Err(InvalidGate(i));
      }
      body := body + GateBytes(gates[i]);
      buf := buf + GateBytes(gates[i]);
    }
    return Ok(buf);
  }

  lemma {:induction false} RowsStuck(gates: seq<Gate>, k: nat, n: nat)
    requires k <= n <= |gates| && Rows(gates, k).Err?
    ensures Rows(gates, n) == Rows(gates, k)
  {
    if k < n {
      RowsStuck(gates, k, n - 1);
    }
  }

  lemma {:induction false} GatesStuck(body: seq<Byte>, k: nat, n: nat)
    requires k <= n && 8 * n <= |body| && GatesOf(body, k).Err?
    ensures GatesOf(body, n) == GatesOf(body, k)
  {
    if k < n {
      GatesStuck(body, k, n - 1);
    }
  }

  method DeserialiseBytes(data: seq<Byte>) returns (r: Result<seq<Gate>, CodecError>)
    ensures r == Deserialise(data)
    ensures r.Ok? ==> IsWire(data, r.value)
  {
    hide LeValue, GateOf, IsWire;
    DeserialisedIsWire(data);
    if |data| < 8 {
      return Err(TooShort);
    }
    if data[..4] != Magic() {
      return Err(BadMagic);
    }
    var n := LeValue(data[4..8]);
    if |data| != 8 + n * 8 {
      return Err(WrongLength);
    }
    r := ReadRows(data, n);
  }

  lemma {:induction false} RowAt(data: seq<Byte>, i: nat)
    requires 8 + 8 * i + 8 <= |data|
    ensures data[8 + i * 8..8 + i * 8 + 8] == Row(data[8..], i)
  {
    var a, b := data[8 + i * 8..8 + i * 8 + 8], Row(data[8..], i);
    forall k | 0 <= k < 8 ensures a[k] == b[k] {
      assert b[k] == data[8..][8 * i + k];
    }
  }

  method ReadRows(data: seq<Byte>, n: nat) returns (r: Result<seq<Gate>, CodecError>)
    requires |data| == 8 + 8 * n
    ensures r == GatesOf(data[8..], n)
  {
    hide LeValue, GateOf;
    ghost var body := data[8..];
    var gates := [];
    for i := 0 to n
      invariant GatesOf(body, i) == Ok(gates)
    {
      var off := 8 + i * 8;
      var b := data[off..off + 8];
      RowAt(data, i);
      if b[1] != 0 {
        GatesStuck(body, i + 1, n);
        return Err(BadPad(i));
      }
      if !ValidOpcode(b[0]) {
        GatesStuck(body, i + 1, n);
        return Err(UnknownOpcode(i));
      }
      gates := gates + [GateOf(b)];
    }
    return Ok(gates);
  }

  // ---------------------------------------------------------------- round trips

  lemma {:induction false} ReadBack(gates: seq<Gate>, body: seq<Byte>, k: nat)
    requires k <= |gates| && |body| == 8 * |gates| && AllValid(gates)
    requires forall i | 0 <= i < |gates| :: Row(body, i) == GateBytes(gates[i])
    ensures GatesOf(body, k) == Ok(gates[..k])
  {
    hide GateOf, LeBytes;
    if k > 0 {
      ReadBack(gates, body, k - 1);
      assert Row(body, k - 1) == GateBytes(gates[k - 1]);
      GateRoundTrip(gates[k - 1]);
      assert gates[..k] == gates[..k - 1] + [gates[k - 1]];
    }
  }

  /** Serialising accepts exactly the lists of valid gates that a 32-bit count can hold, and reading back returns them. */
  lemma {:induction false} SerialiseThenDeserialise(gates: seq<Gate>)
    ensures Serialise(gates).Ok? <==> |gates| <= U32_MAX && AllValid(gates)
    ensures Serialise(gates).Ok? ==> Deserialise(Serialise(gates).value) == Ok(gates)
  {
    hide ValidGate, LeBytes, GateOf, Row, GateBytes;
    RowsOk(gates, |gates|);
    assert gates[..|gates|] == gates;
    if Serialise(gates).Ok? {
      var body := Rows(gates, |gates|).value;
      var data := Magic() + LeBytes(|gates|, 4) + body;
      ValueOfU32(|gates|);
      assert data[..4] == Magic() && data[4..8] == LeBytes(|gates|, 4) && data[8..] == body;
      ReadBack(gates, body, |gates|);
    }
  }

  lemma {:induction false} WriteBack(body: seq<Byte>, k: nat)
    requires 8 * k <= |body| && GatesOf(body, k).Ok?
    ensures Rows(GatesOf(body, k).value, k) == Ok(body[..8 * k])
  {
    hide GateOf, GateBytes, ValidGate;
    if k > 0 {
      var gs, b := GatesOf(body, k).value, Row(body, k - 1);
      WriteBack(body, k - 1);
      RowRoundTrip(b);
      RowsPrefix(GatesOf(body, k - 1).value, gs, k - 1);
      assert body[..8 * k] == body[..8 * (k - 1)] + b;
    }
  }

  lemma {:induction false} RowsPrefix(a: seq<Gate>, b: seq<Gate>, k: nat)
    requires k <= |a| && k <= |b| && a[..k] == b[..k]
    ensures Rows(a, k) == Rows(b, k)
  {
    hide GateBytes, ValidGate;
    if k > 0 {
      assert a[k - 1] == a[..k][k - 1] == b[..k][k - 1];
      assert a[..k - 1] == a[..k][..k - 1] && b[..k - 1] == b[..k][..k - 1];
      RowsPrefix(a, b, k - 1);
    }
  }

  /** Every accepted byte string is the serialisation of what was read: the format has one spelling per list. */
  lemma {:induction false} DeserialiseThenSerialise(data: seq<Byte>)
    ensures Deserialise(data).Ok? ==> Serialise(Deserialise(data).value) == Ok(data)
  {
    if Deserialise(data).Ok? {
      var n := LeValue(data[4..8]);
      hide LeValue, Rows, GatesOf;
      CountBound(data[4..8]);
      WriteBack(data[8..], n);
      BytesOfValue(data[4..8]);
      assert data[8..][..8 * n] == data[8..];
      assert data == data[..4] + data[4..8] + data[8..];
    }
  }
}
